/** Host-resource locks, copies and failure records under any interleaving of
    threads.

    A step is one access to a copy's `m_scheduled` or `m_hostres`, neither of which
    is protected, or one section under the mutex of a host resource or of an error
    list. preSchedule is up to three such steps and postSchedule up to five, and
    the steps of other threads may come in between. */
module LockLedger {
  import opened HostLock
  import opened Options

  /** `locks` and `unlocks` count the device locks granted for the copy and those
      given back. */
  datatype Copy = Copy(c2h: bool, d2d: bool, isSubres: bool, host: Option<nat>, scheduled: bool, locks: nat, unlocks: nat)

  /** How far a thread is that has a device lock to account for. In preSchedule:
      the lock is taken, then the flag set, then the resource attached to a
      subresource copy. In postSchedule: the flag is cleared, then the failure is
      on record, then the resource detached. */
  datatype Stage = Locked | Attaching | Cleared | Releasing | Detached

  /** `Tested`: in postSchedule, having found the flag set. An `Owing` thread
      answers for the lock on resource `h` in place of the copy; `errors` is the
      error list for a failed copy. */
  datatype Thread =
    | Idle
    | Tested(c: nat, errors: Option<nat>)
    | Owing(stage: Stage, c: nat, h: nat, c2h: bool, errors: Option<nat>)

  /** `pending[h]` is a CPU lock attempt that has passed its first check and now
      waits; `lists[l]` are the host resources that error list `l` holds failed
      copies of, list 0 being the context's. `crashed`: a thread has used the
      resource of a copy that has none attached. */
  datatype State = State(hosts: seq<HostState>, pending: seq<Option<bool>>, copies: seq<Copy>, lists: seq<seq<nat>>,
                         threads: seq<Thread>, crashed: bool)

  // ----- Counting -----

  function One(b: bool): nat {
    if b then 1 else 0
  }

  function Count<T>(xs: seq<T>, p: T -> bool): nat {
    if xs == [] then 0 else Count(xs[..|xs| - 1], p) + One(p(xs[|xs| - 1]))
  }

  lemma {:induction false} CountUpdate<T>(xs: seq<T>, i: nat, x: T, p: T -> bool)
    requires i < |xs|
    ensures Count(xs[i := x], p) == Count(xs, p) - One(p(xs[i])) + One(p(x))
    ensures Count(xs, p) >= One(p(xs[i]))
  {
    var n := |xs| - 1;
    if i == n {
      assert xs[i := x][..n] == xs[..n];
    } else {
      CountUpdate(xs[..n], i, x, p);
      assert xs[i := x][..n] == xs[..n][i := x];
    }
  }

  lemma {:induction false} CountNone<T>(xs: seq<T>, p: T -> bool)
    requires forall x :: x in xs ==> !p(x)
    ensures Count(xs, p) == 0
  {
    if xs != [] {
      CountNone(xs[..|xs| - 1], p);
    }
  }

  function HoldsOn(h: nat, writer: bool): Copy -> bool {
    (c: Copy) => c.scheduled && !c.d2d && c.host == Some(h) && c.c2h == writer
  }

  function OwesOn(h: nat, writer: bool): Thread -> bool {
    (t: Thread) => t.Owing? && t.h == h && t.c2h == writer
  }

  function OwesFor(c: nat): Thread -> bool {
    (t: Thread) => t.Owing? && t.stage != Attaching && t.c == c
  }

  function AttachesFor(c: nat): Thread -> bool {
    (t: Thread) => t.Owing? && t.stage == Attaching && t.c == c
  }

  function ReleasesFor(c: nat): Thread -> bool {
    (t: Thread) => t.Owing? && (t.stage == Cleared || t.stage == Releasing) && t.c == c
  }

  lemma {:induction false} CountPositive<T>(xs: seq<T>, p: T -> bool)
    ensures Count(xs, p) > 0 <==> exists i :: 0 <= i < |xs| && p(xs[i])
  {
    if xs != [] {
      var n := |xs| - 1;
      CountPositive(xs[..n], p);
      if i :| 0 <= i < n && p(xs[..n][i]) {
        assert p(xs[i]);
      }
      if i :| 0 <= i < n && p(xs[i]) {
        assert p(xs[..n][i]);
      }
    }
  }

  /** Locks on resource `h` that a copy is marked to hold or a thread answers for. */
  function Held(st: State, h: nat, writer: bool): nat {
    Count(st.copies, HoldsOn(h, writer)) + Count(st.threads, OwesOn(h, writer))
  }

  function CpuHolds(h: HostState, writer: bool): nat {
    One(if writer then h.cpuLocked < 0 else h.cpuLocked > 0)
  }

  function Occurrences(failed: seq<nat>, h: nat): nat {
    multiset(failed)[h]
  }

  function Failures(lists: seq<seq<nat>>, h: nat): nat {
    if lists == [] then 0
    else Failures(lists[..|lists| - 1], h) + Occurrences(lists[|lists| - 1], h)
  }

  lemma {:induction false} FailuresUpdate(lists: seq<seq<nat>>, l: nat, to: seq<nat>, h: nat)
    requires l < |lists|
    ensures Failures(lists[l := to], h) == Failures(lists, h) - Occurrences(lists[l], h) + Occurrences(to, h)
    ensures Failures(lists, h) >= Occurrences(lists[l], h)
  {
    var n := |lists| - 1;
    if l == n {
      assert lists[l := to][..n] == lists[..n];
    } else {
      FailuresUpdate(lists[..n], l, to, h);
      assert lists[l := to][..n] == lists[..n][l := to];
    }
  }

  // ----- Steps -----

  datatype Event =
    | CpuCheck(h: nat, forWrite: bool)              // the check before the mutex
    | CpuAcquire(h: nat, syncOk: bool)              // the wait is over
    | CpuTimeout(h: nat)
    | CpuUnlock(h: nat)
    | Lock(t: nat, c: nat, h: nat)                  // preSchedule: lock_device_access
    | SetFlag(t: nat)
    | Attach(t: nat)
    | Test(t: nat, c: nat, errors: Option<nat>)     // postSchedule: its first test
    | Clear(t: nat)
    | Record(t: nat)
    | Detach(t: nat)
    | Unlock(t: nat)                                // unlock_device_access
    | NewList
    | ClearList(list: nat)                          // cleared by the card, or destroyed

  /** Thread `t` is at that stage of an operation on a copy. */
  predicate At(st: State, t: nat, stage: Stage) {
    t < |st.threads| && st.threads[t].Owing? && st.threads[t].stage == stage && st.threads[t].c < |st.copies|
  }

  predicate Enabled(st: State, e: Event) {
    && !st.crashed && Shape(st)
    && match e
       case CpuCheck(h, _) =>
         h < |st.hosts| && !st.hosts[h].lockless && st.hosts[h].cpuLocked == 0 && st.pending[h] == None
       case CpuAcquire(h, _) =>
         h < |st.hosts| && st.pending[h].Some? && CpuGuard(st.hosts[h], st.pending[h].value)
       case CpuTimeout(h) => h < |st.pending|
       case CpuUnlock(h) => h < |st.hosts|
       case Lock(t, c, h) =>
         && t < |st.threads| && st.threads[t].Idle? && c < |st.copies| && h < |st.hosts|
         && !st.copies[c].d2d && (st.copies[c].isSubres || st.copies[c].host == Some(h))
       case SetFlag(t) => At(st, t, Locked)
       case Attach(t) => At(st, t, Attaching)
       case Test(t, c, errors) =>
         && t < |st.threads| && st.threads[t].Idle? && c < |st.copies|
         && (errors.Some? ==> errors.value < |st.lists|)
       case Clear(t) => t < |st.threads| && st.threads[t].Tested? && st.threads[t].c < |st.copies|
       case Record(t) => At(st, t, Cleared) && st.threads[t].errors.Some? && st.threads[t].errors.value < |st.lists|
       case Detach(t) => At(st, t, Releasing) && st.copies[st.threads[t].c].isSubres
       case Unlock(t) => At(st, t, Detached) || (At(st, t, Releasing) && !st.copies[st.threads[t].c].isSubres)
       case NewList => true
       case ClearList(l) => l < |st.lists|
  }

  predicate Shape(st: State) {
    |st.pending| == |st.hosts| && |st.lists| > 0
  }

  /** The resource that a copy's `m_hostres` leads to. */
  function HostOf(st: State, c: nat): Option<nat>
    requires c < |st.copies|
  {
    if st.copies[c].host.Some? && st.copies[c].host.value < |st.hosts| then st.copies[c].host else None
  }

  /** Each failed copy recorded in the list is taken back from its resource. */
  function TakeBack(hosts: seq<HostState>, failed: seq<nat>): (r: seq<HostState>)
    ensures |r| == |hosts|
  {
    seq(|hosts|, h requires 0 <= h < |hosts| => CountFailures(hosts[h], -1 * Occurrences(failed, h)))
  }

  function DoLock(st: State, t: nat, c: nat, h: nat): State
    requires t < |st.threads| && c < |st.copies| && h < |st.hosts|
  {
    var (ok, host) := LockDevice(st.hosts[h], st.copies[c].c2h);
    if !ok then st
    else st.(hosts := st.hosts[h := host],
             copies := st.copies[c := st.copies[c].(locks := st.copies[c].locks + 1)],
             threads := st.threads[t := Owing(Locked, c, h, st.copies[c].c2h, None)])
  }

  function DoSetFlag(st: State, t: nat): State
    requires At(st, t, Locked)
  {
    var th := st.threads[t];
    st.(copies := st.copies[th.c := st.copies[th.c].(scheduled := true)],
        threads := st.threads[t := if st.copies[th.c].isSubres then th.(stage := Attaching) else Idle])
  }

  function DoAttach(st: State, t: nat): State
    requires At(st, t, Attaching)
  {
    var th := st.threads[t];
    st.(copies := st.copies[th.c := st.copies[th.c].(host := Some(th.h))], threads := st.threads[t := Idle])
  }

  function DoTest(st: State, t: nat, c: nat, errors: Option<nat>): State
    requires t < |st.threads| && c < |st.copies|
  {
    if st.copies[c].scheduled then st.(threads := st.threads[t := Tested(c, errors)]) else st
  }

  function DoClear(st: State, t: nat): State
    requires t < |st.threads| && st.threads[t].Tested? && st.threads[t].c < |st.copies|
  {
    var th := st.threads[t];
    var h := HostOf(st, th.c);
    st.(copies := st.copies[th.c := st.copies[th.c].(scheduled := false)],
        threads := st.threads[t :=
          Owing(if th.errors.Some? then Cleared else Releasing, th.c, if h.Some? then h.value else 0,
                st.copies[th.c].c2h, th.errors)])
  }

  function DoRecord(st: State, t: nat): State
    requires At(st, t, Cleared) && st.threads[t].errors.Some? && st.threads[t].errors.value < |st.lists|
  {
    var th := st.threads[t];
    var h, l := HostOf(st, th.c), th.errors.value;
    if h.None? then st.(crashed := true)
    else st.(hosts := st.hosts[h.value := CountFailures(st.hosts[h.value], 1)],
             lists := st.lists[l := st.lists[l] + [h.value]],
             threads := st.threads[t := th.(stage := Releasing)])
  }

  function DoDetach(st: State, t: nat): State
    requires At(st, t, Releasing)
  {
    var th := st.threads[t];
    var h := HostOf(st, th.c);
    if h.None? then st.(crashed := true)
    else st.(copies := st.copies[th.c := st.copies[th.c].(host := None)],
             threads := st.threads[t := th.(stage := Detached, h := h.value)])
  }

  function DoUnlock(st: State, t: nat): State
    requires At(st, t, Detached) || At(st, t, Releasing)
  {
    var th := st.threads[t];
    var h := if th.stage == Detached then if th.h < |st.hosts| then Some(th.h) else None else HostOf(st, th.c);
    if h.None? then st.(crashed := true)
    else st.(hosts := st.hosts[h.value := UnlockDevice(st.hosts[h.value], th.c2h)],
             copies := st.copies[th.c := st.copies[th.c].(unlocks := st.copies[th.c].unlocks + 1)],
             threads := st.threads[t := Idle])
  }

  function Next(st: State, e: Event): State
    requires Enabled(st, e)
  {
    match e
    case CpuCheck(h, w) => st.(pending := st.pending[h := Some(w)])
    case CpuAcquire(h, syncOk) =>
      st.(hosts := st.hosts[h := TakeCpu(st.hosts[h], st.pending[h].value, syncOk).1], pending := st.pending[h := None])
    case CpuTimeout(h) => st.(pending := st.pending[h := None])
    case CpuUnlock(h) => st.(hosts := st.hosts[h := ReleaseCpu(st.hosts[h]).1])
    case Lock(t, c, h) => DoLock(st, t, c, h)
    case SetFlag(t) => DoSetFlag(st, t)
    case Attach(t) => DoAttach(st, t)
    case Test(t, c, errors) => DoTest(st, t, c, errors)
    case Clear(t) => DoClear(st, t)
    case Record(t) => DoRecord(st, t)
    case Detach(t) => DoDetach(st, t)
    case Unlock(t) => DoUnlock(st, t)
    case NewList => st.(lists := st.lists + [[]])
    case ClearList(l) => st.(hosts := TakeBack(st.hosts, st.lists[l]), lists := st.lists[l := []])
  }

  /** The events can happen one after the other. */
  predicate Possible(st: State, es: seq<Event>)
    decreases |es|
  {
    es == [] || (Enabled(st, es[0]) && Possible(Next(st, es[0]), es[1..]))
  }

  function Run(st: State, es: seq<Event>): State
    requires Possible(st, es)
    decreases |es|
  {
    if es == [] then st else Run(Next(st, es[0]), es[1..])
  }

  // ----- The ledger -----

  function ReaderCount(st: State, h: nat): nat
    requires h < |st.hosts|
  {
    Held(st, h, false) + CpuHolds(st.hosts[h], false)
  }

  function WriterCount(st: State, h: nat): nat
    requires h < |st.hosts|
  {
    Held(st, h, true) + CpuHolds(st.hosts[h], true)
  }

  predicate HostOk(st: State, h: nat)
    requires h < |st.hosts|
  {
    var host := st.hosts[h];
    && -1 <= host.cpuLocked <= 1
    && (host.lockless ==> host.readers == 0 && host.cpuLocked == 0)
    && (!host.lockless ==> Ledger(host.readers, ReaderCount(st, h), WriterCount(st, h)))
  }

  predicate FailuresOk(st: State, h: nat)
    requires h < |st.hosts|
  {
    st.hosts[h].failedOps == Failures(st.lists, h)
  }

  /** No thread has crashed, and every counter shows the locks that copies are
      marked to hold, threads answer for, or the CPU has. */
  ghost predicate LedgerHolds(st: State) {
    !st.crashed && forall h: nat :: h < |st.hosts| ==> HostOk(st, h)
  }

  // ----- The invariant of disciplined runs -----

  predicate CopyOk(st: State, c: nat)
    requires c < |st.copies|
  {
    var copy := st.copies[c];
    && (copy.host.Some? ==> copy.host.value < |st.hosts|)
    && (copy.d2d ==> !copy.scheduled && !copy.isSubres)
    && (!copy.d2d && !copy.isSubres ==> copy.host.Some?)
    && (copy.isSubres ==> !copy.c2h)
    && copy.locks == copy.unlocks + One(copy.scheduled) + Count(st.threads, OwesFor(c))
    && AttachedOk(st, c)
  }

  /** A subresource copy has its resource while it is scheduled, but for the time
      until that is attached, and until it is detached. */
  predicate AttachedOk(st: State, c: nat)
    requires c < |st.copies|
  {
    st.copies[c].isSubres ==>
      One(st.copies[c].host.Some?) + Count(st.threads, AttachesFor(c)) ==
      One(st.copies[c].scheduled) + Count(st.threads, ReleasesFor(c))
  }

  predicate ThreadOk(st: State, t: nat)
    requires t < |st.threads|
  {
    match st.threads[t]
    case Idle => true
    case Tested(c, errors) =>
      && c < |st.copies| && st.copies[c].scheduled && st.copies[c].host.Some?
      && (errors.Some? ==> errors.value < |st.lists|)
    case Owing(stage, c, h, c2h, errors) =>
      && c < |st.copies| && h < |st.hosts|
      && var copy := st.copies[c];
      && !copy.d2d && c2h == copy.c2h
      && (errors.Some? ==> errors.value < |st.lists|)
      && match stage
         case Locked => !copy.scheduled && copy.host == if copy.isSubres then None else Some(h)
         case Attaching => copy.isSubres && copy.scheduled && copy.host == None
         case Cleared => copy.host == Some(h) && (copy.isSubres ==> !copy.scheduled) && errors.Some?
         case Releasing => copy.host == Some(h) && (copy.isSubres ==> !copy.scheduled)
         case Detached => copy.isSubres
  }

  /** In an operation on `c`, before the copy's flag is written. */
  predicate Front(th: Thread, c: nat) {
    (th.Tested? || (th.Owing? && (th.stage == Locked || th.stage == Attaching))) && th.c == c
  }

  /** In an operation on `c` that may still look at its attached resource. */
  predicate Touches(th: Thread, c: nat) {
    (th.Tested? || (th.Owing? && th.stage != Detached)) && th.c == c
  }

  predicate Clash(copy: Copy, a: Thread, b: Thread, c: nat) {
    if copy.isSubres then Touches(a, c) && Touches(b, c) else Front(a, c) && Front(b, c)
  }

  /** No two threads are in each other's way on one copy. */
  ghost predicate Apart(st: State) {
    forall t: nat, u: nat, c: nat :: t < u < |st.threads| && c < |st.copies| ==>
      !Clash(st.copies[c], st.threads[t], st.threads[u], c)
  }

  ghost predicate Inv(st: State) {
    && Shape(st) && !st.crashed && Apart(st)
    && (forall h: nat :: h < |st.hosts| ==> HostOk(st, h) && FailuresOk(st, h))
    && (forall c: nat :: c < |st.copies| ==> CopyOk(st, c))
    && (forall t: nat :: t < |st.threads| ==> ThreadOk(st, t))
    // a waiting CPU lock attempt has found no CPU lock, and nobody else may take one
    && (forall h: nat :: h < |st.hosts| && st.pending[h].Some? ==> st.hosts[h].cpuLocked == 0)
  }

  /** What has to be avoided when an operation starts. A device lock is granted to
      a copy only while it is neither scheduled nor being scheduled, and to a
      subresource copy only while no other operation on it is under way. A
      postSchedule finds the flag set only while the resource is attached and no
      other postSchedule has done so and not yet cleared it. */
  predicate Guarded(st: State, e: Event) {
    match e
    case Lock(t, c, h) =>
      c < |st.copies| && h < |st.hosts| && LockDevice(st.hosts[h], st.copies[c].c2h).0 ==>
        && !st.copies[c].scheduled
        && (forall u :: 0 <= u < |st.threads| ==> !Front(st.threads[u], c))
        && (st.copies[c].isSubres ==>
              st.copies[c].host == None && forall u :: 0 <= u < |st.threads| ==> !Touches(st.threads[u], c))
    case Test(t, c, _) =>
      c < |st.copies| && st.copies[c].scheduled ==>
        && st.copies[c].host.Some?
        && (forall u :: 0 <= u < |st.threads| ==> !(st.threads[u].Tested? && st.threads[u].c == c))
    case _ => true
  }

  // ----- Every guarded step keeps the invariant -----

  predicate AboutCopy(th: Thread, c: nat) {
    th.Idle? || th.c == c
  }

  /** Only thread `t`, copy `c`, the resources' counters and the lists have changed. */
  predicate Changes(st: State, next: State, t: nat, c: nat) {
    && t < |st.threads| == |next.threads| && c < |st.copies| == |next.copies|
    && next.threads == st.threads[t := next.threads[t]] && next.copies == st.copies[c := next.copies[c]]
    && AboutCopy(st.threads[t], c) && AboutCopy(next.threads[t], c)
    && |next.hosts| == |st.hosts| && next.pending == st.pending && |next.lists| == |st.lists| && !next.crashed
    && (forall h: nat :: h < |st.hosts| ==>
          next.hosts[h].lockless == st.hosts[h].lockless && next.hosts[h].cpuLocked == st.hosts[h].cpuLocked)
    && var (copy, copy') := (st.copies[c], next.copies[c]);
       copy'.c2h == copy.c2h && copy'.d2d == copy.d2d && copy'.isSubres == copy.isSubres
  }

  /** How many locks on `h` the changed thread and copy stand for. */
  function Share(st: State, t: nat, c: nat, h: nat, writer: bool): nat
    requires t < |st.threads| && c < |st.copies|
  {
    One(HoldsOn(h, writer)(st.copies[c])) + One(OwesOn(h, writer)(st.threads[t]))
  }

  lemma HeldAfter(st: State, next: State, t: nat, c: nat, h: nat, writer: bool)
    requires Changes(st, next, t, c)
    ensures Held(next, h, writer) == Held(st, h, writer) - Share(st, t, c, h, writer) + Share(next, t, c, h, writer)
    ensures Held(st, h, writer) >= Share(st, t, c, h, writer)
  {
    CountUpdate(st.copies, c, next.copies[c], HoldsOn(h, writer));
    CountUpdate(st.threads, t, next.threads[t], OwesOn(h, writer));
  }

  // What the thread and the copy stand for together has not changed.
  lemma SameShare(st: State, next: State, t: nat, c: nat, h: nat)
    requires Changes(st, next, t, c) && h < |st.hosts| && HostOk(st, h)
    requires next.hosts[h].readers == st.hosts[h].readers
    requires forall w :: Share(next, t, c, h, w) == Share(st, t, c, h, w)
    ensures HostOk(next, h)
  {
    HeldAfter(st, next, t, c, h, true);
    HeldAfter(st, next, t, c, h, false);
  }

  lemma AttachedKeeps(st: State, next: State, t: nat, c: nat, d: nat)
    requires Changes(st, next, t, c) && d < |st.copies| && AttachedOk(st, d)
    requires var (copy, copy') := (st.copies[c], next.copies[c]);
             copy.isSubres ==>
               One(copy'.host.Some?) - One(copy.host.Some?)
               + One(AttachesFor(c)(next.threads[t])) - One(AttachesFor(c)(st.threads[t])) ==
               One(copy'.scheduled) - One(copy.scheduled)
               + One(ReleasesFor(c)(next.threads[t])) - One(ReleasesFor(c)(st.threads[t]))
    ensures AttachedOk(next, d)
  {
    CountUpdate(st.threads, t, next.threads[t], AttachesFor(d));
    CountUpdate(st.threads, t, next.threads[t], ReleasesFor(d));
  }

  /** The part of the invariant about copies and threads. */
  lemma Others(st: State, next: State, t: nat, c: nat)
    requires Inv(st) && Changes(st, next, t, c)
    requires ThreadOk(next, t)
    requires forall u: nat :: u < |st.threads| && u != t ==> ThreadOk(next, u)
    requires forall u: nat :: u < |st.threads| && u != t ==> !Clash(next.copies[c], next.threads[t], next.threads[u], c)
    requires var (copy, copy') := (st.copies[c], next.copies[c]);
             && (copy'.host.Some? ==> copy'.host.value < |st.hosts|)
             && (copy.d2d ==> !copy'.scheduled)
             && (!copy.d2d && !copy.isSubres ==> copy'.host.Some?)
             && copy'.locks - copy.locks - (copy'.unlocks - copy.unlocks) ==
                One(copy'.scheduled) - One(copy.scheduled)
                + One(OwesFor(c)(next.threads[t])) - One(OwesFor(c)(st.threads[t]))
    requires var (copy, copy') := (st.copies[c], next.copies[c]);
             copy.isSubres ==>
               One(copy'.host.Some?) - One(copy.host.Some?)
               + One(AttachesFor(c)(next.threads[t])) - One(AttachesFor(c)(st.threads[t])) ==
               One(copy'.scheduled) - One(copy.scheduled)
               + One(ReleasesFor(c)(next.threads[t])) - One(ReleasesFor(c)(st.threads[t]))
    ensures Apart(next)
    ensures forall d: nat :: d < |next.copies| ==> CopyOk(next, d)
    ensures forall u: nat :: u < |next.threads| ==> ThreadOk(next, u)
  {
    hide AttachedOk;
    forall d: nat | d < |next.copies|
      ensures CopyOk(next, d)
    {
      assert CopyOk(st, d) && CopyOk(st, c);
      CountUpdate(st.threads, t, next.threads[t], OwesFor(d));
      AttachedKeeps(st, next, t, c, d);
    }
    forall a: nat, b: nat, d: nat | a < b < |next.threads| && d < |next.copies|
      ensures !Clash(next.copies[d], next.threads[a], next.threads[b], d)
    {
      assert !Clash(st.copies[d], st.threads[a], st.threads[b], d);
    }
  }

  // A lock, a failure or an unlock at one resource leaves the waiting attempts alone.
  lemma Waiting(st: State, next: State)
    requires Inv(st) && next.pending == st.pending && |next.hosts| == |st.hosts|
    requires forall h: nat :: h < |st.hosts| ==> next.hosts[h].cpuLocked == st.hosts[h].cpuLocked
    ensures forall h: nat :: h < |next.hosts| && next.pending[h].Some? ==> next.hosts[h].cpuLocked == 0
  {
  }

  // One lock more or less, in the counter and in what thread and copy stand for.
  lemma OneMore(st: State, next: State, t: nat, c: nat, h: nat, writer: bool)
    requires Changes(st, next, t, c) && h < |st.hosts| && HostOk(st, h) && !st.hosts[h].lockless
    requires (true, next.hosts[h]) == LockDevice(st.hosts[h], writer)
    requires Share(next, t, c, h, writer) == Share(st, t, c, h, writer) + 1
    requires Share(next, t, c, h, !writer) == Share(st, t, c, h, !writer)
    ensures HostOk(next, h)
  {
    HeldAfter(st, next, t, c, h, true);
    HeldAfter(st, next, t, c, h, false);
    LockDeviceLedger(st.hosts[h], writer, ReaderCount(st, h), WriterCount(st, h));
  }

  lemma OneLess(st: State, next: State, t: nat, c: nat, h: nat, writer: bool)
    requires Changes(st, next, t, c) && h < |st.hosts| && HostOk(st, h) && !st.hosts[h].lockless
    requires next.hosts[h] == UnlockDevice(st.hosts[h], writer)
    requires Share(next, t, c, h, writer) == Share(st, t, c, h, writer) - 1
    requires Share(next, t, c, h, !writer) == Share(st, t, c, h, !writer)
    ensures HostOk(next, h)
  {
    HeldAfter(st, next, t, c, h, true);
    HeldAfter(st, next, t, c, h, false);
    UnlockDeviceLedger(st.hosts[h], writer, ReaderCount(st, h), WriterCount(st, h));
  }

  lemma LockHosts(st: State, next: State, t: nat, c: nat, h: nat, k: nat)
    requires Enabled(st, Lock(t, c, h)) && next == DoLock(st, t, c, h) && next != st
    requires k < |st.hosts| && HostOk(st, k) && FailuresOk(st, k)
    ensures Changes(st, next, t, c) && next.lists == st.lists
    ensures HostOk(next, k) && FailuresOk(next, k)
  {
    if k == h && !st.hosts[h].lockless {
      OneMore(st, next, t, c, h, st.copies[c].c2h);
    } else if k != h {
      SameShare(st, next, t, c, k);
    }
  }

  lemma LockKeeps(st: State, t: nat, c: nat, h: nat)
    requires Inv(st) && Enabled(st, Lock(t, c, h)) && Guarded(st, Lock(t, c, h))
    ensures Inv(DoLock(st, t, c, h))
  {
    hide HostOk, FailuresOk;
    var next := DoLock(st, t, c, h);
    if next != st {
      assert CopyOk(st, c);
      forall k: nat | k < |st.hosts|
        ensures HostOk(next, k) && FailuresOk(next, k)
      {
        LockHosts(st, next, t, c, h, k);
      }
      LockHosts(st, next, t, c, h, h);
      forall u: nat | u < |st.threads| && u != t
        ensures ThreadOk(next, u) && !Clash(next.copies[c], next.threads[t], next.threads[u], c)
      {
        assert ThreadOk(st, u);
      }
      Others(st, next, t, c);
      Waiting(st, next);
    }
  }

  // A step on the copy's own fields passes its lock on between copy and thread.
  lemma Passes(st: State, next: State, t: nat, c: nat)
    requires Inv(st) && Changes(st, next, t, c) && next.hosts == st.hosts && next.lists == st.lists
    requires forall h, w :: Share(next, t, c, h, w) == Share(st, t, c, h, w)
    requires Apart(next)
    requires forall d: nat :: d < |next.copies| ==> CopyOk(next, d)
    requires forall u: nat :: u < |next.threads| ==> ThreadOk(next, u)
    ensures Inv(next)
  {
    forall k: nat | k < |st.hosts|
      ensures HostOk(next, k) && FailuresOk(next, k)
    {
      assert HostOk(st, k) && FailuresOk(st, k);
      SameShare(st, next, t, c, k);
    }
  }

  // A thread that is in the way of no other may write the copy.
  lemma AloneOnCopy(st: State, t: nat, u: nat, c: nat)
    requires Apart(st) && t < |st.threads| && u < |st.threads| && t != u && c < |st.copies|
    ensures !Clash(st.copies[c], st.threads[t], st.threads[u], c)
  {
    if u < t {
      assert !Clash(st.copies[c], st.threads[u], st.threads[t], c);
    }
  }

  lemma SetFlagKeeps(st: State, t: nat)
    requires Inv(st) && Enabled(st, SetFlag(t))
    ensures Inv(DoSetFlag(st, t))
  {
    var next, c := DoSetFlag(st, t), st.threads[t].c;
    assert ThreadOk(st, t) && CopyOk(st, c);
    forall u: nat | u < |st.threads| && u != t
      ensures ThreadOk(next, u) && !Clash(next.copies[c], next.threads[t], next.threads[u], c)
    {
      assert ThreadOk(st, u);
      AloneOnCopy(st, t, u, c);
    }
    Others(st, next, t, c);
    Passes(st, next, t, c);
  }

  lemma AttachKeeps(st: State, t: nat)
    requires Inv(st) && Enabled(st, Attach(t))
    ensures Inv(DoAttach(st, t))
  {
    var next, c := DoAttach(st, t), st.threads[t].c;
    assert ThreadOk(st, t) && CopyOk(st, c);
    forall u: nat | u < |st.threads| && u != t
      ensures ThreadOk(next, u) && !Clash(next.copies[c], next.threads[t], next.threads[u], c)
    {
      assert ThreadOk(st, u);
      AloneOnCopy(st, t, u, c);
    }
    Others(st, next, t, c);
    Passes(st, next, t, c);
  }

  lemma TestKeeps(st: State, t: nat, c: nat, errors: Option<nat>)
    requires Inv(st) && Enabled(st, Test(t, c, errors)) && Guarded(st, Test(t, c, errors))
    ensures Inv(DoTest(st, t, c, errors))
  {
    var next := DoTest(st, t, c, errors);
    if next != st {
      assert CopyOk(st, c);
      forall u: nat | u < |st.threads| && u != t
        ensures ThreadOk(next, u) && !Clash(next.copies[c], next.threads[t], next.threads[u], c)
      {
        assert ThreadOk(st, u);
      }
      Others(st, next, t, c);
      Passes(st, next, t, c);
    }
  }

  lemma ClearKeeps(st: State, t: nat)
    requires Inv(st) && Enabled(st, Clear(t))
    ensures Inv(DoClear(st, t))
  {
    var next, c := DoClear(st, t), st.threads[t].c;
    assert ThreadOk(st, t) && CopyOk(st, c);
    forall u: nat | u < |st.threads| && u != t
      ensures ThreadOk(next, u) && !Clash(next.copies[c], next.threads[t], next.threads[u], c)
    {
      assert ThreadOk(st, u);
      AloneOnCopy(st, t, u, c);
    }
    Others(st, next, t, c);
    Passes(st, next, t, c);
  }

  lemma DetachKeeps(st: State, t: nat)
    requires Inv(st) && Enabled(st, Detach(t))
    ensures Inv(DoDetach(st, t))
  {
    var next, c := DoDetach(st, t), st.threads[t].c;
    assert ThreadOk(st, t) && CopyOk(st, c);
    forall u: nat | u < |st.threads| && u != t
      ensures ThreadOk(next, u) && !Clash(next.copies[c], next.threads[t], next.threads[u], c)
    {
      assert ThreadOk(st, u);
      AloneOnCopy(st, t, u, c);
    }
    Others(st, next, t, c);
    Passes(st, next, t, c);
  }

  lemma RecordHosts(st: State, next: State, t: nat, k: nat)
    requires Enabled(st, Record(t)) && next == DoRecord(st, t) && ThreadOk(st, t)
    requires k < |st.hosts| && HostOk(st, k) && FailuresOk(st, k)
    ensures Changes(st, next, t, st.threads[t].c)
    ensures HostOk(next, k) && FailuresOk(next, k)
  {
    var h, l := st.threads[t].h, st.threads[t].errors.value;
    SameShare(st, next, t, st.threads[t].c, k);
    FailuresUpdate(st.lists, l, st.lists[l] + [h], k);
  }

  lemma RecordKeeps(st: State, t: nat)
    requires Inv(st) && Enabled(st, Record(t))
    ensures Inv(DoRecord(st, t))
  {
    hide HostOk, FailuresOk;
    var next, c := DoRecord(st, t), st.threads[t].c;
    assert ThreadOk(st, t) && CopyOk(st, c);
    forall k: nat | k < |st.hosts|
      ensures HostOk(next, k) && FailuresOk(next, k)
    {
      RecordHosts(st, next, t, k);
    }
    RecordHosts(st, next, t, st.threads[t].h);
    forall u: nat | u < |st.threads| && u != t
      ensures ThreadOk(next, u) && !Clash(next.copies[c], next.threads[t], next.threads[u], c)
    {
      assert ThreadOk(st, u);
      AloneOnCopy(st, t, u, c);
    }
    Others(st, next, t, c);
    Waiting(st, next);
  }

  lemma UnlockChanges(st: State, next: State, t: nat)
    requires Enabled(st, Unlock(t)) && next == DoUnlock(st, t) && ThreadOk(st, t)
    ensures var th := st.threads[t];
            && Changes(st, next, t, th.c) && next.lists == st.lists && next.threads[t] == Idle
            && next.hosts == st.hosts[th.h := UnlockDevice(st.hosts[th.h], th.c2h)]
            && next.copies[th.c] == st.copies[th.c].(unlocks := st.copies[th.c].unlocks + 1)
  {
  }

  lemma UnlockHosts(st: State, next: State, t: nat, k: nat)
    requires Enabled(st, Unlock(t)) && next == DoUnlock(st, t) && ThreadOk(st, t)
    requires k < |st.hosts| && HostOk(st, k) && FailuresOk(st, k)
    ensures HostOk(next, k) && FailuresOk(next, k)
  {
    hide Changes, DoUnlock, HostOk;
    var c, h := st.threads[t].c, st.threads[t].h;
    UnlockChanges(st, next, t);
    if k == h {
      UnlockedHost(st, next, t);
    } else {
      assert next.hosts[k] == st.hosts[k];
      SameHost(st, next, t, c, k);
    }
  }

  lemma SameHost(st: State, next: State, t: nat, c: nat, k: nat)
    requires Changes(st, next, t, c) && k < |st.hosts| && HostOk(st, k) && next.hosts[k] == st.hosts[k]
    requires forall w :: Share(next, t, c, k, w) == Share(st, t, c, k, w)
    ensures HostOk(next, k)
  {
    SameShare(st, next, t, c, k);
  }

  lemma UnlockedHost(st: State, next: State, t: nat)
    requires t < |st.threads| && st.threads[t].Owing? && ThreadOk(st, t)
    requires var th := st.threads[t];
             && Changes(st, next, t, th.c) && next.threads[t] == Idle
             && next.hosts[th.h] == UnlockDevice(st.hosts[th.h], th.c2h) && HostOk(st, th.h)
             && next.copies[th.c] == st.copies[th.c].(unlocks := st.copies[th.c].unlocks + 1)
    ensures HostOk(next, st.threads[t].h)
  {
    var th := st.threads[t];
    if !st.hosts[th.h].lockless {
      OneLess(st, next, t, th.c, th.h, th.c2h);
    }
  }

  lemma UnlockKeeps(st: State, t: nat)
    requires Inv(st) && Enabled(st, Unlock(t))
    ensures Inv(DoUnlock(st, t))
  {
    hide HostOk, FailuresOk;
    var next, c := DoUnlock(st, t), st.threads[t].c;
    assert ThreadOk(st, t) && CopyOk(st, c);
    forall k: nat | k < |st.hosts|
      ensures HostOk(next, k) && FailuresOk(next, k)
    {
      UnlockHosts(st, next, t, k);
    }
    UnlockChanges(st, next, t);
    forall u: nat | u < |st.threads| && u != t
      ensures ThreadOk(next, u) && !Clash(next.copies[c], next.threads[t], next.threads[u], c)
    {
      assert ThreadOk(st, u);
    }
    Others(st, next, t, c);
    Waiting(st, next);
  }

  // Steps that leave copies and threads alone.
  lemma HostsKeep(st: State, next: State)
    requires Inv(st) && Shape(next) && !next.crashed
    requires next.copies == st.copies && next.threads == st.threads
    requires |next.hosts| == |st.hosts| && |next.lists| >= |st.lists|
    requires forall h: nat :: h < |next.hosts| ==> HostOk(next, h) && FailuresOk(next, h)
    requires forall h: nat :: h < |next.hosts| && next.pending[h].Some? ==> next.hosts[h].cpuLocked == 0
    ensures Inv(next)
  {
    forall c: nat | c < |next.copies|
      ensures CopyOk(next, c)
    {
      assert CopyOk(st, c);
    }
    forall t: nat | t < |next.threads|
      ensures ThreadOk(next, t)
    {
      assert ThreadOk(st, t);
    }
    forall a: nat, b: nat, c: nat | a < b < |next.threads| && c < |next.copies|
      ensures !Clash(next.copies[c], next.threads[a], next.threads[b], c)
    {
      assert !Clash(st.copies[c], st.threads[a], st.threads[b], c);
    }
  }

  lemma CpuKeeps(st: State, next: State, h: nat)
    requires Inv(st) && h < |st.hosts| && Shape(next)
    requires next == st.(hosts := next.hosts, pending := next.pending)
    requires |next.hosts| == |st.hosts| && next.hosts == st.hosts[h := next.hosts[h]]
    requires next.hosts[h].failedOps == st.hosts[h].failedOps && HostOk(next, h)
    requires forall k: nat :: k < |next.hosts| && next.pending[k].Some? ==> next.hosts[k].cpuLocked == 0
    ensures Inv(next)
  {
    forall k: nat | k < |st.hosts|
      ensures HostOk(next, k) && FailuresOk(next, k)
    {
      assert HostOk(st, k) && FailuresOk(st, k);
    }
    HostsKeep(st, next);
  }

  lemma ListsKeep(st: State, next: State)
    requires Inv(st) && Shape(next) && !next.crashed
    requires next.copies == st.copies && next.threads == st.threads && next.pending == st.pending
    requires |next.hosts| == |st.hosts| && |next.lists| >= |st.lists|
    requires forall h: nat :: h < |st.hosts| ==>
      && next.hosts[h].(failedOps := 0) == st.hosts[h].(failedOps := 0)
      && FailuresOk(next, h)
    ensures Inv(next)
  {
    forall h: nat | h < |st.hosts|
      ensures HostOk(next, h)
    {
      assert HostOk(st, h);
    }
    Waiting(st, next);
    HostsKeep(st, next);
  }

  lemma CpuStepKeeps(st: State, e: Event)
    requires Inv(st) && Enabled(st, e) && (e.CpuCheck? || e.CpuAcquire? || e.CpuTimeout? || e.CpuUnlock?)
    ensures Inv(Next(st, e))
  {
    assert HostOk(st, e.h);
    CpuKeeps(st, Next(st, e), e.h);
  }

  lemma ListStepKeeps(st: State, e: Event)
    requires Inv(st) && Enabled(st, e) && (e.NewList? || e.ClearList?)
    ensures Inv(Next(st, e))
  {
    hide HostOk;
    var next := Next(st, e);
    forall h: nat | h < |st.hosts|
      ensures FailuresOk(next, h) && next.hosts[h].(failedOps := 0) == st.hosts[h].(failedOps := 0)
    {
      assert FailuresOk(st, h);
      ListFailures(st, e, h);
    }
    hide Inv, FailuresOk;
    ListsKeep(st, next);
  }

  lemma ListFailures(st: State, e: Event, h: nat)
    requires Enabled(st, e) && (e.NewList? || e.ClearList?) && h < |st.hosts| && FailuresOk(st, h)
    ensures FailuresOk(Next(st, e), h) && Next(st, e).hosts[h].(failedOps := 0) == st.hosts[h].(failedOps := 0)
  {
    if e.NewList? {
      assert (st.lists + [[]])[..|st.lists|] == st.lists;
    } else {
      FailuresUpdate(st.lists, e.list, [], h);
    }
  }

  /** Every guarded step keeps the ledger, the failure counts and the balance of
      locks, wherever other threads are in their operations. */
  lemma StepKeepsInv(st: State, e: Event)
    requires Inv(st) && Enabled(st, e) && Guarded(st, e)
    ensures Inv(Next(st, e))
  {
    hide Inv, Guarded;
    match e
    case Lock(t, c, h) => LockKeeps(st, t, c, h);
    case SetFlag(t) => SetFlagKeeps(st, t);
    case Attach(t) => AttachKeeps(st, t);
    case Test(t, c, errors) => TestKeeps(st, t, c, errors);
    case Clear(t) => ClearKeeps(st, t);
    case Record(t) => RecordKeeps(st, t);
    case Detach(t) => DetachKeeps(st, t);
    case Unlock(t) => UnlockKeeps(st, t);
    case NewList => ListStepKeeps(st, e);
    case ClearList(_) => ListStepKeeps(st, e);
    case _ => CpuStepKeeps(st, e);
  }

  // ----- Runs -----

  /** Each event of a possible run is guarded where it happens. */
  predicate Disciplined(st: State, es: seq<Event>)
    requires Possible(st, es)
    decreases |es|
  {
    es == [] || (Guarded(st, es[0]) && Disciplined(Next(st, es[0]), es[1..]))
  }

  lemma {:induction false} RunKeepsInv(st: State, es: seq<Event>)
    requires Inv(st) && Possible(st, es) && Disciplined(st, es)
    ensures Inv(Run(st, es))
    decreases |es|
  {
    hide Inv, Guarded, Enabled, Next;
    if es != [] {
      StepKeepsInv(st, es[0]);
      RunKeepsInv(Next(st, es[0]), es[1..]);
    }
  }

  /** Resources unlocked and without failures, nothing scheduled, no operation under
      way, one list. */
  ghost predicate Initial(st: State) {
    && Shape(st) && !st.crashed && st.lists == [[]]
    && (forall h: nat :: h < |st.hosts| ==>
          st.hosts[h].readers == 0 && st.hosts[h].cpuLocked == 0 && st.hosts[h].failedOps == 0 && st.pending[h] == None)
    && (forall t: nat :: t < |st.threads| ==> st.threads[t].Idle?)
    && (forall c: nat :: c < |st.copies| ==>
          && !st.copies[c].scheduled && st.copies[c].locks == 0 == st.copies[c].unlocks
          && (st.copies[c].host.Some? ==> st.copies[c].host.value < |st.hosts|)
          && (st.copies[c].isSubres ==> !st.copies[c].d2d && !st.copies[c].c2h && st.copies[c].host == None)
          && (!st.copies[c].d2d && !st.copies[c].isSubres ==> st.copies[c].host.Some?))
  }

  lemma InitialInv(st: State)
    requires Initial(st)
    ensures Inv(st)
  {
    forall h: nat | h < |st.hosts|
      ensures HostOk(st, h) && FailuresOk(st, h)
    {
      CountNone(st.copies, HoldsOn(h, true));
      CountNone(st.copies, HoldsOn(h, false));
      CountNone(st.threads, OwesOn(h, true));
      CountNone(st.threads, OwesOn(h, false));
      assert st.lists[..0] == [];
    }
    forall c: nat | c < |st.copies|
      ensures CopyOk(st, c)
    {
      CountNone(st.threads, OwesFor(c));
      CountNone(st.threads, AttachesFor(c));
      CountNone(st.threads, ReleasesFor(c));
    }
  }

  lemma {:induction false} FailuresPositive(lists: seq<seq<nat>>, h: nat)
    ensures Failures(lists, h) > 0 <==> exists l :: 0 <= l < |lists| && h in lists[l]
  {
    if lists != [] {
      var n := |lists| - 1;
      FailuresPositive(lists[..n], h);
      if l :| 0 <= l < n && h in lists[l] {
        assert h in lists[..n][l];
      }
      if Failures(lists[..n], h) > 0 {
        var l :| 0 <= l < n && h in lists[..n][l];
        assert h in lists[l];
      }
    }
  }

  /** Exclusion and conservation, in every state of every disciplined run. A
      resource that is not lockless shows -1 exactly when a writer holds it alone,
      and else the number of its readers, those included that a thread in the
      middle of an operation answers for; it is broken exactly while some list
      records a failed copy of it. Each copy has been granted as many locks as were
      given back, but for the one it is scheduled with and those that threads
      answer for. */
  lemma ReachableStates(from: State, es: seq<Event>, h: nat, c: nat)
    requires Initial(from) && Possible(from, es) && Disciplined(from, es)
    requires h < |Run(from, es).hosts| && c < |Run(from, es).copies|
    ensures var to := Run(from, es);
            var host := to.hosts[h];
            && !to.crashed
            && (!host.lockless ==>
                  && (host.readers == -1 <==> WriterCount(to, h) == 1)
                  && (host.readers == -1 ==> WriterCount(to, h) + ReaderCount(to, h) == 1)
                  && (host.readers != -1 ==> WriterCount(to, h) == 0 && host.readers == ReaderCount(to, h)))
            && host.failedOps == Failures(to.lists, h)
            && (host.Broken() <==> exists l :: 0 <= l < |to.lists| && h in to.lists[l])
    ensures var to := Run(from, es);
            var copy := to.copies[c];
            copy.locks == copy.unlocks + One(copy.scheduled) + Count(to.threads, OwesFor(c))
  {
    InitialInv(from);
    RunKeepsInv(from, es);
    var to := Run(from, es);
    assert HostOk(to, h) && FailuresOk(to, h) && CopyOk(to, c);
    FailuresPositive(to.lists, h);
  }

  /** While no operation is under way, the holders are the scheduled copies and the
      CPU, a copy owes exactly one unlock exactly while it is scheduled, and a
      subresource copy has a resource attached exactly then. */
  lemma QuietStates(st: State, h: nat, c: nat)
    requires Inv(st) && h < |st.hosts| && c < |st.copies|
    requires forall t :: 0 <= t < |st.threads| ==> st.threads[t].Idle?
    ensures Held(st, h, true) == Count(st.copies, HoldsOn(h, true))
    ensures Held(st, h, false) == Count(st.copies, HoldsOn(h, false))
    ensures st.copies[c].locks == st.copies[c].unlocks + One(st.copies[c].scheduled)
    ensures st.copies[c].isSubres ==> (st.copies[c].scheduled <==> st.copies[c].host.Some?)
  {
    CountNone(st.threads, AttachesFor(c));
    CountNone(st.threads, ReleasesFor(c));
    CountNone(st.threads, OwesOn(h, true));
    CountNone(st.threads, OwesOn(h, false));
    CountNone(st.threads, OwesFor(c));
    assert CopyOk(st, c);
  }

  // ----- Exactly when the ledger survives -----

  /** A step that carries an operation on that is already under way. */
  predicate Finishing(e: Event) {
    e.SetFlag? || e.Attach? || e.Clear? || e.Record? || e.Detach? || e.Unlock?
  }

  predicate AllFinishing(es: seq<Event>) {
    forall i :: 0 <= i < |es| ==> Finishing(es[i])
  }

  /** However the operations under way go on, the ledger holds. */
  ghost predicate StaysSound(st: State) {
    forall es: seq<Event> :: AllFinishing(es) && Possible(st, es) ==> LedgerHolds(Run(st, es))
  }

  lemma {:induction false} FinishingIsDisciplined(st: State, es: seq<Event>)
    requires Possible(st, es) && AllFinishing(es)
    ensures Disciplined(st, es)
    decreases |es|
  {
    if es != [] {
      assert Finishing(es[0]) && AllFinishing(es[1..]);
      FinishingIsDisciplined(Next(st, es[0]), es[1..]);
    }
  }

  lemma InvStaysSound(st: State)
    requires Inv(st)
    ensures StaysSound(st)
  {
    forall es: seq<Event> | AllFinishing(es) && Possible(st, es)
      ensures LedgerHolds(Run(st, es))
    {
      FinishingIsDisciplined(st, es);
      RunKeepsInv(st, es);
    }
  }

  lemma Breaks(st: State, es: seq<Event>)
    requires AllFinishing(es) && Possible(st, es) && !LedgerHolds(Run(st, es))
    ensures !StaysSound(st)
  {
  }

  lemma RunTwo(st: State, a: Event, b: Event)
    requires Enabled(st, a) && Enabled(Next(st, a), b)
    ensures Possible(st, [a, b]) && Run(st, [a, b]) == Next(Next(st, a), b)
    ensures Possible(st, [a]) && Run(st, [a]) == Next(st, a)
  {
    assert [a, b][1..] == [b] && [b][1..] == [] && [a][1..] == [];
    assert Run(Next(st, a), [b]) == Next(Next(st, a), b);
  }

  // The counts on `h` have moved and its counter has not.
  lemma OffBalance(st: State, next: State, h: nat)
    requires h < |st.hosts| == |next.hosts| && !st.hosts[h].lockless && HostOk(st, h)
    requires next.hosts[h].(failedOps := st.hosts[h].failedOps) == st.hosts[h]
    requires if Held(next, h, true) == Held(st, h, true) then Held(next, h, false) != Held(st, h, false)
             else Held(next, h, false) == Held(st, h, false)
    ensures !LedgerHolds(next)
  {
    assert !HostOk(next, h);
  }

  // Clearing the flag, set or not, makes the thread answer for the lock; setting
  // it, cleared or not, ends that.
  lemma ClearMoves(st: State, t: nat, c: nat, h: nat, x: bool)
    requires t < |st.threads| && st.threads[t].Tested? && st.threads[t].c == c < |st.copies| && !st.crashed
    requires !st.copies[c].d2d && HostOf(st, c) == Some(h)
    ensures Held(DoClear(st, t), h, x) ==
            Held(st, h, x) + One(x == st.copies[c].c2h) - One(x == st.copies[c].c2h && st.copies[c].scheduled)
  {
    HeldAfter(st, DoClear(st, t), t, c, h, x);
  }

  lemma FlagMoves(st: State, t: nat, c: nat, h: nat, x: bool)
    requires At(st, t, Locked) && st.threads[t].c == c && st.threads[t].h == h && !st.crashed
    requires !st.copies[c].isSubres && !st.copies[c].d2d && st.copies[c].host == Some(h)
    requires st.threads[t].c2h == st.copies[c].c2h
    ensures Held(DoSetFlag(st, t), h, x) == Held(st, h, x) - One(x == st.copies[c].c2h && st.copies[c].scheduled)
  {
    HeldAfter(st, DoSetFlag(st, t), t, c, h, x);
  }

  // Two threads past the test on one copy: both clear the flag, and then both
  // answer for the one lock.
  lemma TwoPastTest(st: State, t: nat, u: nat, c: nat)
    requires Shape(st) && !st.crashed && c < |st.copies| && t < |st.threads| && u < |st.threads| && t != u
    requires st.threads[t].Tested? && st.threads[t].c == c && st.threads[u].Tested? && st.threads[u].c == c
    requires st.copies[c].scheduled && !st.copies[c].d2d
    requires HostOf(st, c).Some? && !st.hosts[HostOf(st, c).value].lockless && HostOk(st, HostOf(st, c).value)
    ensures !StaysSound(st)
  {
    var h, w := HostOf(st, c).value, st.copies[c].c2h;
    var one := Next(st, Clear(t));
    var two := Next(one, Clear(u));
    forall x
      ensures Held(two, h, x) == Held(st, h, x) + One(x == w)
    {
      ClearMoves(st, t, c, h, x);
      ClearMoves(one, u, c, h, x);
    }
    hide Held, HostOk, LedgerHolds, StaysSound;
    assert Held(two, h, w) == Held(st, h, w) + 1 && Held(two, h, !w) == Held(st, h, !w);
    OffBalance(st, two, h);
    RunTwo(st, Clear(t), Clear(u));
    Breaks(st, [Clear(t), Clear(u)]);
  }

  // Past the test on a copy without its resource: the thread will use none.
  lemma NothingAttached(st: State, u: nat, c: nat)
    requires Shape(st) && !st.crashed && c < |st.copies| && u < |st.threads|
    requires st.threads[u].Tested? && st.threads[u].c == c && st.copies[c].isSubres && HostOf(st, c).None?
    requires st.threads[u].errors.Some? ==> st.threads[u].errors.value < |st.lists|
    ensures !StaysSound(st)
  {
    var one := Next(st, Clear(u));
    var e := if st.threads[u].errors.Some? then Record(u) else Detach(u);
    assert Enabled(one, e) && Next(one, e).crashed;
    RunTwo(st, Clear(u), e);
    Breaks(st, [Clear(u), e]);
  }

  lemma TestHost(st: State, u: nat, c: nat, errors: Option<nat>, h: nat)
    requires Enabled(st, Test(u, c, errors)) && h < |st.hosts| && HostOk(st, h)
    ensures HostOk(DoTest(st, u, c, errors), h)
  {
    if st.copies[c].scheduled {
      SameHost(st, DoTest(st, u, c, errors), u, c, h);
    }
  }

  /** A postSchedule that has found the flag of a copy set, its lock being a real
      one: however the threads go on the ledger holds, if and only if the resource
      is attached and no other postSchedule is past its test on that copy. */
  lemma TestIff(st: State, u: nat, c: nat, errors: Option<nat>)
    requires Inv(st) && Enabled(st, Test(u, c, errors)) && st.copies[c].scheduled
    requires st.copies[c].host.Some? && st.copies[c].host.value < |st.hosts| ==> !st.hosts[st.copies[c].host.value].lockless
    ensures StaysSound(Next(st, Test(u, c, errors))) <==>
      && st.copies[c].host.Some?
      && forall t :: 0 <= t < |st.threads| ==> !(st.threads[t].Tested? && st.threads[t].c == c)
  {
    var next := Next(st, Test(u, c, errors));
    assert CopyOk(st, c);
    if Guarded(st, Test(u, c, errors)) {
      TestKeeps(st, u, c, errors);
      InvStaysSound(next);
    } else if st.copies[c].host.None? {
      NothingAttached(next, u, c);
    } else {
      var t :| 0 <= t < |st.threads| && st.threads[t].Tested? && st.threads[t].c == c;
      var h := st.copies[c].host.value;
      assert HostOk(st, h);
      TestHost(st, u, c, errors, h);
      hide HostOk, StaysSound, Held;
      TwoPastTest(next, t, u, c);
    }
  }

  // ----- A second lock -----

  /** Thread `t` has a lock for a subresource copy, and its flag and resource still
      to set. */
  predicate Attachable(st: State, t: nat, c: nat) {
    && Shape(st) && !st.crashed && At(st, t, Locked) && st.threads[t].c == c
    && st.copies[c].isSubres && !st.copies[c].d2d && st.threads[t].c2h == st.copies[c].c2h
    && st.threads[t].h < |st.hosts|
  }

  function AttachedBy(st: State, t: nat, c: nat): State
    requires Attachable(st, t, c)
  {
    DoAttach(DoSetFlag(st, t), t)
  }

  // The copy holds the thread's lock then; one that it was marked to hold is lost.
  lemma AttachMoves(st: State, t: nat, c: nat, k: nat, x: bool)
    requires Attachable(st, t, c)
    ensures Held(AttachedBy(st, t, c), k, x) == Held(st, k, x) - One(HoldsOn(k, x)(st.copies[c]))
  {
    var one := DoSetFlag(st, t);
    HeldAfter(st, one, t, c, k, x);
    HeldAfter(one, DoAttach(one, t), t, c, k, x);
  }

  lemma AttachRuns(st: State, t: nat, c: nat)
    requires Attachable(st, t, c)
    ensures Possible(st, [SetFlag(t), Attach(t)]) && Run(st, [SetFlag(t), Attach(t)]) == AttachedBy(st, t, c)
    ensures var next := AttachedBy(st, t, c);
            && next == st.(copies := st.copies[c := st.copies[c].(scheduled := true, host := Some(st.threads[t].h))],
                           threads := st.threads[t := Idle])
  {
    assert st.threads[t := st.threads[t].(stage := Attaching)][t := Idle] == st.threads[t := Idle];
    RunTwo(st, SetFlag(t), Attach(t));
  }

  // A copy that has a resource attached: its lock there is lost.
  lemma LostToSecond(st: State, t: nat, c: nat, g: nat)
    requires Attachable(st, t, c) && st.copies[c].scheduled && st.copies[c].host == Some(g)
    requires g < |st.hosts| && HostOk(st, g) && !st.hosts[g].lockless
    ensures !StaysSound(st)
  {
    var w := st.copies[c].c2h;
    AttachMoves(st, t, c, g, w);
    AttachMoves(st, t, c, g, !w);
    AttachRuns(st, t, c);
    hide Held, HostOk, LedgerHolds, StaysSound;
    OffBalance(st, AttachedBy(st, t, c), g);
    Breaks(st, [SetFlag(t), Attach(t)]);
  }

  /** After these steps one lock on `k` has nobody to answer for it. */
  ghost predicate LosesOne(st: State, es: seq<Event>, k: nat, writer: bool) {
    && k < |st.hosts| && AllFinishing(es) && Possible(st, es)
    && var end := Run(st, es);
       && |end.hosts| == |st.hosts| && end.hosts[k].(failedOps := st.hosts[k].failedOps) == st.hosts[k]
       && Held(end, k, writer) == Held(st, k, writer) - 1 && Held(end, k, !writer) == Held(st, k, !writer)
  }

  // Once `t` has attached the copy, others lose a lock that it had no part in.
  lemma LostAfterAttach(st: State, t: nat, c: nat, k: nat, es: seq<Event>)
    requires Attachable(st, t, c) && k < |st.hosts| && HostOk(st, k) && !st.hosts[k].lockless
    requires forall x :: !HoldsOn(k, x)(st.copies[c])
    requires LosesOne(AttachedBy(st, t, c), es, k, st.copies[c].c2h)
    ensures !StaysSound(st)
  {
    var mid, w := AttachedBy(st, t, c), st.copies[c].c2h;
    AttachMoves(st, t, c, k, w);
    AttachMoves(st, t, c, k, !w);
    AttachRuns(st, t, c);
    hide Held, HostOk, LedgerHolds, StaysSound, HoldsOn, AttachedBy;
    RunConcat(st, [SetFlag(t), Attach(t)], es);
    OffBalance(st, Run(mid, es), k);
    Breaks(st, [SetFlag(t), Attach(t)] + es);
  }

  // A copy that another thread is about to attach: that one takes it from `t`.
  lemma LostToFirst(st: State, t: nat, u: nat, c: nat)
    requires Attachable(st, t, c) && st.copies[c].host == None
    requires (At(st, u, Locked) || At(st, u, Attaching)) && u != t && st.threads[u].c == c
    requires st.threads[u].c2h == st.copies[c].c2h && st.threads[u].h < |st.hosts|
    requires var h := st.threads[t].h; HostOk(st, h) && !st.hosts[h].lockless
    ensures !StaysSound(st)
  {
    AttachRuns(st, t, c);
    var es := if At(st, u, Locked) then [SetFlag(u), Attach(u)] else [Attach(u)];
    FirstTakes(AttachedBy(st, t, c), u, c, st.threads[t].h, es);
    hide Held, HostOk, StaysSound, AttachedBy, LosesOne;
    LostAfterAttach(st, t, c, st.threads[t].h, es);
  }

  lemma FirstTakes(st: State, u: nat, c: nat, h: nat, es: seq<Event>)
    requires Shape(st) && !st.crashed && (At(st, u, Locked) || At(st, u, Attaching)) && st.threads[u].c == c
    requires st.copies[c].isSubres && !st.copies[c].d2d && st.copies[c].scheduled && st.copies[c].host == Some(h)
    requires st.threads[u].c2h == st.copies[c].c2h && st.threads[u].h < |st.hosts| && h < |st.hosts|
    requires es == if At(st, u, Locked) then [SetFlag(u), Attach(u)] else [Attach(u)]
    ensures LosesOne(st, es, h, st.copies[c].c2h)
  {
    var w := st.copies[c].c2h;
    if At(st, u, Locked) {
      AttachMoves(st, u, c, h, w);
      AttachMoves(st, u, c, h, !w);
      AttachRuns(st, u, c);
    } else {
      var end := DoAttach(st, u);
      HeldAfter(st, end, u, c, h, w);
      HeldAfter(st, end, u, c, h, !w);
      RunOne(st, Attach(u));
    }
  }

  lemma RunOne(st: State, e: Event)
    requires Enabled(st, e)
    ensures Possible(st, [e]) && Run(st, [e]) == Next(st, e)
  {
    assert [e][1..] == [];
  }

  // The thread gives up the resource it finds attached, in place of its own.
  lemma DetachMoves(st: State, u: nat, c: nat, g: nat, h: nat, x: bool)
    requires At(st, u, Releasing) && st.threads[u].c == c && st.threads[u].h == g && st.threads[u].c2h == st.copies[c].c2h
    requires st.copies[c].isSubres && !st.copies[c].d2d && st.copies[c].scheduled
    requires st.copies[c].host == Some(h) && h < |st.hosts| && !st.crashed
    ensures Held(DoDetach(st, u), g, x) == Held(st, g, x) - One(x == st.copies[c].c2h)
    ensures DoDetach(st, u).hosts == st.hosts
  {
    HeldAfter(st, DoDetach(st, u), u, c, g, x);
  }

  // A copy that a postSchedule has not yet detached from `g`: that detaches it from
  // the new resource, and nobody answers for the lock on `g`.
  lemma LostToRelease(st: State, t: nat, u: nat, c: nat, g: nat)
    requires Attachable(st, t, c) && u < |st.threads| && u != t && ReleasesFor(c)(st.threads[u]) && ThreadOk(st, u)
    requires !st.copies[c].scheduled && st.copies[c].host == Some(g) && g < |st.hosts|
    requires st.threads[u].h == g
    requires HostOk(st, g) && !st.hosts[g].lockless
    ensures !StaysSound(st)
  {
    AttachRuns(st, t, c);
    var es := if st.threads[u].stage == Releasing then [Detach(u)] else [Record(u), Detach(u)];
    ReleaseTakes(AttachedBy(st, t, c), u, c, g, st.threads[t].h, es);
    hide Held, HostOk, StaysSound, AttachedBy, LosesOne;
    LostAfterAttach(st, t, c, g, es);
  }

  lemma ReleaseTakes(st: State, u: nat, c: nat, g: nat, h: nat, es: seq<Event>)
    requires Shape(st) && !st.crashed && u < |st.threads| && c < |st.copies| && g < |st.hosts| && h < |st.hosts|
    requires ReleasesFor(c)(st.threads[u]) && st.threads[u].h == g && st.threads[u].c2h == st.copies[c].c2h
    requires st.threads[u].stage == Cleared ==> st.threads[u].errors.Some? && st.threads[u].errors.value < |st.lists|
    requires st.copies[c].isSubres && !st.copies[c].d2d && st.copies[c].scheduled && st.copies[c].host == Some(h)
    requires es == if st.threads[u].stage == Releasing then [Detach(u)] else [Record(u), Detach(u)]
    ensures LosesOne(st, es, g, st.copies[c].c2h)
  {
    if st.threads[u].stage == Releasing {
      DetachTakes(st, u, c, g, h);
    } else {
      var on := DoRecord(st, u);
      RecordMoves(st, u, c, g, h);
      DetachTakes(on, u, c, g, h);
      assert Enabled(st, Record(u));
      hide Held, Enabled, Next, DoRecord;
      assert Possible(on, [Detach(u)]);
      Cons(st, Record(u), [Detach(u)]);
      assert [Record(u)] + [Detach(u)] == [Record(u), Detach(u)];
    }
  }

  lemma DetachTakes(st: State, u: nat, c: nat, g: nat, h: nat)
    requires Shape(st) && !st.crashed && At(st, u, Releasing) && st.threads[u].c == c && g < |st.hosts| && h < |st.hosts|
    requires st.threads[u].h == g && st.threads[u].c2h == st.copies[c].c2h
    requires st.copies[c].isSubres && !st.copies[c].d2d && st.copies[c].scheduled && st.copies[c].host == Some(h)
    ensures LosesOne(st, [Detach(u)], g, st.copies[c].c2h)
  {
    DetachMoves(st, u, c, g, h, st.copies[c].c2h);
    DetachMoves(st, u, c, g, h, !st.copies[c].c2h);
    RunOne(st, Detach(u));
  }

  lemma RecordMoves(st: State, u: nat, c: nat, g: nat, h: nat)
    requires Enabled(st, Record(u)) && st.threads[u].c == c && st.copies[c].host == Some(h) && h < |st.hosts| && g < |st.hosts|
    ensures var next := DoRecord(st, u);
            && next == Next(st, Record(u)) && Shape(next) && !next.crashed && next.copies == st.copies
            && next.threads == st.threads[u := st.threads[u].(stage := Releasing)] && |next.hosts| == |st.hosts|
            && next.hosts[g].(failedOps := st.hosts[g].failedOps) == st.hosts[g]
            && forall x :: Held(next, g, x) == Held(st, g, x)
  {
    forall x
      ensures Held(DoRecord(st, u), g, x) == Held(st, g, x)
    {
      HeldAfter(st, DoRecord(st, u), u, c, g, x);
    }
  }

  /** A granted lock, the resources being ones with locks: however the threads go on
      the ledger holds, if and only if the copy was not scheduled, no operation on it
      had its flag still to write, and a subresource copy had no resource attached. */
  lemma LockIff(st: State, t: nat, c: nat, h: nat)
    requires Inv(st) && Enabled(st, Lock(t, c, h)) && !st.hosts[h].lockless
    requires st.copies[c].host.Some? && st.copies[c].host.value < |st.hosts| ==> !st.hosts[st.copies[c].host.value].lockless
    requires LockDevice(st.hosts[h], st.copies[c].c2h).0
    ensures StaysSound(Next(st, Lock(t, c, h))) <==>
      && !st.copies[c].scheduled
      && (forall u :: 0 <= u < |st.threads| ==> !Front(st.threads[u], c))
      && (st.copies[c].isSubres ==> st.copies[c].host == None)
  {
    assert CopyOk(st, c) && HostOk(st, h);
    if Guarded(st, Lock(t, c, h)) {
      LockKeeps(st, t, c, h);
      InvStaysSound(Next(st, Lock(t, c, h)));
    } else if st.copies[c].isSubres {
      if st.copies[c].host == None {
        TouchesFind(st, c);
      }
      SubresLocked(st, t, c, h);
    } else {
      HostLocked(st, t, c, h);
    }
  }

  // Without a resource attached nothing but an operation that has its flag still to
  // write can be under way on a subresource copy.
  lemma TouchesFind(st: State, c: nat)
    requires Inv(st) && c < |st.copies| && st.copies[c].isSubres && st.copies[c].host == None
    ensures forall u :: 0 <= u < |st.threads| && Touches(st.threads[u], c) ==> Front(st.threads[u], c)
  {
    forall u: nat | u < |st.threads| && Touches(st.threads[u], c)
      ensures Front(st.threads[u], c)
    {
      assert ThreadOk(st, u);
    }
  }

  lemma HostLocked(st: State, t: nat, c: nat, h: nat)
    requires Inv(st) && Enabled(st, Lock(t, c, h)) && !Guarded(st, Lock(t, c, h)) && !st.copies[c].isSubres
    requires !st.hosts[h].lockless && LockDevice(st.hosts[h], st.copies[c].c2h).0
    ensures !StaysSound(Next(st, Lock(t, c, h)))
  {
    var next := Next(st, Lock(t, c, h));
    assert CopyOk(st, c) && HostOk(st, h);
    LockHosts(st, next, t, c, h, h);
    var u: nat := t;
    if !st.copies[c].scheduled {
      u :| u < |st.threads| && Front(st.threads[u], c);
      assert ThreadOk(st, u);
    }
    FlagTwice(next, t, u, c, h);
  }

  lemma SubresLocked(st: State, t: nat, c: nat, h: nat)
    requires Inv(st) && Enabled(st, Lock(t, c, h)) && st.copies[c].isSubres && !st.hosts[h].lockless
    requires st.copies[c].host.Some? && st.copies[c].host.value < |st.hosts| ==> !st.hosts[st.copies[c].host.value].lockless
    requires LockDevice(st.hosts[h], st.copies[c].c2h).0
    requires st.copies[c].scheduled || st.copies[c].host != None || exists u :: 0 <= u < |st.threads| && Front(st.threads[u], c)
    ensures !StaysSound(Next(st, Lock(t, c, h)))
  {
    var next := Next(st, Lock(t, c, h));
    assert CopyOk(st, c) && HostOk(st, h);
    LockHosts(st, next, t, c, h, h);
    assert Attachable(next, t, c);
    CountPositive(st.threads, AttachesFor(c));
    CountPositive(st.threads, ReleasesFor(c));
    hide StaysSound, Held, HostOk, Inv;
    if st.copies[c].host.Some? {
      var g := st.copies[c].host.value;
      AttachedLocked(st, next, t, c, h, g);
    } else {
      var u: nat :| u < |st.threads| && Front(st.threads[u], c);
      FrontLocked(st, next, t, c, h, u);
    }
  }

  lemma AttachedLocked(st: State, next: State, t: nat, c: nat, h: nat, g: nat)
    requires Inv(st) && Enabled(st, Lock(t, c, h)) && next == Next(st, Lock(t, c, h)) && Attachable(next, t, c)
    requires st.copies[c].isSubres && st.copies[c].host == Some(g) && (g < |st.hosts| ==> !st.hosts[g].lockless)
    ensures !StaysSound(next)
  {
    hide StaysSound, Held, HostOk, FailuresOk, ThreadOk, AttachedOk;
    assert CopyOk(st, c) && HostOk(st, g) && FailuresOk(st, g);
    LockHosts(st, next, t, c, h, g);
    hide Inv;
    if st.copies[c].scheduled {
      LostToSecond(next, t, c, g);
    } else {
      var u := Releaser(st, c, g);
      ThreadStays(st, next, t, c, h, u);
      LostToRelease(next, t, u, c, g);
    }
  }

  // A copy that is attached but not scheduled has a postSchedule to detach it.
  lemma Releaser(st: State, c: nat, g: nat) returns (u: nat)
    requires Inv(st) && c < |st.copies| && st.copies[c].isSubres && !st.copies[c].scheduled && st.copies[c].host == Some(g)
    ensures u < |st.threads| && ReleasesFor(c)(st.threads[u]) && st.threads[u].h == g && ThreadOk(st, u)
  {
    assert CopyOk(st, c);
    CountPositive(st.threads, ReleasesFor(c));
    u :| u < |st.threads| && ReleasesFor(c)(st.threads[u]);
    assert ThreadOk(st, u);
  }

  lemma ThreadStays(st: State, next: State, t: nat, c: nat, h: nat, u: nat)
    requires Enabled(st, Lock(t, c, h)) && next == DoLock(st, t, c, h) && u < |st.threads| && ThreadOk(st, u) && !st.threads[u].Idle?
    ensures u != t && next.threads[u] == st.threads[u] && ThreadOk(next, u)
  {
  }

  lemma FrontLocked(st: State, next: State, t: nat, c: nat, h: nat, u: nat)
    requires Inv(st) && Enabled(st, Lock(t, c, h)) && next == Next(st, Lock(t, c, h)) && Attachable(next, t, c)
    requires st.copies[c].isSubres && st.copies[c].host == None && u < |st.threads| && Front(st.threads[u], c)
    requires next.threads[t].h == h && !st.hosts[h].lockless && HostOk(next, h)
    ensures !StaysSound(next)
  {
    assert ThreadOk(st, u);
    LostToFirst(next, t, u, c);
  }

  // Setting the flag of a copy that is scheduled, or will be by thread `u`.
  lemma FlagTwice(st: State, t: nat, u: nat, c: nat, h: nat)
    requires Shape(st) && !st.crashed && c < |st.copies| && h < |st.hosts| && At(st, t, Locked) && At(st, u, Locked)
    requires st.threads[t].c == c && st.threads[t].h == h && st.threads[t].c2h == st.copies[c].c2h
    requires st.threads[u].c == c && st.threads[u].h == h && st.threads[u].c2h == st.copies[c].c2h
    requires u == t ==> st.copies[c].scheduled
    requires !st.copies[c].isSubres && !st.copies[c].d2d && st.copies[c].host == Some(h)
    requires !st.hosts[h].lockless && HostOk(st, h)
    ensures !StaysSound(st)
  {
    var w := st.copies[c].c2h;
    var one := Next(st, SetFlag(u));
    hide Held, HostOk, LedgerHolds, StaysSound;
    FlagMoves(st, u, c, h, w);
    FlagMoves(st, u, c, h, !w);
    if st.copies[c].scheduled {
      OffBalance(st, one, h);
      RunTwo(st, SetFlag(u), CpuTimeout(h));
      Breaks(st, [SetFlag(u)]);
    } else {
      var two := Next(one, SetFlag(t));
      FlagMoves(one, t, c, h, w);
      FlagMoves(one, t, c, h, !w);
      OffBalance(st, two, h);
      RunTwo(st, SetFlag(u), SetFlag(t));
      Breaks(st, [SetFlag(u), SetFlag(t)]);
    }
  }

  /** Two CPU lock attempts that both passed the check made outside the mutex:
      completing the second keeps the ledger exactly when the lock of the first is
      not (or no longer) held, or no lock is taken at all. */
  lemma SecondCpuLockKeepsIff(st: State, h: nat, forWrite: bool, syncOk: bool)
    requires Inv(st) && h < |st.hosts| && !st.hosts[h].lockless && st.pending[h] == None
    requires CpuGuard(st.hosts[h], forWrite)
    ensures var next := st.(hosts := st.hosts[h := TakeCpu(st.hosts[h], forWrite, syncOk).1]);
            LedgerHolds(next) <==> st.hosts[h].cpuLocked == 0 || st.hosts[h].Broken() || !syncOk
  {
    var next := st.(hosts := st.hosts[h := TakeCpu(st.hosts[h], forWrite, syncOk).1]);
    assert HostOk(st, h);
    if st.hosts[h].Broken() || !syncOk {
      assert next.hosts == st.hosts;
    } else if st.hosts[h].cpuLocked == 0 {
      CpuKeeps(st, next, h);
    } else {
      assert !HostOk(next, h);
    }
  }

  // ----- Two undisciplined runs -----

  lemma Cons(st: State, e: Event, es: seq<Event>)
    requires Enabled(st, e) && Possible(Next(st, e), es)
    ensures Possible(st, [e] + es) && Run(st, [e] + es) == Run(Next(st, e), es)
  {
    assert ([e] + es)[1..] == es;
  }

  lemma {:induction false} RunConcat(st: State, a: seq<Event>, b: seq<Event>)
    requires Possible(st, a) && Possible(Run(st, a), b)
    ensures Possible(st, a + b) && Run(st, a + b) == Run(Run(st, a), b)
    decreases |a|
  {
    if a == [] {
      assert a + b == b;
    } else {
      assert (a + b)[1..] == a[1..] + b;
      RunConcat(Next(st, a[0]), a[1..], b);
    }
  }

  predicate Leads(st: State, e: Event, to: State) {
    Enabled(st, e) && Next(st, e) == to
  }

  lemma RunThree(st: State, a: Event, one: State, b: Event, two: State, c: Event, three: State)
    requires Leads(st, a, one) && Leads(one, b, two) && Leads(two, c, three)
    ensures Possible(st, [a, b, c]) && Run(st, [a, b, c]) == three
  {
    hide Next, Enabled;
    RunTwo(one, b, c);
    Cons(st, a, [b, c]);
    assert [a] + [b, c] == [a, b, c];
  }

  /** One resource, one host-to-card copy of it, two threads. */
  function OneCopy(readers: int, failed: seq<nat>, copy: Copy, a: Thread, b: Thread): State {
    State([HostState(false, readers, 0, |failed|)], [None], [copy], [failed], [a, b], false)
  }

  function RaceCopy(scheduled: bool, locks: nat, unlocks: nat): Copy {
    Copy(false, false, false, Some(0), scheduled, locks, unlocks)
  }

  const BEFORE_RACE: State := OneCopy(0, [], RaceCopy(false, 0, 0), Idle, Idle)
  const AFTER_RACE: State := OneCopy(-1, [0], RaceCopy(false, 1, 2), Idle, Idle)
  const SCHEDULE_FAILS: seq<Event> := [Lock(0, 0, 0), SetFlag(0), Test(0, 0, None)]
  const BOTH_CLEAR: seq<Event> := [Test(1, 0, Some(0)), Clear(0), Clear(1)]
  const BOTH_UNLOCK: seq<Event> := [Unlock(0), Record(1), Unlock(1)]

  lemma ScheduleFails()
    ensures Possible(BEFORE_RACE, SCHEDULE_FAILS)
    ensures Run(BEFORE_RACE, SCHEDULE_FAILS) == OneCopy(1, [], RaceCopy(true, 1, 0), Tested(0, None), Idle)
  {
    var one := OneCopy(1, [], RaceCopy(false, 1, 0), Owing(Locked, 0, 0, false, None), Idle);
    var two := OneCopy(1, [], RaceCopy(true, 1, 0), Idle, Idle);
    var three := OneCopy(1, [], RaceCopy(true, 1, 0), Tested(0, None), Idle);
    assert Leads(BEFORE_RACE, Lock(0, 0, 0), one);
    assert Leads(one, SetFlag(0), two);
    assert Leads(two, Test(0, 0, None), three);
    hide *;
    RunThree(BEFORE_RACE, Lock(0, 0, 0), one, SetFlag(0), two, Test(0, 0, None), three);
  }

  lemma BothClear()
    ensures var st := OneCopy(1, [], RaceCopy(true, 1, 0), Tested(0, None), Idle);
            && Possible(st, BOTH_CLEAR)
            && Run(st, BOTH_CLEAR) ==
               OneCopy(1, [], RaceCopy(false, 1, 0), Owing(Releasing, 0, 0, false, None), Owing(Cleared, 0, 0, false, Some(0)))
  {
    var st := OneCopy(1, [], RaceCopy(true, 1, 0), Tested(0, None), Idle);
    var one := OneCopy(1, [], RaceCopy(true, 1, 0), Tested(0, None), Tested(0, Some(0)));
    var two := OneCopy(1, [], RaceCopy(false, 1, 0), Owing(Releasing, 0, 0, false, None), Tested(0, Some(0)));
    var three := OneCopy(1, [], RaceCopy(false, 1, 0), Owing(Releasing, 0, 0, false, None), Owing(Cleared, 0, 0, false, Some(0)));
    assert Leads(st, Test(1, 0, Some(0)), one);
    assert Leads(one, Clear(0), two);
    assert Leads(two, Clear(1), three);
    hide *;
    RunThree(st, Test(1, 0, Some(0)), one, Clear(0), two, Clear(1), three);
  }

  lemma BothUnlock()
    ensures var st := OneCopy(1, [], RaceCopy(false, 1, 0), Owing(Releasing, 0, 0, false, None), Owing(Cleared, 0, 0, false, Some(0)));
            Possible(st, BOTH_UNLOCK) && Run(st, BOTH_UNLOCK) == AFTER_RACE
  {
    var st := OneCopy(1, [], RaceCopy(false, 1, 0), Owing(Releasing, 0, 0, false, None), Owing(Cleared, 0, 0, false, Some(0)));
    var one := OneCopy(0, [], RaceCopy(false, 1, 1), Idle, Owing(Cleared, 0, 0, false, Some(0)));
    var two := OneCopy(0, [0], RaceCopy(false, 1, 1), Idle, Owing(Releasing, 0, 0, false, Some(0)));
    assert Leads(st, Unlock(0), one);
    assert one.lists[0] + [0] == [0];
    assert Leads(one, Record(1), two);
    assert Leads(two, Unlock(1), AFTER_RACE);
    hide *;
    RunThree(st, Unlock(0), one, Record(1), two, Unlock(1), AFTER_RACE);
  }

  /** A schedule that fails to send and rolls back, while the handler thread fails
      all copies: both are past the test when the first clears the flag, both unlock,
      and the resource shows a writer that nobody is. */
  lemma RollbackMeetsFailAll()
    ensures Initial(BEFORE_RACE)
    ensures Possible(BEFORE_RACE, SCHEDULE_FAILS + (BOTH_CLEAR + BOTH_UNLOCK))
    ensures Run(BEFORE_RACE, SCHEDULE_FAILS + (BOTH_CLEAR + BOTH_UNLOCK)) == AFTER_RACE
    ensures Quiet(AFTER_RACE) && !AFTER_RACE.copies[0].scheduled
    ensures AFTER_RACE.hosts[0].readers == -1 && WriterCount(AFTER_RACE, 0) == 0
  {
    CountNone(AFTER_RACE.copies, HoldsOn(0, true));
    CountNone(AFTER_RACE.threads, OwesOn(0, true));
    JoinRace();
  }

  lemma JoinRace()
    ensures Possible(BEFORE_RACE, SCHEDULE_FAILS + (BOTH_CLEAR + BOTH_UNLOCK))
    ensures Run(BEFORE_RACE, SCHEDULE_FAILS + (BOTH_CLEAR + BOTH_UNLOCK)) == AFTER_RACE
  {
    hide *;
    ScheduleFails();
    BothClear();
    BothUnlock();
    RunConcat(Run(BEFORE_RACE, SCHEDULE_FAILS), BOTH_CLEAR, BOTH_UNLOCK);
    RunConcat(BEFORE_RACE, SCHEDULE_FAILS, BOTH_CLEAR + BOTH_UNLOCK);
  }

  const BEFORE_CRASH: State := OneCopy(0, [], Copy(false, false, true, None, false, 0, 0), Idle, Idle)
  const CRASH: seq<Event> := [Lock(0, 0, 0), SetFlag(0), Test(1, 0, Some(0))] + [Clear(1), Record(1)]

  /** A subresource copy failed by the handler thread after its flag is set, and
      before its resource is attached: the handler uses a resource that is not
      there. */
  lemma FailAllBeforeAttach()
    ensures Initial(BEFORE_CRASH) && Possible(BEFORE_CRASH, CRASH) && Run(BEFORE_CRASH, CRASH).crashed
  {
    var subres := Copy(false, false, true, None, true, 1, 0);
    var three := OneCopy(1, [], subres, Owing(Attaching, 0, 0, false, None), Tested(0, Some(0)));
    CrashStart(three);
    CrashSteps(three, OneCopy(1, [], subres.(scheduled := false), Owing(Attaching, 0, 0, false, None),
                              Owing(Cleared, 0, 0, false, Some(0))));
    JoinCrash(three);
  }

  lemma JoinCrash(three: State)
    requires Possible(BEFORE_CRASH, [Lock(0, 0, 0), SetFlag(0), Test(1, 0, Some(0))])
    requires Run(BEFORE_CRASH, [Lock(0, 0, 0), SetFlag(0), Test(1, 0, Some(0))]) == three
    requires Possible(three, [Clear(1), Record(1)]) && Run(three, [Clear(1), Record(1)]).crashed
    ensures Possible(BEFORE_CRASH, CRASH) && Run(BEFORE_CRASH, CRASH).crashed
  {
    assert CRASH == [Lock(0, 0, 0), SetFlag(0), Test(1, 0, Some(0))] + [Clear(1), Record(1)];
    hide *;
    RunConcat(BEFORE_CRASH, [Lock(0, 0, 0), SetFlag(0), Test(1, 0, Some(0))], [Clear(1), Record(1)]);
  }

  lemma CrashStart(three: State)
    requires three == OneCopy(1, [], Copy(false, false, true, None, true, 1, 0),
                              Owing(Attaching, 0, 0, false, None), Tested(0, Some(0)))
    ensures Possible(BEFORE_CRASH, [Lock(0, 0, 0), SetFlag(0), Test(1, 0, Some(0))])
    ensures Run(BEFORE_CRASH, [Lock(0, 0, 0), SetFlag(0), Test(1, 0, Some(0))]) == three
  {
    var one := OneCopy(1, [], Copy(false, false, true, None, false, 1, 0), Owing(Locked, 0, 0, false, None), Idle);
    var two := OneCopy(1, [], Copy(false, false, true, None, true, 1, 0), Owing(Attaching, 0, 0, false, None), Idle);
    assert Leads(BEFORE_CRASH, Lock(0, 0, 0), one);
    assert Leads(one, SetFlag(0), two);
    assert Leads(two, Test(1, 0, Some(0)), three);
    hide *;
    RunThree(BEFORE_CRASH, Lock(0, 0, 0), one, SetFlag(0), two, Test(1, 0, Some(0)), three);
  }

  lemma CrashSteps(three: State, four: State)
    requires three == OneCopy(1, [], Copy(false, false, true, None, true, 1, 0),
                              Owing(Attaching, 0, 0, false, None), Tested(0, Some(0)))
    requires four == OneCopy(1, [], Copy(false, false, true, None, false, 1, 0),
                             Owing(Attaching, 0, 0, false, None), Owing(Cleared, 0, 0, false, Some(0)))
    ensures Possible(three, [Clear(1), Record(1)]) && Run(three, [Clear(1), Record(1)]).crashed
  {
    assert Leads(three, Clear(1), four);
    assert Leads(four, Record(1), four.(crashed := true));
    hide *;
    RunTwo(three, Clear(1), Record(1));
  }

  /** Two resources, one subresource copy, two threads. */
  function TwoHosts(readers0: int, readers1: int, host: Option<nat>, scheduled: bool, locks: nat, unlocks: nat, a: Thread, b: Thread): State {
    State([HostState(false, readers0, 0, 0), HostState(false, readers1, 0, 0)], [None, None],
          [Copy(false, false, true, host, scheduled, locks, unlocks)], [[]], [a, b], false)
  }

  const BEFORE_LOSS: State := TwoHosts(0, 0, None, false, 0, 0, Idle, Idle)
  const AFTER_LOSS: State := TwoHosts(1, 0, None, true, 2, 1, Idle, Idle)
  const SCHEDULED_ONCE: seq<Event> := [Lock(1, 0, 0), SetFlag(1), Attach(1)]
  const SCHEDULED_AGAIN: seq<Event> := [Lock(0, 0, 1), SetFlag(0), Attach(0)]

  lemma ScheduledOnce()
    ensures Possible(BEFORE_LOSS, SCHEDULED_ONCE)
    ensures Run(BEFORE_LOSS, SCHEDULED_ONCE) == TwoHosts(1, 0, Some(0), true, 1, 0, Idle, Idle)
  {
    var one := TwoHosts(1, 0, None, false, 1, 0, Idle, Owing(Locked, 0, 0, false, None));
    var two := TwoHosts(1, 0, None, true, 1, 0, Idle, Owing(Attaching, 0, 0, false, None));
    var three := TwoHosts(1, 0, Some(0), true, 1, 0, Idle, Idle);
    assert Leads(BEFORE_LOSS, Lock(1, 0, 0), one);
    assert Leads(one, SetFlag(1), two);
    assert Leads(two, Attach(1), three);
    hide *;
    RunThree(BEFORE_LOSS, Lock(1, 0, 0), one, SetFlag(1), two, Attach(1), three);
  }

  lemma HalfReleased()
    ensures var st := TwoHosts(1, 0, Some(0), true, 1, 0, Idle, Idle);
            && Possible(st, [Test(1, 0, None), Clear(1)])
            && Run(st, [Test(1, 0, None), Clear(1)]) ==
               TwoHosts(1, 0, Some(0), false, 1, 0, Idle, Owing(Releasing, 0, 0, false, None))
  {
    var st := TwoHosts(1, 0, Some(0), true, 1, 0, Idle, Idle);
    var one := TwoHosts(1, 0, Some(0), true, 1, 0, Idle, Tested(0, None));
    var two := TwoHosts(1, 0, Some(0), false, 1, 0, Idle, Owing(Releasing, 0, 0, false, None));
    assert Leads(st, Test(1, 0, None), one);
    assert Leads(one, Clear(1), two);
    hide *;
    RunLeads(st, Test(1, 0, None), one, Clear(1), two);
  }

  lemma RunLeads(st: State, a: Event, one: State, b: Event, two: State)
    requires Leads(st, a, one) && Leads(one, b, two)
    ensures Possible(st, [a, b]) && Run(st, [a, b]) == two
  {
    RunTwo(st, a, b);
  }

  lemma ScheduledAgain()
    ensures var st := TwoHosts(1, 0, Some(0), false, 1, 0, Idle, Owing(Releasing, 0, 0, false, None));
            && Possible(st, SCHEDULED_AGAIN)
            && Run(st, SCHEDULED_AGAIN) == TwoHosts(1, 1, Some(1), true, 2, 0, Idle, Owing(Releasing, 0, 0, false, None))
  {
    var late := Owing(Releasing, 0, 0, false, None);
    var st := TwoHosts(1, 0, Some(0), false, 1, 0, Idle, late);
    var one := TwoHosts(1, 1, Some(0), false, 2, 0, Owing(Locked, 0, 1, false, None), late);
    var two := TwoHosts(1, 1, Some(0), true, 2, 0, Owing(Attaching, 0, 1, false, None), late);
    var three := TwoHosts(1, 1, Some(1), true, 2, 0, Idle, late);
    assert Leads(st, Lock(0, 0, 1), one);
    assert Leads(one, SetFlag(0), two);
    assert Leads(two, Attach(0), three);
    hide *;
    RunThree(st, Lock(0, 0, 1), one, SetFlag(0), two, Attach(0), three);
  }

  lemma WrongRelease()
    ensures var st := TwoHosts(1, 1, Some(1), true, 2, 0, Idle, Owing(Releasing, 0, 0, false, None));
            Possible(st, [Detach(1), Unlock(1)]) && Run(st, [Detach(1), Unlock(1)]) == AFTER_LOSS
  {
    var st := TwoHosts(1, 1, Some(1), true, 2, 0, Idle, Owing(Releasing, 0, 0, false, None));
    var one := TwoHosts(1, 1, None, true, 2, 0, Idle, Owing(Detached, 0, 1, false, None));
    assert Leads(st, Detach(1), one);
    assert Leads(one, Unlock(1), AFTER_LOSS);
    hide *;
    RunLeads(st, Detach(1), one, Unlock(1), AFTER_LOSS);
  }

  /** A subresource copy scheduled again, on another resource, while a postSchedule
      has cleared its flag and not yet detached it: the new resource is detached and
      unlocked under the card's hands, and the lock on the old one stays for good. */
  lemma LockMeetsRelease()
    ensures Initial(BEFORE_LOSS)
    ensures var es := SCHEDULED_ONCE + ([Test(1, 0, None), Clear(1)] + (SCHEDULED_AGAIN + [Detach(1), Unlock(1)]));
            Possible(BEFORE_LOSS, es) && Run(BEFORE_LOSS, es) == AFTER_LOSS
    ensures AFTER_LOSS.hosts[0].readers == 1 && ReaderCount(AFTER_LOSS, 0) == 0 && !LedgerHolds(AFTER_LOSS)
    ensures AFTER_LOSS.copies[0].scheduled && AFTER_LOSS.hosts[1].readers == 0
  {
    NothingLocked();
    LockLost();
    hide *;
    JoinLoss();
  }

  lemma NothingLocked()
    ensures Initial(BEFORE_LOSS)
  {
  }

  lemma LockLost()
    ensures AFTER_LOSS.hosts[0].readers == 1 && ReaderCount(AFTER_LOSS, 0) == 0 && !LedgerHolds(AFTER_LOSS)
    ensures AFTER_LOSS.copies[0].scheduled && AFTER_LOSS.hosts[1].readers == 0
  {
    var st := TwoHosts(1, 0, None, true, 2, 1, Idle, Idle);
    assert st == AFTER_LOSS;
    assert st.hosts[0] == HostState(false, 1, 0, 0) && st.threads == [Idle, Idle] && st.copies[0].host == None;
    hide AFTER_LOSS, TwoHosts, ReaderCount, LedgerHolds;
    NobodyHolds(st, 0);
  }

  lemma NobodyHolds(st: State, h: nat)
    requires h < |st.hosts| && st.hosts[h].readers > 0 && st.hosts[h].cpuLocked == 0 && !st.hosts[h].lockless
    requires forall th :: th in st.threads ==> th.Idle?
    requires forall copy :: copy in st.copies ==> copy.host == None
    ensures ReaderCount(st, h) == 0 && !LedgerHolds(st)
  {
    CountNone(st.copies, HoldsOn(h, false));
    CountNone(st.threads, OwesOn(h, false));
    CountNone(st.copies, HoldsOn(h, true));
    CountNone(st.threads, OwesOn(h, true));
    assert !HostOk(st, h);
  }

  lemma JoinLoss()
    ensures var es := SCHEDULED_ONCE + ([Test(1, 0, None), Clear(1)] + (SCHEDULED_AGAIN + [Detach(1), Unlock(1)]));
            Possible(BEFORE_LOSS, es) && Run(BEFORE_LOSS, es) == AFTER_LOSS
  {
    hide *;
    ScheduledOnce();
    HalfReleased();
    ScheduledAgain();
    WrongRelease();
    var once := Run(BEFORE_LOSS, SCHEDULED_ONCE);
    var half := Run(once, [Test(1, 0, None), Clear(1)]);
    RunConcat(half, SCHEDULED_AGAIN, [Detach(1), Unlock(1)]);
    RunConcat(once, [Test(1, 0, None), Clear(1)], SCHEDULED_AGAIN + [Detach(1), Unlock(1)]);
    RunConcat(BEFORE_LOSS, SCHEDULED_ONCE, [Test(1, 0, None), Clear(1)] + (SCHEDULED_AGAIN + [Detach(1), Unlock(1)]));
  }

  // ----- Undisturbed operations -----

  /** Undisturbed, the steps of preSchedule have together the effect that
      `CopyCommand.PreSchedule` and `PreScheduleOn` ensure, and lock_cpu_access that
      of `TakeCpu`. */
  function PreSchedule(st: State, c: nat, h: nat): State
    requires c < |st.copies| && h < |st.hosts|
  {
    var copy := st.copies[c];
    var (ok, host) := LockDevice(st.hosts[h], copy.c2h);
    if !ok then st
    else st.(hosts := st.hosts[h := host],
             copies := st.copies[c := copy.(scheduled := true, locks := copy.locks + 1,
                                            host := if copy.isSubres then Some(h) else copy.host)])
  }

  function PreEvents(st: State, t: nat, c: nat, h: nat): seq<Event>
    requires c < |st.copies| && h < |st.hosts|
  {
    if !LockDevice(st.hosts[h], st.copies[c].c2h).0 then [Lock(t, c, h)]
    else [Lock(t, c, h)] + if st.copies[c].isSubres then [SetFlag(t), Attach(t)] else [SetFlag(t)]
  }

  lemma PreAlone(st: State, t: nat, c: nat, h: nat)
    requires Enabled(st, Lock(t, c, h))
    ensures Possible(st, PreEvents(st, t, c, h)) && Run(st, PreEvents(st, t, c, h)) == PreSchedule(st, c, h)
  {
    var one := Next(st, Lock(t, c, h));
    if !LockDevice(st.hosts[h], st.copies[c].c2h).0 {
      RunOne(st, Lock(t, c, h));
    } else {
      assert At(one, t, Locked) && one.threads == st.threads[t := one.threads[t]];
      assert st.threads[t := one.threads[t]][t := Idle] == st.threads;
      if st.copies[c].isSubres {
        AttachRuns(one, t, c);
        Cons(st, Lock(t, c, h), [SetFlag(t), Attach(t)]);
      } else {
        RunOne(one, SetFlag(t));
        Cons(st, Lock(t, c, h), [SetFlag(t)]);
      }
    }
  }

  lemma CpuAlone(st: State, h: nat, forWrite: bool, syncOk: bool)
    requires Enabled(st, CpuCheck(h, forWrite)) && CpuGuard(st.hosts[h], forWrite)
    ensures var es := [CpuCheck(h, forWrite), CpuAcquire(h, syncOk)];
            && Possible(st, es)
            && Run(st, es) == st.(hosts := st.hosts[h := TakeCpu(st.hosts[h], forWrite, syncOk).1])
  {
    RunTwo(st, CpuCheck(h, forWrite), CpuAcquire(h, syncOk));
    assert st.pending[h := Some(forWrite)][h := None] == st.pending;
  }


  /** All of postSchedule by one thread. */
  function PostEvents(st: State, t: nat, c: nat, errors: Option<nat>): seq<Event>
    requires c < |st.copies|
  {
    if !st.copies[c].scheduled then [Test(t, c, errors)] + []
    else
      [Test(t, c, errors)] + ([Clear(t)] + ((if errors.Some? then [Record(t)] else [])
        + ((if st.copies[c].isSubres then [Detach(t)] else []) + ([Unlock(t)] + []))))
  }

  /** Its effect as one step: what `CopyCommand.PostSchedule` does to the copy, its
      resource and the error list. */
  function PostSchedule(st: State, c: nat, errors: Option<nat>): State
    requires c < |st.copies| && (errors.Some? ==> errors.value < |st.lists|)
  {
    var copy, h := st.copies[c], HostOf(st, c);
    if !copy.scheduled || h.None? then st
    else
      var counted := if errors.Some? then CountFailures(st.hosts[h.value], 1) else st.hosts[h.value];
      st.(hosts := st.hosts[h.value := UnlockDevice(counted, copy.c2h)],
          copies := st.copies[c := copy.(scheduled := false, unlocks := copy.unlocks + 1,
                                         host := if copy.isSubres then None else copy.host)],
          lists := if errors.Some? then st.lists[errors.value := st.lists[errors.value] + [h.value]] else st.lists)
  }

  lemma PostAlone(st: State, t: nat, c: nat, errors: Option<nat>)
    requires Inv(st) && Enabled(st, Test(t, c, errors)) && Guarded(st, Test(t, c, errors))
    ensures Possible(st, PostEvents(st, t, c, errors))
    ensures Run(st, PostEvents(st, t, c, errors)) == PostSchedule(st, c, errors)
    ensures Inv(PostSchedule(st, c, errors))
  {
    assert CopyOk(st, c);
    if st.copies[c].scheduled {
      PostSteps(st, t, c, errors);
    } else {
      Cons(st, Test(t, c, errors), []);
    }
    PostIsDisciplined(st, t, c, errors);
    RunKeepsInv(st, PostEvents(st, t, c, errors));
  }

  // How far one thread is: past its test, having cleared the flag, recorded the
  // failure, and detached the resource.
  function Posting(st: State, t: nat, c: nat, h: nat, errors: Option<nat>, stage: Stage): State
    requires t < |st.threads| && c < |st.copies| && h < |st.hosts| && (errors.Some? ==> errors.value < |st.lists|)
  {
    var copy := st.copies[c];
    var recorded := errors.Some? && stage != Cleared;
    st.(threads := st.threads[t := Owing(stage, c, h, copy.c2h, errors)],
        copies := st.copies[c := copy.(scheduled := false, host := if stage == Detached then None else copy.host)],
        hosts := if recorded then st.hosts[h := CountFailures(st.hosts[h], 1)] else st.hosts,
        lists := if recorded then st.lists[errors.value := st.lists[errors.value] + [h]] else st.lists)
  }

  lemma PostSteps(st: State, t: nat, c: nat, errors: Option<nat>)
    requires Enabled(st, Test(t, c, errors)) && st.copies[c].scheduled && HostOf(st, c).Some?
    ensures Possible(st, PostEvents(st, t, c, errors))
    ensures Run(st, PostEvents(st, t, c, errors)) == PostSchedule(st, c, errors)
  {
    var h, sub := HostOf(st, c).value, st.copies[c].isSubres;
    var tested := st.(threads := st.threads[t := Tested(c, errors)]);
    var cleared := Posting(st, t, c, h, errors, if errors.Some? then Cleared else Releasing);
    var recorded := Posting(st, t, c, h, errors, Releasing);
    var detached := if sub then Posting(st, t, c, h, errors, Detached) else recorded;
    FirstSteps(st, t, c, h, errors);
    MiddleSteps(st, t, c, h, errors);
    LastStep(st, t, c, h, errors);
    hide Posting, Leads;
    JoinPost(st, t, c, errors, tested, cleared, recorded, detached);
  }

  lemma FirstSteps(st: State, t: nat, c: nat, h: nat, errors: Option<nat>)
    requires Enabled(st, Test(t, c, errors)) && st.copies[c].scheduled && HostOf(st, c) == Some(h)
    ensures var tested := st.(threads := st.threads[t := Tested(c, errors)]);
            && Leads(st, Test(t, c, errors), tested)
            && Leads(tested, Clear(t), Posting(st, t, c, h, errors, if errors.Some? then Cleared else Releasing))
  {
  }

  lemma MiddleSteps(st: State, t: nat, c: nat, h: nat, errors: Option<nat>)
    requires Enabled(st, Test(t, c, errors)) && st.copies[c].scheduled && HostOf(st, c) == Some(h)
    ensures errors.Some? ==>
      Leads(Posting(st, t, c, h, errors, Cleared), Record(t), Posting(st, t, c, h, errors, Releasing))
    ensures st.copies[c].isSubres ==>
      Leads(Posting(st, t, c, h, errors, Releasing), Detach(t), Posting(st, t, c, h, errors, Detached))
  {
  }

  lemma LastStep(st: State, t: nat, c: nat, h: nat, errors: Option<nat>)
    requires Enabled(st, Test(t, c, errors)) && st.copies[c].scheduled && HostOf(st, c) == Some(h)
    ensures var last := Posting(st, t, c, h, errors, if st.copies[c].isSubres then Detached else Releasing);
            Leads(last, Unlock(t), PostSchedule(st, c, errors))
  {
    var last := Posting(st, t, c, h, errors, if st.copies[c].isSubres then Detached else Releasing);
    var end := DoUnlock(last, t);
    assert end.threads == st.threads;
    assert end.hosts == PostSchedule(st, c, errors).hosts;
    assert end.copies == PostSchedule(st, c, errors).copies;
  }

  lemma JoinPost(st: State, t: nat, c: nat, errors: Option<nat>, tested: State, cleared: State, recorded: State, detached: State)
    requires c < |st.copies| && st.copies[c].scheduled && (errors.Some? ==> errors.value < |st.lists|)
    requires Leads(st, Test(t, c, errors), tested) && Leads(tested, Clear(t), cleared)
    requires if errors.Some? then Leads(cleared, Record(t), recorded) else recorded == cleared
    requires if st.copies[c].isSubres then Leads(recorded, Detach(t), detached) else detached == recorded
    requires Leads(detached, Unlock(t), PostSchedule(st, c, errors))
    ensures Possible(st, PostEvents(st, t, c, errors))
    ensures Run(st, PostEvents(st, t, c, errors)) == PostSchedule(st, c, errors)
  {
    hide Next, Enabled, PostSchedule;
    var detach := if st.copies[c].isSubres then [Detach(t)] else [];
    var record := if errors.Some? then [Record(t)] else [];
    Cons(detached, Unlock(t), []);
    Optional(recorded, detach, [Unlock(t)] + []);
    Optional(cleared, record, detach + ([Unlock(t)] + []));
    Cons(tested, Clear(t), record + (detach + ([Unlock(t)] + [])));
    Cons(st, Test(t, c, errors), [Clear(t)] + (record + (detach + ([Unlock(t)] + []))));
  }

  lemma PostIsDisciplined(st: State, t: nat, c: nat, errors: Option<nat>)
    requires c < |st.copies| && Possible(st, PostEvents(st, t, c, errors)) && Guarded(st, Test(t, c, errors))
    ensures Disciplined(st, PostEvents(st, t, c, errors))
  {
    var es := PostEvents(st, t, c, errors);
    assert es[0] == Test(t, c, errors) && AllFinishing(es[1..]);
    FinishingIsDisciplined(Next(st, es[0]), es[1..]);
  }

  lemma Optional(st: State, some: seq<Event>, es: seq<Event>)
    requires |some| <= 1 && (some != [] ==> Enabled(st, some[0]))
    requires Possible(if some == [] then st else Next(st, some[0]), es)
    ensures Possible(st, some + es)
    ensures Run(st, some + es) == Run(if some == [] then st else Next(st, some[0]), es)
  {
    if some == [] {
      assert some + es == es;
    } else {
      assert some == [some[0]];
      Cons(st, some[0], es);
    }
  }

  /** postSchedule of the first `n` copies into the context's list. */
  function PostFirst(st: State, n: nat): (r: State)
    requires n <= |st.copies| && |st.lists| > 0
    ensures |r.copies| == |st.copies| && |r.lists| == |st.lists| && r.threads == st.threads
  {
    if n == 0 then st else PostSchedule(PostFirst(st, n - 1), n - 1, Some(0))
  }

  /** No operation is under way. */
  predicate Quiet(st: State) {
    && (forall u :: 0 <= u < |st.threads| ==> st.threads[u].Idle?)
    && (forall c :: 0 <= c < |st.copies| && st.copies[c].scheduled ==> st.copies[c].host.Some?)
  }

  /** Failing all copies while no other operation is under way keeps the invariant
      and leaves no copy scheduled. */
  lemma {:induction false} PostFirstKeeps(st: State, t: nat, n: nat)
    requires Inv(st) && Quiet(st) && n <= |st.copies| && t < |st.threads|
    ensures Inv(PostFirst(st, n)) && Quiet(PostFirst(st, n))
    ensures forall c: nat :: c < n ==> !PostFirst(st, n).copies[c].scheduled
  {
    if n > 0 {
      PostFirstKeeps(st, t, n - 1);
      PostNext(PostFirst(st, n - 1), t, n - 1);
    }
  }

  lemma PostNext(st: State, t: nat, n: nat)
    requires Inv(st) && Quiet(st) && n < |st.copies| && t < |st.threads|
    ensures var after := PostSchedule(st, n, Some(0));
            && Inv(after) && Quiet(after) && |after.copies| == |st.copies| && !after.copies[n].scheduled
            && (forall c: nat :: c < |st.copies| && c != n ==> after.copies[c] == st.copies[c])
  {
    PostAlone(st, t, n, Some(0));
    assert CopyOk(st, n);
    hide Inv, CopyOk, UnlockDevice, CountFailures;
  }
}
