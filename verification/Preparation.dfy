/** Taking the device locks of all copies of a command list before it is
    scheduled, and giving them back when one of them is refused.

    The books compare every host resource with its state at the start: apart
    from the copies in `held`, each counted once, nothing has changed. */
module Preparation {
  import opened Bytes
  import opened HostLock
  import opened HostResource
  import opened CopyCommands
  import opened SchedParams
  import opened Commands

  type HostOf = map<CopyCommand, HostRes>
  type Snapshot = map<HostRes, HostState>

  /** The copies in `held` of resource `h`, in one direction. */
  function On(hostOf: HostOf, held: set<CopyCommand>, h: HostRes, writer: bool): set<CopyCommand> {
    set c | c in held && c in hostOf && hostOf[c] == h && c.c2h == writer
  }

  lemma OnAdd(hostOf: HostOf, held: set<CopyCommand>, c: CopyCommand, h: HostRes, writer: bool)
    requires c !in held && c in hostOf
    ensures |On(hostOf, held + {c}, h, writer)| ==
            |On(hostOf, held, h, writer)| + if hostOf[c] == h && c.c2h == writer then 1 else 0
  {
    if hostOf[c] == h && c.c2h == writer {
      assert On(hostOf, held + {c}, h, writer) == On(hostOf, held, h, writer) + {c};
    } else {
      assert On(hostOf, held + {c}, h, writer) == On(hostOf, held, h, writer);
    }
  }

  predicate Sound(h: HostState) {
    h.readers >= -1
  }

  function Readers0(h: HostState): nat {
    if h.readers > 0 then h.readers else 0
  }

  function Writers0(h: HostState): nat {
    if h.readers == -1 then 1 else 0
  }

  /** The state of one resource, given how many copies of it are held. */
  predicate Book(now: HostState, was: HostState, readers: nat, writers: nat) {
    && now == was.(readers := now.readers)
    && (was.lockless ==> now == was)
    && (!was.lockless ==> Ledger(now.readers, Readers0(was) + readers, Writers0(was) + writers))
  }

  lemma BookLock(h: HostState, was: HostState, readers: nat, writers: nat, forWrite: bool)
    requires Sound(was) && Book(h, was, readers, writers)
    ensures var (ok, h') := LockDevice(h, forWrite);
            Book(h', was, if ok && !forWrite then readers + 1 else readers, if ok && forWrite then writers + 1 else writers)
  {
  }

  lemma BookUnlock(h: HostState, was: HostState, readers: nat, writers: nat, forWrite: bool)
    requires Sound(was) && Book(h, was, readers, writers)
    requires if forWrite then writers > 0 else readers > 0
    ensures Book(UnlockDevice(h, forWrite), was, if forWrite then readers else readers - 1, if forWrite then writers - 1 else writers)
  {
  }

  lemma OnSkip(hostOf: HostOf, held: set<CopyCommand>, c: CopyCommand, h: HostRes, writer: bool)
    requires c !in hostOf
    ensures On(hostOf, held + {c}, h, writer) == On(hostOf, held, h, writer) == On(hostOf, held - {c}, h, writer)
  {
  }

  ghost predicate BookOf(h: HostRes, was: HostState, hostOf: HostOf, held: set<CopyCommand>)
    reads h
  {
    Book(h.State(), was, |On(hostOf, held, h, false)|, |On(hostOf, held, h, true)|)
  }

  ghost predicate Books(was: Snapshot, hostOf: HostOf, held: set<CopyCommand>)
    reads was.Keys
  {
    forall h :: h in was ==> Sound(was[h]) && BookOf(h, was[h], hostOf, held)
  }

  /** With nothing held the books are balanced exactly when every resource is as
      it was. */
  lemma BalancedIff(was: Snapshot, hostOf: HostOf)
    requires forall h :: h in was ==> Sound(was[h])
    ensures Books(was, hostOf, {}) <==> forall h :: h in was ==> h.State() == was[h]
  {
  }

  /** The copies at hand, their resources, and which of them were scheduled. */
  ghost predicate Known(all: set<CopyCommand>, hostOf: HostOf, was: Snapshot)
    reads all
  {
    forall c :: c in all ==>
      && c.Valid() && !c.isSubres
      && (c.d2d ==> c !in hostOf)
      && (!c.d2d ==> c in hostOf && c.hostres == hostOf[c] && hostOf[c] in was)
  }

  ghost predicate Flags(all: set<CopyCommand>, on: set<CopyCommand>)
    reads all
  {
    forall c :: c in all ==> (c.scheduled <==> c in on && !c.d2d)
  }

  // ----- Which locks can be taken -----

  /** Whether the device lock of `c` is granted, and what its resource is then. A
      device-to-device copy needs none. */
  ghost function Grant(now: Snapshot, hostOf: HostOf, c: CopyCommand): (bool, Snapshot) {
    if c !in hostOf || hostOf[c] !in now then (true, now)
    else
      var (ok, h) := LockDevice(now[hostOf[c]], c.c2h);
      (ok, now[hostOf[c] := h])
  }

  /** The resources after the locks of `cs` have been asked for in turn. */
  ghost function After(was: Snapshot, hostOf: HostOf, cs: seq<CopyCommand>): Snapshot {
    if cs == [] then was else Grant(After(was, hostOf, cs[..|cs| - 1]), hostOf, cs[|cs| - 1]).1
  }

  /** Each of these locks is granted when they are asked for in turn. */
  ghost predicate AllGranted(was: Snapshot, hostOf: HostOf, cs: seq<CopyCommand>) {
    cs == [] || (AllGranted(was, hostOf, cs[..|cs| - 1])
                 && Grant(After(was, hostOf, cs[..|cs| - 1]), hostOf, cs[|cs| - 1]).0)
  }

  lemma GrantedNext(was: Snapshot, hostOf: HostOf, cs: seq<CopyCommand>, c: CopyCommand)
    ensures var (ok, now) := Grant(After(was, hostOf, cs), hostOf, c);
            && After(was, hostOf, cs + [c]) == now
            && (AllGranted(was, hostOf, cs + [c]) <==> AllGranted(was, hostOf, cs) && ok)
  {
    assert (cs + [c])[..|cs|] == cs;
  }

  lemma {:induction false} GrantedPrefix(was: Snapshot, hostOf: HostOf, cs: seq<CopyCommand>, more: seq<CopyCommand>)
    requires AllGranted(was, hostOf, cs + more)
    ensures AllGranted(was, hostOf, cs)
  {
    if more == [] {
      assert cs + more == cs;
    } else {
      assert cs + more == cs + more[..|more| - 1] + [more[|more| - 1]];
      GrantedNext(was, hostOf, cs + more[..|more| - 1], more[|more| - 1]);
      GrantedPrefix(was, hostOf, cs, more[..|more| - 1]);
    }
  }

  // preSchedule of one copy, entered in the books.
  method Take(c: CopyCommand, ghost all: set<CopyCommand>, ghost hostOf: HostOf, ghost was: Snapshot,
              ghost held: set<CopyCommand>, ghost on: set<CopyCommand>)
    returns (ok: bool)
    requires c in all && c !in held && Known(all, hostOf, was)
    requires Books(was, hostOf, held) && Flags(all, on)
    modifies c, was.Keys
    ensures Known(all, hostOf, was)
    ensures ok ==> Books(was, hostOf, held + {c}) && Flags(all, on + {c})
    ensures !ok ==> Books(was, hostOf, held) && Flags(all, on) && !c.d2d
    ensures (ok, States(was.Keys)) == Grant(old(States(was.Keys)), hostOf, c)
  {
    hide Book, On, Known, Flags, Grant;
    ghost var now := States(was.Keys);
    ok := Ask(c, all, hostOf, was, on);
    forall h | h in was
      ensures BookOf(h, was[h], hostOf, if ok then held + {c} else held)
    {
      TakeBook(now, h, was, hostOf, held, c, ok);
    }
  }

  method Ask(c: CopyCommand, ghost all: set<CopyCommand>, ghost hostOf: HostOf, ghost was: Snapshot, ghost on: set<CopyCommand>)
    returns (ok: bool)
    requires c in all && Known(all, hostOf, was) && Flags(all, on)
    modifies c, was.Keys
    ensures Known(all, hostOf, was) && Flags(all, if ok then on + {c} else on)
    ensures (ok, States(was.Keys)) == Grant(old(States(was.Keys)), hostOf, c)
    ensures c in hostOf ==> hostOf[c] in was
    ensures !ok ==> !c.d2d
  {
    ok := c.PreSchedule();
    assert States(was.Keys) == Grant(old(States(was.Keys)), hostOf, c).1;
  }

  // The books of one resource after a lock has been asked for.
  lemma TakeBook(now: Snapshot, h: HostRes, was: Snapshot, hostOf: HostOf, held: set<CopyCommand>, c: CopyCommand, ok: bool)
    requires c !in held && h in was && now.Keys == was.Keys && Sound(was[h])
    requires c in hostOf ==> hostOf[c] in was
    requires Book(now[h], was[h], |On(hostOf, held, h, false)|, |On(hostOf, held, h, true)|)
    requires (ok, h.State()) == (Grant(now, hostOf, c).0, Grant(now, hostOf, c).1[h])
    ensures BookOf(h, was[h], hostOf, if ok then held + {c} else held)
  {
    hide Book, On;
    if c !in hostOf {
      OnSkip(hostOf, held, c, h, true);
      OnSkip(hostOf, held, c, h, false);
    } else {
      OnAdd(hostOf, held, c, h, true);
      OnAdd(hostOf, held, c, h, false);
      if h == hostOf[c] {
        BookLock(now[h], was[h], |On(hostOf, held, h, false)|, |On(hostOf, held, h, true)|, c.c2h);
      }
    }
  }

  // postSchedule of one copy. The books stay right if its lock is in them.
  method Give(c: CopyCommand, ghost all: set<CopyCommand>, ghost hostOf: HostOf, ghost was: Snapshot,
              ghost held: set<CopyCommand>, ghost on: set<CopyCommand>)
    requires c in all && Known(all, hostOf, was) && Flags(all, on)
    modifies c, was.Keys
    ensures Known(all, hostOf, was) && Flags(all, on - {c})
    ensures old(Books(was, hostOf, held)) && (c in held <==> c in on) ==> Books(was, hostOf, held - {c})
  {
    hide Book, On;
    ghost var balanced := Books(was, hostOf, held);
    ghost var now := map h | h in was :: h.State();
    c.PostSchedule(null);
    if balanced && (c in held <==> c in on) {
      var rest := held - {c};
      forall h | h in was
        ensures BookOf(h, was[h], hostOf, rest)
      {
        if c !in held {
          assert rest == held;
        } else if c.d2d {
          OnSkip(hostOf, held, c, h, true);
          OnSkip(hostOf, held, c, h, false);
        } else {
          assert rest + {c} == held;
          OnAdd(hostOf, rest, c, h, true);
          OnAdd(hostOf, rest, c, h, false);
          if h == hostOf[c] {
            BookUnlock(now[h], was[h], |On(hostOf, held, h, false)|, |On(hostOf, held, h, true)|, c.c2h);
          }
        }
      }
    }
  }

  // ----- Whole commands -----

  /** The copies whose locks a command takes when it is prepared. */
  function CopiesOf(cmd: Cmd): set<CopyCommand> {
    match cmd
    case Copy(c) => {c.copy}
    case Infer(_) => {}
    case List(l) => if l.needPrepare then FirstCopies(l, |l.copies|) else {}
  }

  function FirstCopies(l: CopyListParams, n: nat): set<CopyCommand>
    requires n <= |l.copies|
  {
    set s | 0 <= s < n :: l.copies[s].copy
  }

  /** The copies of a list in the order in which they are prepared. */
  function InOrder(l: CopyListParams, n: nat): seq<CopyCommand>
    requires n <= |l.copies|
  {
    seq(n, s requires 0 <= s < n => l.copies[s].copy)
  }

  function OrderOf(cmd: Cmd): seq<CopyCommand> {
    match cmd
    case Copy(c) => [c.copy]
    case Infer(_) => []
    case List(l) => if l.needPrepare then InOrder(l, |l.copies|) else []
  }

  function Order(vec: seq<Cmd>): seq<CopyCommand> {
    if vec == [] then [] else Order(vec[..|vec| - 1]) + OrderOf(vec[|vec| - 1])
  }

  /** The first copy of the list, from `s` on, whose lock is refused after those of
      `before` and of the copies before it have been granted. */
  ghost function Refused(was: Snapshot, hostOf: HostOf, before: seq<CopyCommand>, l: CopyListParams, s: nat): (r: nat)
    requires s <= |l.copies|
    ensures s <= r <= |l.copies|
    decreases |l.copies| - s
  {
    if s == |l.copies| || !AllGranted(was, hostOf, before + InOrder(l, s + 1)) then s
    else Refused(was, hostOf, before, l, s + 1)
  }

  /** The copies that go through postSchedule when a lock is refused, of the
      commands from `i` on: those of all commands before the refused one, and if
      that is a copy list, its copies up to and including the refused one. */
  ghost function RolledBack(was: Snapshot, hostOf: HostOf, vec: seq<Cmd>, i: nat): set<CopyCommand>
    requires i <= |vec|
    decreases |vec| - i
  {
    if i == |vec| then {}
    else
      var before := Order(vec[..i]);
      if AllGranted(was, hostOf, before + OrderOf(vec[i])) then RolledBack(was, hostOf, vec, i + 1)
      else CopiesOfAll(vec[..i]) + RolledBackOf(was, hostOf, before, vec[i])
  }

  ghost function RolledBackOf(was: Snapshot, hostOf: HostOf, before: seq<CopyCommand>, cmd: Cmd): set<CopyCommand> {
    match cmd
    case List(l) =>
      var r := Refused(was, hostOf, before, l, 0);
      if r < |l.copies| then FirstCopies(l, r + 1) else {}
    case _ => {}
  }

  lemma OrderNext(vec: seq<Cmd>, i: nat)
    requires i < |vec|
    ensures Order(vec[..i + 1]) == Order(vec[..i]) + OrderOf(vec[i])
  {
    assert vec[..i + 1][..i] == vec[..i];
  }

  lemma {:induction false} OrderPrefix(vec: seq<Cmd>, i: nat)
    requires i <= |vec|
    ensures Order(vec[..i]) <= Order(vec)
    decreases |vec| - i
  {
    if i == |vec| {
      assert vec[..i] == vec;
    } else {
      OrderPrefix(vec, i + 1);
      OrderNext(vec, i);
    }
  }

  lemma FirstCopiesNext(l: CopyListParams, n: nat)
    requires n < |l.copies|
    ensures FirstCopies(l, n + 1) == FirstCopies(l, n) + {l.copies[n].copy} <= FirstCopies(l, |l.copies|)
  {
  }

  lemma FirstCopiesEmpty(l: CopyListParams)
    ensures FirstCopies(l, 0) == {}
  {
  }

  lemma FirstCopiesNew(l: CopyListParams, i: nat, n: nat)
    requires i < |l.copies| && n <= |l.copies|
    requires forall s, t :: 0 <= s < t < |l.copies| ==> l.copies[s].copy != l.copies[t].copy
    ensures l.copies[i].copy in FirstCopies(l, n) <==> i < n
  {
  }

  function CopiesOfAll(vec: seq<Cmd>): set<CopyCommand> {
    if vec == [] then {} else CopiesOfAll(vec[..|vec| - 1]) + CopiesOf(vec[|vec| - 1])
  }

  lemma {:induction false} CopiesOfAllHas(vec: seq<Cmd>, i: nat)
    requires i < |vec|
    ensures CopiesOf(vec[i]) <= CopiesOfAll(vec)
  {
    if i < |vec| - 1 {
      CopiesOfAllHas(vec[..|vec| - 1], i);
    }
  }

  /** Copy `c` is subcommand `s` of command `i`, and is prepared with it: a copy list
      is prepared as a whole or not at all. */
  predicate Prepares(vec: seq<Cmd>, i: nat, s: nat, c: CopyCommand) {
    && i < |vec| && s < NumOfSubcmds(vec[i]) && (vec[i].List? ==> vec[i].l.needPrepare)
    && Leaves(vec[i])[s].Copy? && Leaves(vec[i])[s].c.copy == c
  }

  /** Exactly these copies have their locks taken. */
  lemma {:induction false} PreparedIff(vec: seq<Cmd>, c: CopyCommand)
    ensures c in Order(vec) <==> exists i: nat, s: nat :: Prepares(vec, i, s, c)
    ensures c in CopiesOfAll(vec) <==> c in Order(vec)
  {
    if vec != [] {
      var n := |vec| - 1;
      PreparedIff(vec[..n], c);
      PreparedOf(vec[n], c);
      if i: nat, s: nat :| Prepares(vec[..n], i, s, c) {
        assert Prepares(vec, i, s, c);
      }
      if s: nat :| Prepares([vec[n]], 0, s, c) {
        assert Prepares(vec, n, s, c);
      }
      if i: nat, s: nat :| Prepares(vec, i, s, c) {
        assert if i < n then Prepares(vec[..n], i, s, c) else Prepares([vec[n]], 0, s, c);
      }
    }
  }

  lemma PreparedOf(cmd: Cmd, c: CopyCommand)
    ensures c in OrderOf(cmd) <==> exists s: nat :: Prepares([cmd], 0, s, c)
    ensures c in CopiesOf(cmd) <==> c in OrderOf(cmd)
  {
    if c in OrderOf(cmd) {
      var s: nat :| s < |OrderOf(cmd)| && OrderOf(cmd)[s] == c;
      assert Prepares([cmd], 0, s, c);
      assert cmd.List? ==> cmd.l.copies[s].copy in FirstCopies(cmd.l, |cmd.l.copies|);
    }
    if s: nat :| Prepares([cmd], 0, s, c) {
      assert OrderOf(cmd)[s] == c;
    }
    if c in CopiesOf(cmd) && cmd.List? {
      var s: nat :| s < |cmd.l.copies| && cmd.l.copies[s].copy == c;
      assert OrderOf(cmd)[s] == c;
    }
  }

  function CopyOf(cmd: Cmd): seq<CopyCommand> {
    if cmd.Copy? then [cmd.c.copy] else []
  }

  /** The locks are taken in the order of the user's commands. */
  lemma {:induction false} OrderIsFlat(vec: seq<Cmd>)
    requires forall i :: 0 <= i < |vec| && vec[i].List? ==> vec[i].l.needPrepare
    ensures Order(vec) == ConcatMap(CopyOf, Flat(vec))
  {
    if vec != [] {
      var n := |vec| - 1;
      OrderIsFlat(vec[..n]);
      ConcatMapConcat(CopyOf, Flat(vec[..n]), Leaves(vec[n]));
      LeavesInOrder(vec[n], NumOfSubcmds(vec[n]));
      assert Leaves(vec[n])[..NumOfSubcmds(vec[n])] == Leaves(vec[n]);
    }
  }

  lemma {:induction false} LeavesInOrder(cmd: Cmd, n: nat)
    requires n <= NumOfSubcmds(cmd)
    ensures cmd.List? ==> ConcatMap(CopyOf, Leaves(cmd)[..n]) == InOrder(cmd.l, n)
    ensures !cmd.List? && n == 1 ==> ConcatMap(CopyOf, Leaves(cmd)[..n]) == OrderOf(cmd)
  {
    if n > 0 {
      LeavesInOrder(cmd, n - 1);
      assert Leaves(cmd)[..n] == Leaves(cmd)[..n - 1] + [Leaves(cmd)[n - 1]];
      ConcatMapSnoc(CopyOf, Leaves(cmd)[..n - 1], Leaves(cmd)[n - 1]);
    }
  }

  /** No copy object occurs twice. */
  predicate NoCopyTwice(vec: seq<Cmd>) {
    && (forall i :: 0 <= i < |vec| && vec[i].List? ==>
          forall s, t :: 0 <= s < t < |vec[i].l.copies| ==> vec[i].l.copies[s].copy != vec[i].l.copies[t].copy)
    && forall i, j :: 0 <= i < j < |vec| ==> CopiesOf(vec[i]) !! CopiesOf(vec[j])
  }

  lemma {:induction false} CopiesOfPrefixDisjoint(vec: seq<Cmd>, i: nat, j: nat)
    requires NoCopyTwice(vec) && i <= j < |vec|
    ensures CopiesOfAll(vec[..i]) !! CopiesOf(vec[j])
  {
    if i > 0 {
      assert vec[..i][..i - 1] == vec[..i - 1];
      CopiesOfPrefixDisjoint(vec, i - 1, j);
    }
  }

  // prepare_schedule of a copy list. On refusal the copies up to and including
  // the refused one go through postSchedule.
  method PrepareList(l: CopyListParams, ghost all: set<CopyCommand>, ghost hostOf: HostOf, ghost was: Snapshot,
                     ghost held: set<CopyCommand>, ghost on: set<CopyCommand>, ghost before: seq<CopyCommand>)
    returns (ok: bool, ghost touched: set<CopyCommand>)
    requires CopiesOf(List(l)) <= all && CopiesOf(List(l)) !! held
    requires forall s, t :: 0 <= s < t < |l.copies| ==> l.copies[s].copy != l.copies[t].copy
    requires Known(all, hostOf, was) && Books(was, hostOf, held) && Flags(all, on)
    requires AllGranted(was, hostOf, before) && States(was.Keys) == After(was, hostOf, before)
    modifies all, was.Keys
    ensures Known(all, hostOf, was)
    ensures ok == AllGranted(was, hostOf, before + OrderOf(List(l)))
    ensures ok ==> touched == CopiesOf(List(l)) && Books(was, hostOf, held + touched) && Flags(all, on + touched)
    ensures ok ==> States(was.Keys) == After(was, hostOf, before + OrderOf(List(l)))
    ensures !ok ==> touched == RolledBackOf(was, hostOf, before, List(l)) <= CopiesOf(List(l)) && Flags(all, on - touched)
    ensures !ok && touched !! on ==> Books(was, hostOf, held)
  {
    hide BookOf, Books, Known, Flags, States, AllGranted, After, Grant, InOrder, FirstCopies;
    touched := {};
    assert on + touched == on && held + touched == held && before + [] == before;
    if !l.needPrepare {
      return true, touched;
    }
    ListStart(l, before);
    ok := true;
    var i := 0;
    while ok && i < |l.copies|
      invariant 0 <= i <= |l.copies|
      invariant Known(all, hostOf, was)
      invariant !ok ==> i > 0
      invariant touched == FirstCopies(l, if ok then i else i - 1)
      invariant Books(was, hostOf, held + touched) && Flags(all, on + touched)
      invariant ok == AllGranted(was, hostOf, before + InOrder(l, i))
      invariant ok ==> States(was.Keys) == After(was, hostOf, before + InOrder(l, i))
      invariant Refused(was, hostOf, before, l, 0) == if ok then Refused(was, hostOf, before, l, i) else i - 1
      decreases |l.copies| - i
    {
      var c := l.copies[i].copy;
      ListNext(l, i, before, held, on);
      GrantedNext(was, hostOf, before + InOrder(l, i), c);
      ok := Take(c, all, hostOf, was, held + touched, on + touched);
      if ok {
        touched := touched + {c};
      }
      i := i + 1;
    }
    if !ok {
      ListRefused(was, hostOf, before, l, i);
      touched := RollBack(l, i, all, hostOf, was, held, on);
    }
  }

  lemma ListStart(l: CopyListParams, before: seq<CopyCommand>)
    ensures before + InOrder(l, 0) == before && FirstCopies(l, 0) == {}
  {
  }

  lemma ListNext(l: CopyListParams, i: nat, before: seq<CopyCommand>, held: set<CopyCommand>, on: set<CopyCommand>)
    requires i < |l.copies|
    ensures before + InOrder(l, i + 1) == before + InOrder(l, i) + [l.copies[i].copy]
    ensures FirstCopies(l, i + 1) == FirstCopies(l, i) + {l.copies[i].copy} <= FirstCopies(l, |l.copies|)
    ensures held + FirstCopies(l, i) + {l.copies[i].copy} == held + FirstCopies(l, i + 1)
    ensures on + FirstCopies(l, i) + {l.copies[i].copy} == on + FirstCopies(l, i + 1)
    ensures (forall s, t :: 0 <= s < t < |l.copies| ==> l.copies[s].copy != l.copies[t].copy) ==>
      l.copies[i].copy !in FirstCopies(l, i)
  {
  }

  lemma ListRefused(was: Snapshot, hostOf: HostOf, before: seq<CopyCommand>, l: CopyListParams, i: nat)
    requires l.needPrepare && 0 < i <= |l.copies| && !AllGranted(was, hostOf, before + InOrder(l, i))
    ensures !AllGranted(was, hostOf, before + OrderOf(List(l)))
    ensures FirstCopies(l, i) <= CopiesOf(List(l))
  {
    var rest := InOrder(l, |l.copies|)[i..];
    assert before + OrderOf(List(l)) == before + InOrder(l, i) + rest;
    if AllGranted(was, hostOf, before + OrderOf(List(l))) {
      GrantedPrefix(was, hostOf, before + InOrder(l, i), rest);
    }
  }

  // The rollback loop: the first `n` copies, of which the last was refused.
  method RollBack(l: CopyListParams, n: nat, ghost all: set<CopyCommand>, ghost hostOf: HostOf, ghost was: Snapshot,
                  ghost held: set<CopyCommand>, ghost on: set<CopyCommand>)
    returns (ghost touched: set<CopyCommand>)
    requires 0 < n <= |l.copies| && l.needPrepare && CopiesOf(List(l)) <= all && CopiesOf(List(l)) !! held
    requires forall s, t :: 0 <= s < t < |l.copies| ==> l.copies[s].copy != l.copies[t].copy
    requires Known(all, hostOf, was)
    requires Books(was, hostOf, held + FirstCopies(l, n - 1)) && Flags(all, on + FirstCopies(l, n - 1))
    modifies all, was.Keys
    ensures Known(all, hostOf, was) && touched == FirstCopies(l, n) && Flags(all, on - touched)
    ensures touched !! on ==> Books(was, hostOf, held)
  {
    hide Books, Known, Flags, FirstCopies;
    FirstCopiesNext(l, n - 1);
    FirstCopiesEmpty(l);
    touched := FirstCopies(l, n);
    ghost var taken := FirstCopies(l, n - 1);
    assert taken - {} == taken && on + taken - {} == on + taken;
    for j := 0 to n
      invariant Known(all, hostOf, was) && Flags(all, on + taken - FirstCopies(l, j))
      invariant touched !! on ==> Books(was, hostOf, held + (taken - FirstCopies(l, j)))
    {
      var c := l.copies[j].copy;
      ghost var gone := FirstCopies(l, j);
      FirstCopiesNext(l, j);
      FirstCopiesNew(l, j, j);
      FirstCopiesNew(l, j, n - 1);
      FirstCopiesNew(l, j, n);
      FirstCopiesNew(l, j, |l.copies|);
      Give(c, all, hostOf, was, held + (taken - gone), on + taken - gone);
      assert on + taken - gone - {c} == on + taken - (gone + {c});
      assert held + (taken - gone) - {c} == held + (taken - (gone + {c}));
    }
    assert on + taken - touched == on - touched;
    assert held + (taken - touched) == held;
  }

  method Prepare(cmd: Cmd, ghost all: set<CopyCommand>, ghost hostOf: HostOf, ghost was: Snapshot,
                 ghost held: set<CopyCommand>, ghost on: set<CopyCommand>, ghost before: seq<CopyCommand>)
    returns (ok: bool, ghost touched: set<CopyCommand>)
    requires CopiesOf(cmd) <= all && CopiesOf(cmd) !! held
    requires cmd.List? ==> forall s, t :: 0 <= s < t < |cmd.l.copies| ==> cmd.l.copies[s].copy != cmd.l.copies[t].copy
    requires Known(all, hostOf, was) && Books(was, hostOf, held) && Flags(all, on)
    requires AllGranted(was, hostOf, before) && States(was.Keys) == After(was, hostOf, before)
    modifies all, was.Keys
    ensures Known(all, hostOf, was)
    ensures ok == AllGranted(was, hostOf, before + OrderOf(cmd))
    ensures ok ==> touched == CopiesOf(cmd) && Books(was, hostOf, held + touched) && Flags(all, on + touched)
    ensures ok ==> States(was.Keys) == After(was, hostOf, before + OrderOf(cmd))
    ensures !ok ==> touched == RolledBackOf(was, hostOf, before, cmd) <= CopiesOf(cmd) && Flags(all, on - touched)
    ensures !ok && touched !! on ==> Books(was, hostOf, held)
  {
    hide Books, Known, Flags, States, AllGranted, After, Grant;
    assert held + {} == held && on + {} == on && on - {} == on && before + [] == before;
    match cmd
    case Copy(c) =>
      GrantedNext(was, hostOf, before, c.copy);
      ok := Take(c.copy, all, hostOf, was, held, on);
      touched := if ok then {c.copy} else {};
    case Infer(_) =>
      ok, touched := true, {};
    case List(l) =>
      ok, touched := PrepareList(l, all, hostOf, was, held, on, before);
  }

  // schedule_done of one command.
  method ScheduleDone(cmd: Cmd, ghost all: set<CopyCommand>, ghost hostOf: HostOf, ghost was: Snapshot,
                      ghost held: set<CopyCommand>, ghost on: set<CopyCommand>)
    requires CopiesOf(cmd) <= all && Known(all, hostOf, was) && Flags(all, on)
    requires cmd.List? ==> forall s, t :: 0 <= s < t < |cmd.l.copies| ==> cmd.l.copies[s].copy != cmd.l.copies[t].copy
    modifies all, was.Keys
    ensures Known(all, hostOf, was) && Flags(all, on - CopiesOf(cmd))
    ensures old(Books(was, hostOf, held)) && CopiesOf(cmd) <= held && CopiesOf(cmd) <= on ==>
      Books(was, hostOf, held - CopiesOf(cmd))
  {
    hide Books, Known, Flags, FirstCopies;
    assert on - {} == on && held - {} == held;
    match cmd
    case Copy(c) => Give(c.copy, all, hostOf, was, held, on);
    case Infer(_) =>
    case List(l) =>
      if l.needPrepare {
        ListDone(l, all, hostOf, was, held, on);
      }
  }

  method ListDone(l: CopyListParams, ghost all: set<CopyCommand>, ghost hostOf: HostOf, ghost was: Snapshot,
                  ghost held: set<CopyCommand>, ghost on: set<CopyCommand>)
    requires FirstCopies(l, |l.copies|) <= all && Known(all, hostOf, was) && Flags(all, on)
    requires forall s, t :: 0 <= s < t < |l.copies| ==> l.copies[s].copy != l.copies[t].copy
    modifies all, was.Keys
    ensures Known(all, hostOf, was) && Flags(all, on - FirstCopies(l, |l.copies|))
    ensures old(Books(was, hostOf, held)) && FirstCopies(l, |l.copies|) <= held && FirstCopies(l, |l.copies|) <= on ==>
      Books(was, hostOf, held - FirstCopies(l, |l.copies|))
  {
    hide Books, Known, Flags, FirstCopies;
    ghost var mine := FirstCopies(l, |l.copies|);
    ghost var balanced := Books(was, hostOf, held) && mine <= held && mine <= on;
    assert on - {} == on && held - {} == held;
    FirstCopiesEmpty(l);
    for j := 0 to |l.copies|
      invariant Known(all, hostOf, was) && Flags(all, on - FirstCopies(l, j))
      invariant balanced ==> Books(was, hostOf, held - FirstCopies(l, j))
    {
      var c := l.copies[j].copy;
      ghost var gone := FirstCopies(l, j);
      FirstCopiesNext(l, j);
      FirstCopiesNew(l, j, j);
      FirstCopiesNew(l, j, |l.copies|);
      Give(c, all, hostOf, was, held - gone, on - gone);
      assert on - gone - {c} == on - (gone + {c}) && held - gone - {c} == held - (gone + {c});
    }
  }

  // ----- The whole list -----

  predicate CopiesApart(cmd: Cmd) {
    cmd.List? ==> forall s, t :: 0 <= s < t < |cmd.l.copies| ==> cmd.l.copies[s].copy != cmd.l.copies[t].copy
  }

  // The next command's copies are not among those of the commands before it.
  lemma NextCommand(vec: seq<Cmd>, i: nat)
    requires NoCopyTwice(vec) && i < |vec|
    ensures CopiesOfAll(vec[..i + 1]) == CopiesOfAll(vec[..i]) + CopiesOf(vec[i]) <= CopiesOfAll(vec)
    ensures CopiesOfAll(vec[..i]) !! CopiesOf(vec[i]) && CopiesApart(vec[i])
  {
    assert vec[..i + 1][..i] == vec[..i];
    CopiesOfPrefixDisjoint(vec, i, i);
    PrefixWithin(vec, i + 1);
  }

  lemma {:induction false} PrefixWithin(vec: seq<Cmd>, n: nat)
    requires n <= |vec|
    ensures CopiesOfAll(vec[..n]) <= CopiesOfAll(vec)
    decreases |vec| - n
  {
    if n == |vec| {
      assert vec[..n] == vec;
    } else {
      assert vec[..n + 1][..n] == vec[..n];
      PrefixWithin(vec, n + 1);
    }
  }

  /** What the caller of `PrepareAll` promises of the copies in the list. */
  ghost predicate Ready(vec: seq<Cmd>, hosts: set<HostRes>)
    reads CopiesOfAll(vec), hosts
  {
    && NoCopyTwice(vec)
    && (forall c :: c in CopiesOfAll(vec) ==> c.Valid() && !c.isSubres && (!c.d2d ==> c.hostres in hosts))
    && (forall h :: h in hosts ==> Sound(h.State()))
  }

  function HostOfCopy(c: CopyCommand): HostRes
    requires c.Valid() && !c.isSubres && !c.d2d
    reads c
  {
    c.hostres
  }

  ghost function HostsOf(all: set<CopyCommand>): (m: HostOf)
    requires forall c :: c in all ==> c.Valid() && !c.isSubres
    reads all
    ensures m.Keys == set c | c in all && !c.d2d
    ensures forall c :: c in m ==> m[c] == c.hostres
  {
    map c | c in all && !c.d2d :: HostOfCopy(c)
  }

  ghost function States(hosts: set<HostRes>): (m: Snapshot)
    reads hosts
    ensures m.Keys == hosts && forall h :: h in hosts ==> m[h] == h.State()
  {
    map h | h in hosts :: h.State()
  }

  ghost function Scheduled(all: set<CopyCommand>): (s: set<CopyCommand>)
    reads all
    ensures s <= all
  {
    set c | c in all && c.scheduled
  }

  lemma OpenBooks(vec: seq<Cmd>, hosts: set<HostRes>)
    requires Ready(vec, hosts)
    ensures var all := CopiesOfAll(vec);
            && Known(all, HostsOf(all), States(hosts))
            && Books(States(hosts), HostsOf(all), {})
            && Flags(all, Scheduled(all))
  {
  }

  /** First loop of `schedule`. It succeeds if and only if each lock is granted when
      they are asked for in turn, and then every copy is entered in the books.
      Otherwise the prepared commands have been undone, and everything is as before
      if and only if no copy that is rolled back had been scheduled already. */
  method PrepareAll(vec: seq<Cmd>, ghost hosts: set<HostRes>)
    returns (ok: bool)
    requires |vec| <= U16_MAX && Ready(vec, hosts)
    modifies CopiesOfAll(vec), hosts
    ensures var all := CopiesOfAll(vec);
            Known(all, old(HostsOf(all)), old(States(hosts)))
    ensures ok == AllGranted(old(States(hosts)), old(HostsOf(CopiesOfAll(vec))), Order(vec))
    ensures var all := CopiesOfAll(vec);
            ok ==> Books(old(States(hosts)), old(HostsOf(all)), all) && Flags(all, all)
    ensures !ok ==>
      (RolledBack(old(States(hosts)), old(HostsOf(CopiesOfAll(vec))), vec, 0) !! old(Scheduled(CopiesOfAll(vec))) <==>
       States(hosts) == old(States(hosts)) && Scheduled(CopiesOfAll(vec)) == old(Scheduled(CopiesOfAll(vec))))
  {
    hide AllGranted, After, Grant, RolledBack;
    ghost var all := CopiesOfAll(vec);
    ghost var hostOf, was, on := HostsOf(all), States(hosts), Scheduled(all);
    OpenBooks(vec, hosts);
    ghost var touched;
    ok, touched := PrepareOrUndo(vec, all, hostOf, was, on);
    if !ok {
      Closing(all, hostOf, was, on, touched);
    } else {
      assert on + all == all;
    }
  }

  /** The copies that are given back when the list is not sent after all: all of
      them once every lock has been granted. */
  ghost function Undone(was: Snapshot, hostOf: HostOf, vec: seq<Cmd>): set<CopyCommand> {
    if AllGranted(was, hostOf, Order(vec)) then CopiesOfAll(vec) else RolledBack(was, hostOf, vec, 0)
  }

  /** Where the condition fails: a copy list whose first copy is already outstanding
      as the writer of its resource. It is refused, and the rollback gives back the
      lock of the earlier schedule. */
  lemma OutstandingIsRolledBack(l: CopyListParams, hosts: set<HostRes>)
    requires Ready([List(l)], hosts) && l.needPrepare && l.copies != []
    requires var c := l.copies[0].copy;
             c in CopiesOfAll([List(l)]) && !c.d2d && c.c2h && c.scheduled && !c.hostres.lockless && c.hostres.readers == -1
    ensures var vec := [List(l)];
            var undone := RolledBack(States(hosts), HostsOf(CopiesOfAll(vec)), vec, 0);
            undone == {l.copies[0].copy} && !(undone !! Scheduled(CopiesOfAll(vec)))
  {
    var vec, c := [List(l)], l.copies[0].copy;
    var was, hostOf := States(hosts), HostsOf(CopiesOfAll(vec));
    NothingAsked(was, hostOf, vec);
    assert [] + InOrder(l, 1) == [] + [c];
    GrantedNext(was, hostOf, [], c);
    assert Refused(was, hostOf, [], l, 0) == 0;
    ListRefused(was, hostOf, [], l, 1);
    assert CopiesOfAll(vec[..0]) + FirstCopies(l, 1) == {c};
  }

  /** Where it holds though later copies are outstanding: a single copy that is
      refused first. */
  lemma UnreachedIsLeftAlone(p: CopyParams, rest: seq<Cmd>, hosts: set<HostRes>)
    requires Ready([Copy(p)] + rest, hosts) && p.copy in CopiesOfAll([Copy(p)] + rest) && !p.copy.d2d
    requires !LockDevice(p.copy.hostres.State(), p.copy.c2h).0
    ensures var vec := [Copy(p)] + rest;
            RolledBack(States(hosts), HostsOf(CopiesOfAll(vec)), vec, 0) == {}
  {
    var vec := [Copy(p)] + rest;
    var was, hostOf := States(hosts), HostsOf(CopiesOfAll(vec));
    NothingAsked(was, hostOf, vec);
    GrantedNext(was, hostOf, [], p.copy);
    assert [] + OrderOf(vec[0]) == [] + [p.copy];
  }

  lemma Closing(all: set<CopyCommand>, hostOf: HostOf, was: Snapshot, on: set<CopyCommand>, touched: set<CopyCommand>)
    requires Known(all, hostOf, was) && Flags(all, on - touched) && touched <= all && on <= all
    requires forall h :: h in was ==> Sound(was[h])
    requires forall c :: c in on ==> !c.d2d
    requires touched !! on ==> Books(was, hostOf, {})
    ensures touched !! on <==> States(was.Keys) == was && Scheduled(all) == on
  {
  }

  lemma NothingAsked(was: Snapshot, hostOf: HostOf, vec: seq<Cmd>)
    ensures Order(vec[..0]) == [] && AllGranted(was, hostOf, []) && After(was, hostOf, []) == was
    ensures CopiesOfAll(vec[..0]) == {}
  {
  }

  // A command that is refused ends the preparation of the whole list.
  lemma RefusedAt(was: Snapshot, hostOf: HostOf, vec: seq<Cmd>, i: nat)
    requires i < |vec| && !AllGranted(was, hostOf, Order(vec[..i]) + OrderOf(vec[i]))
    ensures !AllGranted(was, hostOf, Order(vec))
  {
    OrderNext(vec, i);
    OrderPrefix(vec, i + 1);
    var whole, front := Order(vec), Order(vec[..i + 1]);
    if AllGranted(was, hostOf, whole) {
      assert whole == front + whole[|front|..];
      GrantedPrefix(was, hostOf, front, whole[|front|..]);
    }
  }

  method PrepareOrUndo(vec: seq<Cmd>, ghost all: set<CopyCommand>, ghost hostOf: HostOf, ghost was: Snapshot,
                       ghost on: set<CopyCommand>)
    returns (ok: bool, ghost touched: set<CopyCommand>)
    requires |vec| <= U16_MAX && NoCopyTwice(vec) && all == CopiesOfAll(vec)
    requires Known(all, hostOf, was) && Books(was, hostOf, {}) && Flags(all, on) && States(was.Keys) == was
    modifies all, was.Keys
    ensures Known(all, hostOf, was)
    ensures ok == AllGranted(was, hostOf, Order(vec))
    ensures ok ==> Books(was, hostOf, all) && Flags(all, on + all)
    ensures !ok ==> touched == RolledBack(was, hostOf, vec, 0) <= all && Flags(all, on - touched)
    ensures !ok && touched !! on ==> Books(was, hostOf, {})
  {
    hide Books, Known, Flags, States, AllGranted, After, Grant, Order;
    ghost var more;
    NothingAsked(was, hostOf, vec);
    assert vec[..0] == [] && on + {} == on;
    for i := 0 to |vec|
      invariant Known(all, hostOf, was)
      invariant Books(was, hostOf, CopiesOfAll(vec[..i])) && Flags(all, on + CopiesOfAll(vec[..i]))
      invariant AllGranted(was, hostOf, Order(vec[..i])) && States(was.Keys) == After(was, hostOf, Order(vec[..i]))
      invariant RolledBack(was, hostOf, vec, 0) == RolledBack(was, hostOf, vec, i)
    {
      ghost var before := CopiesOfAll(vec[..i]);
      NextCommand(vec, i);
      OrderNext(vec, i);
      ok, more := Prepare(vec[i], all, hostOf, was, before, on + before, Order(vec[..i]));
      if !ok {
        RefusedAt(was, hostOf, vec, i);
        UndoFirst(vec, i, all, hostOf, was, on, more);
        touched := before + more;
        assert on - (before + more) == on + before - more - before;
        return;
      }
      assert on + before + more == on + CopiesOfAll(vec[..i + 1]);
    }
    assert vec[..|vec|] == vec;
    ok, touched := true, all;
  }

  // Second loop of `schedule`: undoes the first `n` commands, last one first.
  method UndoFirst(vec: seq<Cmd>, n: nat, ghost all: set<CopyCommand>, ghost hostOf: HostOf, ghost was: Snapshot,
                   ghost on: set<CopyCommand>, ghost more: set<CopyCommand>)
    requires n < |vec| && NoCopyTwice(vec) && all == CopiesOfAll(vec) && more <= CopiesOf(vec[n])
    requires Known(all, hostOf, was) && Flags(all, on + CopiesOfAll(vec[..n]) - more)
    requires more !! on + CopiesOfAll(vec[..n]) ==> Books(was, hostOf, CopiesOfAll(vec[..n]))
    modifies all, was.Keys
    ensures Known(all, hostOf, was) && Flags(all, on + CopiesOfAll(vec[..n]) - more - CopiesOfAll(vec[..n]))
    ensures CopiesOfAll(vec[..n]) + more !! on ==> Books(was, hostOf, {})
  {
    hide Books, Known, Flags;
    ghost var before := CopiesOfAll(vec[..n]);
    NextCommand(vec, n);
    ghost var rest := before;
    assert on + before - more == on + before - more - (before - rest);
    var i := n;
    while i > 0
      invariant 0 <= i <= n && rest == CopiesOfAll(vec[..i]) <= before
      invariant Known(all, hostOf, was) && Flags(all, on + before - more - (before - rest))
      invariant before + more !! on ==> Books(was, hostOf, rest)
    {
      i := i - 1;
      NextCommand(vec, i);
      ghost var mine, flags := CopiesOf(vec[i]), on + before - more - (before - rest);
      ScheduleDone(vec[i], all, hostOf, was, rest, flags);
      assert rest - mine == CopiesOfAll(vec[..i]);
      assert flags - mine == on + before - more - (before - (rest - mine));
      assert mine <= flags;
      rest := rest - mine;
    }
    assert vec[..0] == [];
    assert on + before - more - (before - {}) == on + before - more - before;
  }

  /** schedule_done of every command, after a failed send. What was prepared is
      given back: every resource is as it was in `was`, and no copy of the list
      is scheduled. */
  method AllDone(vec: seq<Cmd>, ghost hostOf: HostOf, ghost was: Snapshot)
    requires NoCopyTwice(vec)
    requires Known(CopiesOfAll(vec), hostOf, was)
    requires Books(was, hostOf, CopiesOfAll(vec)) && Flags(CopiesOfAll(vec), CopiesOfAll(vec))
    modifies CopiesOfAll(vec), was.Keys
    ensures Known(CopiesOfAll(vec), hostOf, was)
    ensures States(was.Keys) == was && Scheduled(CopiesOfAll(vec)) == {}
  {
    ghost var all := CopiesOfAll(vec);
    DoneInOrder(vec, all, hostOf, was);
    BalancedIff(was, hostOf);
  }

  method DoneInOrder(vec: seq<Cmd>, ghost all: set<CopyCommand>, ghost hostOf: HostOf, ghost was: Snapshot)
    requires NoCopyTwice(vec) && all == CopiesOfAll(vec)
    requires Known(all, hostOf, was) && Books(was, hostOf, all) && Flags(all, all)
    modifies all, was.Keys
    ensures Known(all, hostOf, was) && Books(was, hostOf, {}) && Flags(all, {})
  {
    hide Books, Known, Flags;
    assert vec[..0] == [] && all - {} == all;
    for i := 0 to |vec|
      invariant Known(all, hostOf, was)
      invariant Books(was, hostOf, all - CopiesOfAll(vec[..i])) && Flags(all, all - CopiesOfAll(vec[..i]))
    {
      ghost var left := all - CopiesOfAll(vec[..i]);
      NextCommand(vec, i);
      ScheduleDone(vec[i], all, hostOf, was, left, left);
      assert left - CopiesOf(vec[i]) == all - CopiesOfAll(vec[..i + 1]);
    }
    assert vec[..|vec|] == vec && all - all == {};
  }
}
