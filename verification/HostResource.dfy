/** The reader/writer lock of a host resource (nnpiHostRes), as functions on its
    fields. Each function is one section under the resource's mutex. */
module HostLock {
  /** `readers`: 0 unlocked, -1 locked for write, n > 0 locked by n readers.
      `cpuLocked`: -1 and 1 for a CPU write or read lock.
      `failedOps`: how many failed copies are on record. */
  datatype HostState = HostState(lockless: bool, readers: int, cpuLocked: int, failedOps: int) {
    predicate Broken() {
      failedOps > 0
    }
  }

  datatype LockResult = NoError | NotSupported | InvalidArgument | ContextBroken | DeviceBusy | SyncFailed | TimedOut

  /** What lock_cpu_access waits for. */
  predicate CpuGuard(h: HostState, forWrite: bool) {
    if forWrite then h.readers == 0 else h.readers >= 0
  }

  /** lock_cpu_access once its guard holds. `syncOk` is the outcome of the
      begin-CPU-access ioctl, or true where none is needed. */
  function TakeCpu(h: HostState, forWrite: bool, syncOk: bool): (LockResult, HostState) {
    if h.lockless then (NotSupported, h)
    else if h.Broken() then (ContextBroken, h)
    else if !syncOk then (SyncFailed, h)
    else (NoError, h.(readers := if forWrite then -1 else h.readers + 1,
                      cpuLocked := if forWrite then -1 else 1))
  }

  function ReleaseCpu(h: HostState): (LockResult, HostState) {
    if h.lockless then (NotSupported, h)
    else if h.cpuLocked < 0 then (NoError, h.(readers := 0, cpuLocked := 0))
    else if h.cpuLocked > 0 then (NoError, h.(readers := h.readers - 1, cpuLocked := 0))
    else (InvalidArgument, h)
  }

  function LockDevice(h: HostState, forWrite: bool): (bool, HostState) {
    if h.lockless then (true, h)
    else if forWrite && h.readers == 0 then (true, h.(readers := -1))
    else if !forWrite && h.readers >= 0 then (true, h.(readers := h.readers + 1))
    else (false, h)
  }

  function UnlockDevice(h: HostState, forWrite: bool): HostState {
    if h.lockless then h
    else if forWrite then h.(readers := 0)
    else h.(readers := h.readers - 1)
  }

  function CountFailures(h: HostState, n: int): HostState {
    h.(failedOps := h.failedOps + n)
  }

  /** `readers` is what a lock held by `r` readers and `w` writers shows: a
      writer is alone, and without one the readers are counted. */
  predicate Ledger(readers: int, r: nat, w: nat) {
    && w <= 1
    && (w == 1 ==> r == 0 && readers == -1)
    && (w == 0 ==> readers == r)
  }

  /** A lock attempt succeeds exactly when the new holder may join, and is then
      entered in the ledger; otherwise nothing changes. */
  lemma LockDeviceLedger(h: HostState, forWrite: bool, r: nat, w: nat)
    requires !h.lockless && Ledger(h.readers, r, w)
    ensures var (ok, h') := LockDevice(h, forWrite);
            && (ok <==> w == 0 && (forWrite ==> r == 0))
            && (ok ==> Ledger(h'.readers, if forWrite then r else r + 1, if forWrite then w + 1 else w))
            && (!ok ==> h' == h)
  {
  }

  lemma UnlockDeviceLedger(h: HostState, forWrite: bool, r: nat, w: nat)
    requires !h.lockless && Ledger(h.readers, r, w)
    requires if forWrite then w > 0 else r > 0
    ensures Ledger(UnlockDevice(h, forWrite).readers, if forWrite then r else r - 1, if forWrite then w - 1 else w)
  {
  }
}

module HostResource {
  import opened HostLock

  class HostRes {
    const lockless: bool
    const size: nat
    const syncNeeded: bool
    var readers: int
    var cpuLocked: int
    var failedOps: int

    constructor (lockless: bool, size: nat, syncNeeded: bool)
      ensures State() == HostState(lockless, 0, 0, 0)
      ensures this.lockless == lockless && this.size == size && this.syncNeeded == syncNeeded
    {
      this.lockless, this.size, this.syncNeeded := lockless, size, syncNeeded;
      readers, cpuLocked, failedOps := 0, 0, 0;
    }

    function State(): HostState
      reads this
    {
      HostState(lockless, readers, cpuLocked, failedOps)
    }

    /** lock_cpu_access, its wait being over: either its guard holds or, if the wait
        has a limit, that is reached. The check that no CPU lock is held comes
        before the mutex is taken. `syncOk` is the outcome of the ioctl. */
    method LockCpuAccess(forWrite: bool, timed: bool, syncOk: bool) returns (ret: LockResult)
      requires !lockless && cpuLocked == 0 && !timed ==> CpuGuard(State(), forWrite)
      modifies this`readers, this`cpuLocked
      ensures ret == (if lockless then NotSupported
                      else if old(cpuLocked) != 0 then InvalidArgument
                      else if (if forWrite then old(readers) != 0 else old(readers) < 0) then TimedOut
                      else if failedOps > 0 then ContextBroken
                      else if syncNeeded && !syncOk then SyncFailed
                      else NoError)
      ensures ret != NoError ==> State() == old(State())
      ensures ret == NoError ==>
        && readers == (if forWrite then -1 else old(readers) + 1) && cpuLocked == (if forWrite then -1 else 1)
        && State() == TakeCpu(old(State()), forWrite, true).1
    {
      if lockless {
        return NotSupported;
      }
      if cpuLocked != 0 {
        return InvalidArgument;
      }
      if timed && !CpuGuard(State(), forWrite) {
        return TimedOut;
      }
      if failedOps > 0 {
        return ContextBroken;
      }
      if syncNeeded && !syncOk {
        return SyncFailed;
      }
      ret := NoError;
      if forWrite {
        readers := -1;
      } else {
        readers := readers + 1;
      }
      cpuLocked := if forWrite then -1 else 1;
    }

    /** The lock is given back also if the end-CPU-access ioctl then fails. */
    method UnlockCpuAccess(syncOk: bool) returns (ret: LockResult)
      modifies this`readers, this`cpuLocked
      ensures State() == ReleaseCpu(old(State())).1 && (!lockless ==> cpuLocked == 0)
      ensures ret == (if lockless then NotSupported
                      else if old(cpuLocked) == 0 then InvalidArgument
                      else if syncNeeded && !syncOk then SyncFailed
                      else NoError)
    {
      if lockless {
        return NotSupported;
      }
      ret := NoError;
      if cpuLocked < 0 {
        readers, cpuLocked := 0, 0;
      } else if cpuLocked > 0 {
        readers, cpuLocked := readers - 1, 0;
      } else {
        ret := InvalidArgument;
      }
      if syncNeeded && ret == NoError && !syncOk {
        ret := SyncFailed;
      }
    }

    method LockDeviceAccess(forWrite: bool) returns (ok: bool)
      modifies this`readers
      ensures (ok, State()) == LockDevice(old(State()), forWrite)
      ensures ok <==> lockless || (if forWrite then old(readers) == 0 else old(readers) >= 0)
      ensures readers == if !ok || lockless then old(readers) else if forWrite then -1 else old(readers) + 1
    {
      if lockless {
        return true;
      }
      ok := true;
      if forWrite && readers == 0 {
        readers := -1;
      } else if !forWrite && readers >= 0 {
        readers := readers + 1;
      } else {
        ok := false;
      }
    }

    method UnlockDeviceAccess(forWrite: bool)
      modifies this`readers
      ensures State() == UnlockDevice(old(State()), forWrite)
      ensures readers == if lockless then old(readers) else if forWrite then 0 else old(readers) - 1
    {
      if lockless {
        return;
      }
      if forWrite {
        readers := 0;
      } else {
        readers := readers - 1;
      }
    }

    method UpdateCopyFailCount(n: int)
      modifies this`failedOps
      ensures State() == CountFailures(old(State()), n) && failedOps == old(failedOps) + n
    {
      failedOps := failedOps + n;
    }
  }

  /** The host resources an error list has failed copies of (nnpiExecErrorList). */
  class FailedHosts {
    var failed: seq<HostRes>

    constructor ()
      ensures failed == []
    {
      failed := [];
    }

    method AddFailedHostRes(h: HostRes)
      modifies this, h`failedOps
      ensures failed == old(failed) + [h] && h.State() == CountFailures(old(h.State()), 1)
    {
      failed := failed + [h];
      h.UpdateCopyFailCount(1);
    }

    /** Takes every recorded failure back, each resource as often as it occurs. */
    method ClearFailedHostRes()
      modifies this, set h | h in failed
      ensures failed == []
      ensures forall h :: h in old(failed) ==>
        CountFailures(h.State(), multiset(old(failed))[h]) == old(h.State())
    {
      for i := 0 to |failed|
        invariant failed == old(failed)
        invariant forall h :: h in failed ==>
          CountFailures(h.State(), multiset(failed[..i])[h]) == old(h.State())
      {
        failed[i].UpdateCopyFailCount(-1);
        assert failed[..i + 1] == failed[..i] + [failed[i]];
      }
      assert failed[..|failed|] == failed;
      failed := [];
    }
  }
}

/** A copy command's scheduling state (nnpiCopyCommand). */
module CopyCommands {
  import opened Bytes
  import opened HostLock
  import opened HostResource

  class CopyCommand {
    const id: u16
    const c2h: bool
    const d2d: bool
    const isSubres: bool
    const needPrepare: bool
    const maxSize: u64
    var hostres: HostRes?
    var scheduled: bool

    /** Between host resource and device resource; a lockless resource needs no
        preparation. */
    constructor (id: u16, host: HostRes, c2h: bool, devSize: u64)
      ensures Valid() && !scheduled && hostres == host
      ensures this.id == id && this.c2h == c2h && !d2d && !isSubres && needPrepare == !host.lockless
      ensures maxSize <= host.size && maxSize <= devSize && (maxSize == host.size || maxSize == devSize)
    {
      this.id, this.c2h, d2d, isSubres := id, c2h, false, false;
      needPrepare := !host.lockless;
      maxSize := if host.size <= devSize then host.size else devSize;
      hostres, scheduled := host, false;
    }

    constructor Subres(id: u16)
      ensures Valid() && !scheduled && hostres == null
      ensures this.id == id && !c2h && !d2d && isSubres && needPrepare
    {
      this.id, c2h, d2d, isSubres, needPrepare, maxSize := id, false, false, true, true, 0;
      hostres, scheduled := null, false;
    }

    constructor D2d(id: u16, srcSize: u64, dstSize: u64)
      ensures Valid() && !scheduled && hostres == null
      ensures this.id == id && c2h && d2d && !isSubres && !needPrepare
      ensures maxSize <= srcSize && maxSize <= dstSize && (maxSize == srcSize || maxSize == dstSize)
    {
      this.id, c2h, d2d, isSubres, needPrepare := id, true, true, false, false;
      maxSize := if srcSize <= dstSize then srcSize else dstSize;
      hostres, scheduled := null, false;
    }

    /** A host resource is attached for good, or to a subresource copy for as
        long as it is scheduled. */
    ghost predicate Valid()
      reads this
    {
      && (d2d ==> !scheduled && !isSubres && !needPrepare && hostres == null)
      && (!d2d && !isSubres ==> hostres != null && (!needPrepare ==> hostres.lockless))
      && (isSubres ==> (scheduled <==> hostres != null))
    }

    ghost function HostObject(): set<object>
      reads this
    {
      if hostres == null then {} else {hostres}
    }

    method PreSchedule() returns (ok: bool)
      requires Valid() && !isSubres
      modifies this`scheduled, HostObject()
      ensures Valid() && hostres == old(hostres)
      ensures d2d ==> ok && !scheduled
      ensures !d2d ==> (ok, hostres.State()) == LockDevice(old(hostres.State()), c2h)
      ensures !d2d ==> scheduled == (ok || old(scheduled))
    {
      if d2d {
        return true;
      }
      ok := hostres.LockDeviceAccess(c2h);
      if ok {
        scheduled := true;
      }
    }

    /** preSchedule on a given resource, and its attachment to the copy. */
    method PreScheduleOn(host: HostRes) returns (ok: bool)
      requires Valid() && isSubres && !scheduled
      modifies this`scheduled, this`hostres, host`readers
      ensures Valid() && scheduled == ok && (ok ==> hostres == host)
      ensures (ok, host.State()) == LockDevice(old(host.State()), c2h)
    {
      ok := host.LockDeviceAccess(c2h);
      if ok {
        scheduled := true;
        hostres := host;
      }
    }

    /** Undoes a successful preSchedule, once: a copy that is not scheduled is
        left alone. A failure is recorded before the lock is released. */
    method PostSchedule(errors: FailedHosts?)
      requires Valid()
      modifies this`scheduled, this`hostres, HostObject(), errors
      ensures Valid() && !scheduled
      ensures !old(scheduled) ==>
        && hostres == old(hostres)
        && (hostres != null ==> hostres.State() == old(hostres.State()))
        && (errors != null ==> errors.failed == old(errors.failed))
      ensures old(scheduled) ==>
        && hostres == (if isSubres then null else old(hostres))
        && (errors != null ==> errors.failed == old(errors.failed) + [old(hostres)])
        && old(hostres).State() ==
           UnlockDevice(CountFailures(old(hostres.State()), if errors != null then 1 else 0), c2h)
    {
      if !scheduled {
        return;
      }
      scheduled := false;
      if d2d {
        return;
      }
      if errors != null {
        errors.AddFailedHostRes(hostres);
      }
      if isSubres {
        var host := hostres;
        hostres := null;
        host.UnlockDeviceAccess(c2h);
      } else {
        hostres.UnlockDeviceAccess(c2h);
      }
    }
  }
}
