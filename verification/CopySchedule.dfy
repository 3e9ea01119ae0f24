/** Scheduling a single copy (nnpiCopyCommand::schedule and
    nnpiInfContext::scheduleCopy). */
module CopySchedule {
  import opened Bytes
  import opened Channel
  import HostLock
  import opened CopyCommands

  datatype Status = NoError | ContextBroken | InvalidArgument | HostResBroken | DeviceBusy | IoError

  /** The two forms of the message: the short one has 30 bits for the size and two
      for the priority. */
  datatype CopyMsg =
    | Short(copyId: u16, size30: nat, priority2: nat)
    | Large(copyId: u16, size: u64, priority: u8)

  /** What a message asks for, its fields cut to their widths. */
  function Asks(m: CopyMsg): (u16, u64, u8) {
    match m
    case Short(id, size, priority) => (id, size % 0x4000_0000, priority % 4)
    case Large(id, size, priority) => (id, size, priority)
  }

  // Chooses the short form if nothing is cut off in it.
  method Send(chan: Chan<CopyMsg>, id: u16, size: u64, priority: u8) returns (ret: Status)
    modifies chan
    ensures ret == NoError ==>
      && chan.log == old(chan.log) +
           [if size < 0x4000_0000 && priority < 4 then Short(id, size, priority) else Large(id, size, priority)]
      && Asks(chan.log[old(|chan.log|)]) == (id, size, priority)
    ensures ret != NoError ==> chan.log == old(chan.log)
    ensures ret == (if chan.refusals > old(chan.refusals) then ContextBroken
                    else if chan.failures > old(chan.failures) then IoError else NoError)
    ensures chan.refusals >= old(chan.refusals) && chan.failures >= old(chan.failures)
  {
    var fit := chan.Fit();
    if !fit {
      return ContextBroken;
    }
    var ok;
    if size <= 0x3fff_ffff && priority <= 3 {
      ok := chan.Write(Short(id, size, priority));
    } else {
      ok := chan.Write(Large(id, size, priority));
    }
    ret := if ok then NoError else IoError;
  }

  /** The size that is asked for; 0 stands for the largest possible. */
  function Requested(c: CopyCommand, size: u64): u64 {
    if size == 0 then c.maxSize else size
  }

  /** Refused for a context that is not fit, else for the first of the reasons in
      the code's order. A successful call has the copy's device lock taken and the
      card asked for exactly this copy. A failed one leaves channel and resource as
      they were; the mark of a copy that was not outstanding before is off again. */
  method Schedule(c: CopyCommand, chan: Chan<CopyMsg>, size: u64, priority: u8) returns (ret: Status)
    requires c.Valid() && !c.isSubres
    modifies c, c.HostObject(), chan
    ensures c.Valid() && c.hostres == old(c.hostres)
    ensures ret == (if chan.refusals > old(chan.refusals) then ContextBroken
                    else if size > c.maxSize then InvalidArgument
                    else if !c.d2d && old(c.hostres.failedOps) > 0 then HostResBroken
                    else if !c.d2d && !HostLock.LockDevice(old(c.hostres.State()), c.c2h).0 then DeviceBusy
                    else if chan.failures > old(chan.failures) then IoError
                    else NoError)
    ensures ret == NoError ==>
      && |chan.log| == old(|chan.log|) + 1 && chan.log[..old(|chan.log|)] == old(chan.log)
      && Asks(chan.log[old(|chan.log|)]) == (c.id, if size > 0 then size else c.maxSize, priority)
      && (chan.log[old(|chan.log|)].Short? <==> (if size > 0 then size else c.maxSize) < 0x4000_0000 && priority < 4)
    ensures ret == NoError && !c.d2d ==>
      c.scheduled && (true, c.hostres.State()) == HostLock.LockDevice(old(c.hostres.State()), c.c2h)
    ensures ret != NoError ==>
      && chan.log == old(chan.log)
      && (c.hostres != null ==> c.hostres.State() == old(c.hostres.State()))
      && (!old(c.scheduled) ==> !c.scheduled)
  {
    var can := chan.Fit();
    if !can {
      return ContextBroken;
    }
    var n := Requested(c, size);
    if n > c.maxSize {
      return InvalidArgument;
    }
    if !c.d2d && c.hostres.failedOps > 0 {
      return HostResBroken;
    }
    var ok := c.PreSchedule();
    if !ok {
      return DeviceBusy;
    }
    ret := Send(chan, c.id, n, priority);
    if !c.d2d && ret != NoError {
      c.PostSchedule(null);
    }
  }
}
