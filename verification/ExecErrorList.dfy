/** The execution error list: reassembling it from packets and reading it
    (nnpiExecErrorList). */
module ErrorRecords {
  import opened Bytes

  const HEADER: nat := 11

  /** A descriptor (ipc_exec_error_desc) and the message that follows it. */
  datatype ExecError = ExecError(cmdType: u8, objId: u16, devnetId: u16, eventVal: u16, msg: seq<byte>)

  function EncodeError(e: ExecError): (s: seq<byte>)
    requires |e.msg| < 0x1_0000_0000
    ensures |s| == HEADER + |e.msg|
  {
    [e.cmdType] + U16(e.objId) + U16(e.devnetId) + U16(e.eventVal) + U32(|e.msg|) + e.msg
  }

  /** Where each field of a descriptor is, and the message behind it. */
  lemma ErrorLayout(e: ExecError)
    requires |e.msg| < 0x1_0000_0000
    ensures var s := EncodeError(e);
            && s[0] == e.cmdType && Little(s[1..3]) == e.objId && Little(s[3..5]) == e.devnetId
            && Little(s[5..7]) == e.eventVal && Little(s[7..11]) == |e.msg| && s[11..] == e.msg
  {
    hide U16, U32, Little;
    var s := EncodeError(e);
    LittleEndian16(e.objId);
    LittleEndian16(e.devnetId);
    LittleEndian16(e.eventVal);
    LittleEndian32(|e.msg|);
    assert s[1..3] == U16(e.objId) && s[3..5] == U16(e.devnetId) && s[5..7] == U16(e.eventVal) && s[7..11] == U32(|e.msg|);
  }

  ghost predicate Encodable(errs: seq<ExecError>) {
    forall e :: e in errs ==> |e.msg| < 0x1_0000_0000
  }

  function EncodeErrors(errs: seq<ExecError>): seq<byte>
    requires Encodable(errs)
  {
    if errs == [] then [] else EncodeError(errs[0]) + EncodeErrors(errs[1..])
  }

  function MsgSize(data: seq<byte>, d: nat): u32
    requires d + HEADER <= |data|
  {
    GetU32(data[d + 7..])
  }

  /** A whole record lies at position `d`. */
  predicate RecordAt(data: seq<byte>, d: nat) {
    d + HEADER <= |data| && d + HEADER + MsgSize(data, d) <= |data|
  }

  function ErrorAt(data: seq<byte>, d: nat): ExecError
    requires RecordAt(data, d)
  {
    ExecError(data[d], GetU16(data[d + 1..]), GetU16(data[d + 3..]), GetU16(data[d + 5..]),
              data[d + HEADER..d + HEADER + MsgSize(data, d)])
  }

  /** From `pos` on the data is a sequence of whole records. */
  predicate WellFormed(data: seq<byte>, pos: nat)
    decreases |data| - pos
  {
    pos == |data| || (RecordAt(data, pos) && WellFormed(data, pos + HEADER + MsgSize(data, pos)))
  }

  /** The positions of the records from `pos` on. */
  function Positions(data: seq<byte>, pos: nat): seq<nat>
    decreases |data| - pos
  {
    if pos >= |data| || !RecordAt(data, pos) then []
    else [pos] + Positions(data, pos + HEADER + MsgSize(data, pos))
  }

  ghost predicate AllRecordsAt(data: seq<byte>, ds: seq<nat>) {
    forall k :: 0 <= k < |ds| ==> RecordAt(data, ds[k])
  }

  function ErrorsAt(data: seq<byte>, ds: seq<nat>): (errs: seq<ExecError>)
    requires AllRecordsAt(data, ds)
    ensures |errs| == |ds| && forall k :: 0 <= k < |ds| ==> errs[k] == ErrorAt(data, ds[k])
  {
    seq(|ds|, k requires 0 <= k < |ds| => ErrorAt(data, ds[k]))
  }

  lemma {:induction false} PositionsAreRecords(data: seq<byte>, pos: nat)
    ensures AllRecordsAt(data, Positions(data, pos))
    decreases |data| - pos
  {
    if pos < |data| && RecordAt(data, pos) {
      PositionsAreRecords(data, pos + HEADER + MsgSize(data, pos));
    }
  }

  lemma FirstRecord(before: seq<byte>, e: ExecError, rest: seq<byte>)
    requires |e.msg| < 0x1_0000_0000
    ensures var data := before + EncodeError(e) + rest;
            && RecordAt(data, |before|) && MsgSize(data, |before|) == |e.msg|
            && ErrorAt(data, |before|) == e
  {
  }

  /** Reading an encoded list gives the list. */
  lemma {:induction false} ErrorsRoundTrip(before: seq<byte>, errs: seq<ExecError>)
    requires Encodable(errs)
    ensures var data := before + EncodeErrors(errs);
            && WellFormed(data, |before|)
            && AllRecordsAt(data, Positions(data, |before|))
            && ErrorsAt(data, Positions(data, |before|)) == errs
    decreases |errs|
  {
    hide RecordAt, ErrorAt, MsgSize, EncodeError;
    var data := before + EncodeErrors(errs);
    PositionsAreRecords(data, |before|);
    if errs == [] {
      assert data == before;
    } else {
      var before' := before + EncodeError(errs[0]);
      assert data == before' + EncodeErrors(errs[1..]);
      FirstRecord(before, errs[0], EncodeErrors(errs[1..]));
      ErrorsRoundTrip(before', errs[1..]);
    }
  }
}

module ExecErrorList {
  import opened Bytes
  import opened Options
  import opened ErrorRecords
  import opened HostResource

  datatype QueryState = Cleared | QueryStarted | Completed

  const NO_MEMORY: u16 := 8

  /** The list as a value. `capacity` is the size of the buffer, if there is one;
      `data` what it holds so far; `descs` where the descriptors are in it. */
  datatype ListV = ListV(capacity: Option<nat>, data: seq<byte>, eventVal: u16, state: QueryState, descs: seq<nat>)

  const EMPTY: ListV := ListV(None, [], 0, Cleared, [])

  function StartV(v: ListV): ListV {
    v.(eventVal := 0, state := QueryStarted)
  }

  function CompleteV(v: ListV, eventVal: u16): ListV {
    v.(state := Completed, eventVal := eventVal,
       descs := v.descs + if eventVal == 0 then Positions(v.data, 0) else [])
  }

  // The first packet allocates the buffer, if there is memory for it.
  function AllocateV(v: ListV, total: nat, memory: bool): ListV {
    if v.capacity.None? && memory then v.(capacity := Some(total)) else v
  }

  predicate Fits(v: ListV, packet: seq<byte>) {
    v.capacity.Some? && |v.data| + |packet| <= v.capacity.value
  }

  /** appendErrorListPacket; an empty packet stands for an error report. */
  function AppendV(v: ListV, packet: seq<byte>, total: u16, errorVal: u16, memory: bool): ListV {
    if v.state != QueryStarted then v
    else if packet == [] then CompleteV(v, errorVal)
    else
      var w := AllocateV(v, total, memory);
      if !Fits(w, packet) then CompleteV(w, NO_MEMORY)
      else
        var w' := w.(data := w.data + packet);
        if |w'.data| == total then CompleteV(w', 0) else w'
  }

  /** The bytes that the packet makes the list parse, if any. */
  function Parsed(v: ListV, packet: seq<byte>, total: u16, errorVal: u16, memory: bool): Option<seq<byte>> {
    if v.state != QueryStarted then None
    else if packet == [] then if errorVal == 0 then Some(v.data) else None
    else if Fits(AllocateV(v, total, memory), packet) && |v.data| + |packet| == total then Some(v.data + packet)
    else None
  }

  class ErrorList {
    const hosts: FailedHosts
    var buf: array?<byte>
    var size: nat
    var eventVal: u16
    var state: QueryState
    var descs: seq<nat>

    constructor ()
      ensures Valid() && V() == EMPTY && state == Cleared && fresh(hosts) && hosts.failed == []
    {
      hosts := new FailedHosts();
      buf, size, eventVal, state, descs := null, 0, 0, Cleared, [];
    }

    ghost predicate Valid()
      reads this, buf
    {
      && (if buf == null then size == 0 else size <= buf.Length)
      && AllRecordsAt(V().data, descs)
    }

    ghost function V(): ListV
      requires if buf == null then size == 0 else size <= buf.Length
      reads this, buf
    {
      if buf == null then ListV(None, [], eventVal, state, descs)
      else ListV(Some(buf.Length), buf[..size], eventVal, state, descs)
    }

    /** The errors a user sees. */
    ghost function Errors(): seq<ExecError>
      requires Valid()
      reads this, buf
    {
      ErrorsAt(V().data, descs)
    }

    method Clear()
      modifies this
      ensures Valid() && V() == EMPTY
      ensures buf == null && size == 0 && descs == [] && eventVal == 0 && state == Cleared
    {
      buf, size, eventVal, state, descs := null, 0, 0, Cleared, [];
    }

    method StartQuery()
      requires Valid()
      modifies this`eventVal, this`state
      ensures Valid() && V() == StartV(old(V())) && eventVal == 0 && state == QueryStarted
    {
      eventVal := 0;
      state := QueryStarted;
    }

    method MsgSizeAt(d: nat) returns (n: u32)
      requires Valid() && RecordAt(V().data, d)
      ensures n == MsgSize(V().data, d)
    {
      assert buf[d + 7..size] == V().data[d + 7..];
      n := GetU32(buf[d + 7..size]);
    }

    /** The parse loop, and the completion of the query. */
    method CompleteQuery(val: u16)
      requires Valid() && (val == 0 ==> WellFormed(V().data, 0))
      modifies this`descs, this`state, this`eventVal
      ensures Valid() && V() == CompleteV(old(V()), val) && state == Completed && eventVal == val
    {
      hide Positions, WellFormed, RecordAt, MsgSize, AllRecordsAt;
      ghost var v := V();
      if val == 0 {
        ParseAll(v.data);
        ghost var all := Positions(v.data, 0);
        var pos := 0;
        while pos < size
          invariant pos <= size && WellFormed(v.data, pos)
          invariant v.descs + all == descs + Positions(v.data, pos)
          invariant V() == v.(descs := descs) && AllRecordsAt(v.data, descs)
          decreases size - pos
        {
          ParseNext(v.data, pos, descs);
          var msgSize := MsgSizeAt(pos);
          descs := descs + [pos];
          pos := pos + HEADER;
          pos := pos + msgSize;
        }
      }
      state, eventVal := Completed, val;
    }

    /** A complete list sent by the card is assumed to be well formed. */
    method AppendErrorListPacket(packet: seq<byte>, total: u16, errorVal: u16, memory: bool)
      requires Valid() && |packet| <= PAGE_SIZE
      requires Parsed(V(), packet, total, errorVal, memory).Some? ==>
        WellFormed(Parsed(V(), packet, total, errorVal, memory).value, 0)
      modifies this, buf
      ensures Valid() && V() == AppendV(old(V()), packet, total, errorVal, memory)
      ensures old(state) != QueryStarted ==> V() == old(V())
      ensures old(state) == QueryStarted && packet == [] ==>
        && state == Completed && eventVal == errorVal && V().data == old(V().data) && V().capacity == old(V().capacity)
        && descs == old(descs) + if errorVal == 0 then Positions(V().data, 0) else []
      ensures old(state) == QueryStarted && packet != [] && old(buf) == null && !memory ==>
        state == Completed && eventVal == 8 && V().data == [] && buf == null && descs == old(descs)
      ensures old(state) == QueryStarted && packet != [] && (old(buf) != null || memory) ==>
        var room := if old(buf) == null then total else old(buf.Length);
        && buf != null && buf.Length == room && (old(buf) != null ==> buf == old(buf))
        && (old(size) + |packet| > room ==>
              state == Completed && eventVal == 8 && V().data == old(V().data) && descs == old(descs))
        && (old(size) + |packet| <= room ==>
              && V().data == old(V().data) + packet
              && (if old(size) + |packet| == total
                  then state == Completed && eventVal == 0 && descs == old(descs) + Positions(V().data, 0)
                  else state == QueryStarted && eventVal == old(eventVal) && descs == old(descs)))
    {
      if state != QueryStarted {
        return;
      }
      if |packet| > 0 {
        ghost var v := V();
        if buf == null && memory {
          buf := new byte[total];
        }
        assert V() == AllocateV(v, total, memory);
        if buf != null && size + |packet| <= buf.Length {
          Store(buf, size, packet);
          assert buf[..size + |packet|] == v.data + packet;
          PrefixRecords(v.data, packet, descs);
          size := size + |packet|;
          if size == total {
            CompleteQuery(0);
          }
        } else {
          CompleteQuery(NO_MEMORY);
        }
      } else {
        CompleteQuery(errorVal);
      }
    }

    /** The card has dropped its errors: nothing is left of the list, and every
        failed copy it has on record is taken back. */
    method ClearRequestSucceeded()
      modifies this, hosts, set h | h in hosts.failed
      ensures Valid() && V() == EMPTY.(state := Completed) && hosts.failed == []
      ensures buf == null && size == 0 && descs == [] && eventVal == 0 && state == Completed
      ensures forall h :: h in old(hosts.failed) ==>
        h.failedOps + multiset(old(hosts.failed))[h] == old(h.failedOps)
    {
      Clear();
      hosts.ClearFailedHostRes();
      state, eventVal := Completed, 0;
    }

    /** The message is copied out if the buffer has room for it. */
    method GetErrorMessage(idx: nat, dst: array?<byte>, dstSize: nat) returns (ok: bool, outSize: u32)
      requires Valid() && dst != null ==> dst != buf && dstSize <= dst.Length
      requires Valid()
      modifies dst
      ensures ok == (idx < |Errors()| && Errors()[idx].msg != [])
      ensures ok ==> outSize == |Errors()[idx].msg|
      ensures dst != null ==>
        dst[..] == if ok && outSize <= dstSize then Splice(old(dst[..]), 0, Errors()[idx].msg) else old(dst[..])
    {
      outSize := 0;
      if idx >= |descs| {
        return false, 0;
      }
      var d := descs[idx];
      assert RecordAt(V().data, d) && Errors()[idx] == ErrorAt(V().data, d);
      var msgSize := MsgSizeAt(d);
      if msgSize == 0 {
        return false, 0;
      }
      outSize := msgSize;
      if dst != null && dstSize > 0 {
        if dstSize >= msgSize {
          assert buf[d + HEADER..d + HEADER + msgSize] == Errors()[idx].msg;
          Store(dst, 0, buf[d + HEADER..d + HEADER + msgSize]);
        }
      }
      ok := true;
    }
  }

  lemma ParseAll(data: seq<byte>)
    ensures Positions(data, |data|) == []
  {
  }

  lemma ParseNext(data: seq<byte>, pos: nat, ds: seq<nat>)
    requires WellFormed(data, pos) && pos < |data| && AllRecordsAt(data, ds)
    ensures RecordAt(data, pos) && pos + HEADER + MsgSize(data, pos) <= |data|
    ensures WellFormed(data, pos + HEADER + MsgSize(data, pos)) && AllRecordsAt(data, ds + [pos])
    ensures Positions(data, pos) == [pos] + Positions(data, pos + HEADER + MsgSize(data, pos))
  {
  }

  lemma PrefixRecords(data: seq<byte>, more: seq<byte>, ds: seq<nat>)
    requires AllRecordsAt(data, ds)
    ensures AllRecordsAt(data + more, ds)
  {
  }

  // ----- Whole queries -----

  /** The packets of one answer, with memory for them. */
  function RunPackets(v: ListV, packets: seq<seq<byte>>, total: u16): ListV {
    if packets == [] then v
    else AppendV(RunPackets(v, packets[..|packets| - 1], total), packets[|packets| - 1], total, 0, true)
  }

  /** A list that was never filled, or was cleared. */
  predicate Fresh(v: ListV) {
    v.capacity.None? && v.data == [] && v.descs == []
  }

  ghost predicate NonEmpty(packets: seq<seq<byte>>) {
    forall k :: 0 <= k < |packets| ==> packets[k] != []
  }

  lemma {:induction false} FlattenGrows(packets: seq<seq<byte>>, k: nat)
    requires NonEmpty(packets) && k < |packets|
    ensures |Flatten(packets[..k])| < |Flatten(packets)|
    decreases |packets|
  {
    var n := |packets| - 1;
    if k < n {
      FlattenGrows(packets[..n], k);
      assert packets[..n][..k] == packets[..k];
    }
  }

  // ----- Queries of a list in any state -----

  /** What every list looks like: without a buffer it is empty. */
  ghost predicate Shape(v: ListV) {
    && (if v.capacity.None? then v.data == [] else |v.data| <= v.capacity.value)
    && AllRecordsAt(v.data, v.descs)
  }

  /** The room for an answer of `total` bytes: that of the first answer. */
  function Room(v: ListV, total: u16): nat {
    if v.capacity.None? then total else v.capacity.value
  }

  /** The bytes that the list has when `k` packets have been appended. */
  function Size(v: ListV, packets: seq<seq<byte>>, k: nat): nat
    requires k <= |packets|
  {
    |v.data| + |Flatten(packets[..k])|
  }

  /** The query is completed by packet `k`, for lack of room or as complete. */
  predicate Stops(v: ListV, packets: seq<seq<byte>>, total: u16, k: nat)
    requires k <= |packets|
  {
    k > 0 && (Size(v, packets, k) > Room(v, total) || Size(v, packets, k) == total)
  }

  function Running(v: ListV, packets: seq<seq<byte>>, total: u16, k: nat): ListV
    requires k <= |packets|
  {
    ListV(if k == 0 then v.capacity else Some(Room(v, total)), v.data + Flatten(packets[..k]), 0, QueryStarted, v.descs)
  }

  lemma SizesGrow(v: ListV, packets: seq<seq<byte>>, j: nat, k: nat)
    requires NonEmpty(packets) && j < k <= |packets|
    ensures Size(v, packets, j) < Size(v, packets, k)
  {
    assert packets[..k][..j] == packets[..j];
    FlattenGrows(packets[..k], j);
  }

  /** The first `k` packets complete the list, before anything else does. */
  ghost predicate CompleteBy(v: ListV, packets: seq<seq<byte>>, total: u16, k: nat)
    requires k <= |packets|
  {
    exists j :: 0 < j <= k && Size(v, packets, j) == total <= Room(v, total)
  }

  lemma {:induction false} RunsOn(v: ListV, packets: seq<seq<byte>>, total: u16, k: nat)
    requires Shape(v) && NonEmpty(packets) && k <= |packets|
    ensures var w := RunPackets(StartV(v), packets[..k], total);
            && (if exists j :: 0 < j <= k && Stops(v, packets, total, j) then w.state == Completed
                else w == Running(v, packets, total, k))
            && (w.state == Completed && w.eventVal == 0 <==> CompleteBy(v, packets, total, k))
  {
    hide RunPackets, Shape;
    if k == 0 {
      NoPackets(v, packets, total);
    } else {
      RunsOn(v, packets, total, k - 1);
      OnePacket(v, packets, total, k);
      if Stops(v, packets, total, k) {
        forall j | 0 < j < k
          ensures Size(v, packets, j) < Size(v, packets, k)
        {
          SizesGrow(v, packets, j, k);
        }
      }
    }
  }

  lemma NoPackets(v: ListV, packets: seq<seq<byte>>, total: u16)
    ensures RunPackets(StartV(v), packets[..0], total) == Running(v, packets, total, 0)
  {
    assert packets[..0] == [] && v.data + [] == v.data;
  }

  // Packet `k` of an answer.
  lemma OnePacket(v: ListV, packets: seq<seq<byte>>, total: u16, k: nat)
    requires Shape(v) && NonEmpty(packets) && 0 < k <= |packets|
    ensures var before, w := RunPackets(StartV(v), packets[..k - 1], total), RunPackets(StartV(v), packets[..k], total);
            && (before.state == Completed ==> w == before)
            && (before == Running(v, packets, total, k - 1) ==>
                  if Stops(v, packets, total, k)
                  then w.state == Completed && (w.eventVal == 0 <==> Size(v, packets, k) == total <= Room(v, total))
                       && (w.eventVal == 0 ==> w == CompleteV(Running(v, packets, total, k), 0))
                  else w == Running(v, packets, total, k))
  {
    var p := packets[..k];
    assert p[..k - 1] == packets[..k - 1] && p[k - 1] == packets[k - 1];
    assert Flatten(p) == Flatten(p[..k - 1]) + p[k - 1];
    assert v.data + Flatten(p) == v.data + Flatten(p[..k - 1]) + p[k - 1];
  }

  /** Every list that a query is started on: the query completes without an error
      if and only if some first packets together with what the list still has
      are as long as the announced answer, and the buffer has room for them. */
  lemma AnsweredIff(v: ListV, packets: seq<seq<byte>>, total: u16)
    requires Shape(v) && NonEmpty(packets)
    ensures var w := RunPackets(StartV(v), packets, total);
            w.state == Completed && w.eventVal == 0 <==> CompleteBy(v, packets, total, |packets|)
  {
    RunsOn(v, packets, total, |packets|);
    assert packets[..|packets|] == packets;
  }

  /** The query runs up to the last packet and completes on it without an error. */
  ghost predicate AnsweredInFull(v: ListV, packets: seq<seq<byte>>, total: u16) {
    && (forall k :: 0 <= k < |packets| ==> RunPackets(StartV(v), packets[..k], total).state == QueryStarted)
    && RunPackets(StartV(v), packets, total).state == Completed
    && RunPackets(StartV(v), packets, total).eventVal == 0
  }

  lemma InFull(v: ListV, packets: seq<seq<byte>>, total: u16)
    requires Shape(v) && NonEmpty(packets) && |Flatten(packets)| == total > 0
    ensures AnsweredInFull(v, packets, total) <==> v.data == [] && total <= Room(v, total)
  {
    hide RunPackets, Shape, Stops;
    var n := |packets|;
    assert packets[..n] == packets;
    RunsOn(v, packets, total, n);
    forall k | 0 <= k < n
      ensures RunPackets(StartV(v), packets[..k], total).state == QueryStarted <==>
              !exists j :: 0 < j <= k && Stops(v, packets, total, j)
    {
      RunsOn(v, packets, total, k);
    }
    forall j | 0 < j < n
      ensures Stops(v, packets, total, j) <==> Size(v, packets, j) > Room(v, total) || Size(v, packets, j) == total
      ensures Size(v, packets, j) < Size(v, packets, n)
    {
      SizesGrow(v, packets, j, n);
      StopsWhen(v, packets, total, j);
    }
  }

  lemma StopsWhen(v: ListV, packets: seq<seq<byte>>, total: u16, k: nat)
    requires 0 < k <= |packets|
    ensures Stops(v, packets, total, k) <==> Size(v, packets, k) > Room(v, total) || Size(v, packets, k) == total
  {
  }

  // The last packet of a whole answer.
  lemma LastPacket(v: ListV, packets: seq<seq<byte>>, total: u16)
    requires Shape(v) && NonEmpty(packets) && |Flatten(packets)| == total > 0 && AnsweredInFull(v, packets, total)
    ensures RunPackets(StartV(v), packets, total) == CompleteV(Running(v, packets, total, |packets|), 0)
    ensures packets != [] && packets[..|packets|] == packets
  {
    hide RunPackets, Shape, Stops, CompleteV;
    var n := |packets|;
    assert packets[..n] == packets;
    RunsOn(v, packets, total, n - 1);
    OnePacket(v, packets, total, n);
  }

  // The list after a whole answer.
  lemma ShowsAnswer(v: ListV, packets: seq<seq<byte>>, errs: seq<ExecError>)
    requires Shape(v) && v.data == [] && Encodable(errs) && NonEmpty(packets)
    requires Flatten(packets) == EncodeErrors(errs) && 0 < |EncodeErrors(errs)| <= U16_MAX
    requires AnsweredInFull(v, packets, |EncodeErrors(errs)|)
    ensures var w := RunPackets(StartV(v), packets, |EncodeErrors(errs)|);
            && WellFormed(w.data, 0) && w.capacity == Some(Room(v, |EncodeErrors(errs)|)) && w.data == EncodeErrors(errs)
            && AllRecordsAt(w.data, w.descs) && ErrorsAt(w.data, w.descs) == errs
  {
    RecordsNeedBytes(v.data, v.descs);
    hide EncodeErrors, RunPackets, AllRecordsAt, WellFormed, Shape, AnsweredInFull, Flatten, NonEmpty, ErrorsAt, CompleteV;
    LastPacket(v, packets, |EncodeErrors(errs)|);
    assert v.data + Flatten(packets) == Flatten(packets);
    CompleteShows(Running(v, packets, |EncodeErrors(errs)|, |packets|), errs);
  }

  lemma CompleteShows(v: ListV, errs: seq<ExecError>)
    requires Encodable(errs) && v.data == EncodeErrors(errs) && v.descs == []
    ensures var w := CompleteV(v, 0);
            && WellFormed(w.data, 0) && w.capacity == v.capacity && w.data == v.data
            && AllRecordsAt(w.data, w.descs) && ErrorsAt(w.data, w.descs) == errs
  {
    hide Positions, EncodeErrors, RecordAt, AllRecordsAt, WellFormed, ErrorsAt;
    ErrorsRoundTrip([], errs);
    var data := EncodeErrors(errs);
    assert [] + data == data && [] + Positions(data, 0) == Positions(data, 0);
  }

  lemma RecordsNeedBytes(data: seq<byte>, ds: seq<nat>)
    requires AllRecordsAt(data, ds)
    ensures ds == [] || |data| >= HEADER
  {
    if ds != [] {
      assert RecordAt(data, ds[0]);
    }
  }

  /** However a list is split into nonempty packets, a cleared and started query
      completes on the last of them, without error, and shows exactly the list. */
  lemma QueryRoundTrip(v: ListV, packets: seq<seq<byte>>, errs: seq<ExecError>)
    requires Fresh(v) && Encodable(errs) && NonEmpty(packets)
    requires Flatten(packets) == EncodeErrors(errs) && 0 < |EncodeErrors(errs)| <= U16_MAX
    ensures AnsweredInFull(v, packets, |EncodeErrors(errs)|)
    ensures var w := RunPackets(StartV(v), packets, |EncodeErrors(errs)|);
            && WellFormed(w.data, 0) && w.capacity == Some(|w.data|)
            && AllRecordsAt(w.data, w.descs) && ErrorsAt(w.data, w.descs) == errs
  {
    InFull(v, packets, |EncodeErrors(errs)|);
    ShowsAnswer(v, packets, errs);
  }

  /** A list has to be cleared before a query: whatever state an earlier query has
      left it in, a whole answer is taken in if and only if the list is empty and
      an old buffer is large enough. Then exactly the sent errors are shown. */
  lemma QueryNeedsClear(v: ListV, packets: seq<seq<byte>>, errs: seq<ExecError>)
    requires Shape(v) && Encodable(errs) && NonEmpty(packets)
    requires Flatten(packets) == EncodeErrors(errs) && 0 < |EncodeErrors(errs)| <= U16_MAX
    ensures var total := |EncodeErrors(errs)|;
            AnsweredInFull(v, packets, total) <==> v.data == [] && total <= Room(v, total)
    ensures var w := RunPackets(StartV(v), packets, |EncodeErrors(errs)|);
            AnsweredInFull(v, packets, |EncodeErrors(errs)|) ==>
              WellFormed(w.data, 0) && AllRecordsAt(w.data, w.descs) && ErrorsAt(w.data, w.descs) == errs
  {
    hide AnsweredInFull, Positions, EncodeErrors, RunPackets, AllRecordsAt, RecordAt, WellFormed, Shape;
    InFull(v, packets, |EncodeErrors(errs)|);
    if AnsweredInFull(v, packets, |EncodeErrors(errs)|) {
      ShowsAnswer(v, packets, errs);
    }
  }

  /** An answer that breaks off after `front`, and the next query without a clear:
      its answer `a + b` is taken for complete when `b` is still missing, if `b` is
      as long as `front`, and the list holds bytes of both answers. */
  lemma MixedAnswer(v: ListV, front: seq<byte>, a: seq<byte>, b: seq<byte>)
    requires Fresh(v) && a != [] && |front| == |b| > 0 && |a| + |b| <= U16_MAX
    ensures var broken := RunPackets(StartV(v), [front], |a| + |b|);
            broken.state == QueryStarted && broken.data == front
            && var w := RunPackets(StartV(broken), [a, b], |a| + |b|);
            w.state == Completed && w.eventVal == 0 && w.data == front + a
  {
    hide RunPackets, Positions;
    var total := |a| + |b|;
    RunOne(StartV(v), front, total);
    assert [] + front == front;
    var broken := RunPackets(StartV(v), [front], total);
    RunTwo(StartV(broken), a, b, total);
  }

  lemma RunOne(v: ListV, p: seq<byte>, total: u16)
    ensures RunPackets(v, [p], total) == AppendV(v, p, total, 0, true)
  {
    assert [p][..0] == [];
  }

  lemma RunTwo(v: ListV, p: seq<byte>, q: seq<byte>, total: u16)
    ensures RunPackets(v, [p, q], total) == AppendV(AppendV(v, p, total, 0, true), q, total, 0, true)
  {
    assert [p, q][..1] == [p];
    RunOne(v, p, total);
  }

  // ----- Error reports -----

  /** What the card answers to a query: a packet, or that it has failed. */
  datatype Answer = Packet(bytes: seq<byte>) | Report(errorVal: u16)

  function TakeAnswer(v: ListV, a: Answer, total: u16): ListV {
    match a
    case Packet(bytes) => AppendV(v, bytes, total, 0, true)
    case Report(errorVal) => AppendV(v, [], 0, errorVal, true)
  }

  function RunAnswers(v: ListV, answers: seq<Answer>, total: u16): ListV {
    if answers == [] then v
    else TakeAnswer(RunAnswers(v, answers[..|answers| - 1], total), answers[|answers| - 1], total)
  }

  /** An error report ends the query of whatever list it finds still waiting, with its
      value and the bytes collected so far, and no later answer changes that. */
  lemma {:induction false} ReportEnds(v: ListV, answers: seq<Answer>, total: u16, i: nat)
    requires i < |answers| && answers[i].Report?
    requires RunAnswers(v, answers[..i], total).state == QueryStarted
    ensures var before, w := RunAnswers(v, answers[..i], total), RunAnswers(v, answers, total);
            && w.state == Completed && w.eventVal == answers[i].errorVal
            && w.data == before.data && w.capacity == before.capacity
            && (answers[i].errorVal != 0 ==> w.descs == before.descs)
    decreases |answers|
  {
    hide Positions;
    var n := |answers| - 1;
    if i < n {
      assert answers[..n][..i] == answers[..i];
      ReportEnds(v, answers[..n], total, i);
    }
  }

  lemma {:induction false} PacketsAreAnswers(v: ListV, packets: seq<seq<byte>>, total: u16)
    ensures RunAnswers(v, seq(|packets|, k requires 0 <= k < |packets| => Packet(packets[k])), total) == RunPackets(v, packets, total)
  {
    var answers := seq(|packets|, k requires 0 <= k < |packets| => Packet(packets[k]));
    if packets != [] {
      var n := |packets| - 1;
      assert answers[..n] == seq(n, k requires 0 <= k < n => Packet(packets[..n][k]));
      PacketsAreAnswers(v, packets[..n], total);
    }
  }

  /** After packets none of which has completed it, a query of any list is still
      waiting, and an error report ends it. */
  lemma ReportAfterPackets(v: ListV, packets: seq<seq<byte>>, total: u16, errorVal: u16)
    requires Shape(v) && NonEmpty(packets) && forall j :: 0 < j <= |packets| ==> !Stops(v, packets, total, j)
    ensures var w := TakeAnswer(RunPackets(StartV(v), packets, total), Report(errorVal), total);
            && w.state == Completed && w.eventVal == errorVal && w.data == v.data + Flatten(packets)
            && (errorVal != 0 ==> w.descs == v.descs)
  {
    hide Positions, Stops, RunPackets;
    RunsOn(v, packets, total, |packets|);
    assert packets[..|packets|] == packets;
  }
}
