/** The records of a command-list message and a decoder for them.

    The decoder stands for the card. It reads nothing but the bytes of the
    messages, and rejects a message stream by returning None. */
module CardDecoder {
  import opened Bytes
  import opened Options

  // Command type codes on the wire.
  const CMD_INFREQ: byte := 0
  const CMD_COPY: byte := 1
  const CMD_COPYLIST: byte := 2

  datatype InferParams = InferParams(batchSize: u16, priority: u8, debugOn: bool, collectInfo: bool)

  datatype CopyContent = CopyContent(copyId: u16, priority: u8, size: u64)

  datatype InferContent = InferContent(netId: u16, reqId: u16, params: Option<InferParams>)

  datatype Record =
    | CopyRec(idx: u32, copy: CopyContent)
    | ListRec(idx: u32, count: u16)
    | InferRec(idx: u32, infer: InferContent)

  const COPY_REC_SIZE := 16
  const LIST_REC_SIZE := 7
  const INFER_REC_SIZE := 15
  const INFER_NULL_REC_SIZE := 10

  function EncodeParams(params: Option<InferParams>): (s: seq<byte>)
    ensures |s| == if params.None? then 1 else 6
  {
    match params
    case None => [1]
    case Some(p) => [0] + U16(p.batchSize) + [p.priority] + [Bit(p.debugOn)] + [Bit(p.collectInfo)]
  }

  function Encode(r: Record): (s: seq<byte>)
    ensures |s| == match r
                   case CopyRec(_, _) => COPY_REC_SIZE
                   case ListRec(_, _) => LIST_REC_SIZE
                   case InferRec(_, q) => if q.params.None? then INFER_NULL_REC_SIZE else INFER_REC_SIZE
  {
    match r
    case CopyRec(idx, c) =>
      U32(idx) + [CMD_COPY] + U16(c.copyId) + [c.priority] + U64(c.size)
    case ListRec(idx, n) =>
      U32(idx) + [CMD_COPYLIST] + U16(n)
    case InferRec(idx, q) =>
      U32(idx) + [CMD_INFREQ] + U16(q.netId) + U16(q.reqId) + EncodeParams(q.params)
  }

  /** Where each field of a record is on the wire, and the type codes. */
  lemma RecordLayout(r: Record)
    ensures var e := Encode(r);
            && |e| >= 7 && Little(e[0..4]) == r.idx
            && match r
               case CopyRec(_, c) =>
                 && |e| == 16 && e[4] == 1
                 && Little(e[5..7]) == c.copyId && e[7] == c.priority && Little(e[8..16]) == c.size
               case ListRec(_, n) =>
                 |e| == 7 && e[4] == 2 && Little(e[5..7]) == n
               case InferRec(_, q) =>
                 && |e| >= 10 && e[4] == 0 && Little(e[5..7]) == q.netId && Little(e[7..9]) == q.reqId
                 && (q.params.None? ==> |e| == 10 && e[9] == 1)
                 && (q.params.Some? ==>
                       && |e| == 15 && e[9] == 0 && Little(e[10..12]) == q.params.value.batchSize
                       && e[12] == q.params.value.priority
                       && e[13] == (if q.params.value.debugOn then 1 else 0)
                       && e[14] == (if q.params.value.collectInfo then 1 else 0))
  {
    hide U16, U32, U64, Little;
    var e := Encode(r);
    LittleEndian32(r.idx);
    assert e[0..4] == U32(r.idx);
    match r
    case CopyRec(_, c) =>
      LittleEndian16(c.copyId);
      LittleEndian64(c.size);
      assert e[5..7] == U16(c.copyId) && e[8..16] == U64(c.size);
    case ListRec(_, n) =>
      LittleEndian16(n);
      assert e[5..7] == U16(n);
    case InferRec(_, q) =>
      LittleEndian16(q.netId);
      LittleEndian16(q.reqId);
      assert e[5..7] == U16(q.netId) && e[7..9] == U16(q.reqId);
      if q.params.Some? {
        LittleEndian16(q.params.value.batchSize);
        assert e[10..12] == U16(q.params.value.batchSize);
      }
  }

  function EncodeAll(rs: seq<Record>): seq<byte> {
    ConcatMap(Encode, rs)
  }

  lemma EncodeSingle(r: Record)
    ensures EncodeAll([r]) == Encode(r)
  {
    ConcatMapSnoc(Encode, [], r);
    assert [] + [r] == [r];
  }

  lemma EncodeAllConcat(a: seq<Record>, b: seq<Record>)
    ensures EncodeAll(a + b) == EncodeAll(a) + EncodeAll(b)
    ensures EncodeAll([]) == []
  {
    ConcatMapConcat(Encode, a, b);
  }

  /** One record off the front of `s`, with the bytes behind it. */
  function DecodeOne(s: seq<byte>): (res: Option<(Record, seq<byte>)>)
    ensures res.Some? ==> |res.value.1| < |s|
  {
    if |s| < LIST_REC_SIZE then None
    else
      var idx, body := GetU32(s), s[5..];
      if s[4] == CMD_COPYLIST then
        Some((ListRec(idx, GetU16(body)), body[2..]))
      else if s[4] == CMD_COPY && |body| >= 11 then
        Some((CopyRec(idx, CopyContent(GetU16(body), body[2], GetU64(body[3..]))), body[11..]))
      else if s[4] == CMD_INFREQ && |body| >= 5 then
        match DecodeParams(body[4..])
        case None => None
        case Some((params, rest)) =>
          Some((InferRec(idx, InferContent(GetU16(body), GetU16(body[2..]), params)), rest))
      else None
  }

  function DecodeParams(s: seq<byte>): (res: Option<(Option<InferParams>, seq<byte>)>)
    requires |s| >= 1
    ensures res.Some? ==> |res.value.1| < |s|
  {
    if s[0] != 0 then Some((None, s[1..]))
    else if |s| >= 6 then
      Some((Some(InferParams(GetU16(s[1..]), s[3], s[4] != 0, s[5] != 0)), s[6..]))
    else None
  }

  function DecodeAll(s: seq<byte>): Option<seq<Record>>
    decreases |s|
  {
    if s == [] then Some([])
    else match DecodeOne(s)
      case None => None
      case Some((r, rest)) =>
        match DecodeAll(rest)
        case None => None
        case Some(rs) => Some([r] + rs)
  }

  /** Every encoded record is read back, and exactly its own bytes are consumed. */
  lemma DecodeOneEncode(r: Record, rest: seq<byte>)
    ensures DecodeOne(Encode(r) + rest) == Some((r, rest))
  {
  }

  /** Parsing a run of encoded records yields the records, with nothing left over. */
  lemma {:induction false} DecodeAllEncode(rs: seq<Record>)
    ensures DecodeAll(EncodeAll(rs)) == Some(rs)
  {
    if rs != [] {
      var r, tail := rs[0], rs[1..];
      assert rs == [r] + tail;
      ConcatMapCons(Encode, r, tail);
      DecodeOneEncode(r, EncodeAll(tail));
      DecodeAllEncode(tail);
    }
  }

  // ----- The command table kept by the card -----

  datatype Entry =
    | CopyEntry(copy: CopyContent)
    | InferEntry(infer: InferContent)
    | ListEntry(copies: map<u32, CopyContent>)

  /** `owed` top-level records and, inside list `cur`, `left` copies are
      still to come in the message sequence being received. */
  datatype Card = Card(table: map<u32, Entry>, owed: nat, cur: u32, left: nat)

  const BLANK := Card(map[], 0, 0, 0)

  function ListAt(table: map<u32, Entry>, idx: u32): map<u32, CopyContent> {
    if idx in table && table[idx].ListEntry? then table[idx].copies else map[]
  }

  function Apply(card: Card, r: Record): Option<Card> {
    if card.left > 0 then
      if !r.CopyRec? then None
      else
        var copies := ListAt(card.table, card.cur)[r.idx := r.copy];
        Some(card.(table := card.table[card.cur := ListEntry(copies)], left := card.left - 1))
    else if card.owed == 0 then None
    else
      match r
      case CopyRec(idx, c) =>
        Some(card.(table := card.table[idx := CopyEntry(c)], owed := card.owed - 1))
      case InferRec(idx, q) =>
        Some(card.(table := card.table[idx := InferEntry(q)], owed := card.owed - 1))
      case ListRec(idx, n) =>
        Some(Card(card.table[idx := ListEntry(ListAt(card.table, idx))], card.owed - 1, idx, n))
  }

  function ApplyAll(card: Card, rs: seq<Record>): Option<Card>
    decreases |rs|
  {
    if rs == [] then Some(card)
    else match Apply(card, rs[0])
      case None => None
      case Some(next) => ApplyAll(next, rs[1..])
  }

  lemma {:induction false} ApplyAllConcat(card: Card, a: seq<Record>, b: seq<Record>)
    ensures ApplyAll(card, a + b) ==
            match ApplyAll(card, a)
            case None => None
            case Some(mid) => ApplyAll(mid, b)
    decreases |a|
  {
    if a == [] {
      assert a + b == b;
    } else {
      assert (a + b)[0] == a[0] && (a + b)[1..] == a[1..] + b;
      match Apply(card, a[0])
      case None =>
      case Some(next) => ApplyAllConcat(next, a[1..], b);
    }
  }

  /** A command-list message with the bytes of its ring page it covers. */
  datatype Msg = Msg(opcode: Opcode, isFirst: bool, isLast: bool, size: u16, page: seq<byte>)
  datatype Opcode = CreateCmdList | ScheduleCmdList

  /** Receipt of one message: a first message with a payload starts with the
      number of edits, and after the last nothing may be outstanding. A message
      with neither payload nor successor announces no edits. */
  function Receive(card: Card, m: Msg): Option<Card> {
    var reset := if m.isFirst then Card(card.table, 0, 0, 0) else card;
    if m.isFirst && m.isLast && m.size == 0 then Some(reset)
    else if |m.page| < m.size || (m.isFirst && m.size < 4) then None
    else
      var data := m.page[..m.size];
      var start := if m.isFirst then reset.(owed := GetU32(data)) else reset;
      match DecodeAll(if m.isFirst then data[4..] else data)
      case None => None
      case Some(rs) =>
        match ApplyAll(start, rs)
        case None => None
        case Some(end) =>
          if m.isLast && (end.owed != 0 || end.left != 0) then None else Some(end)
  }

  /** What a blank card has after the whole message log. */
  function Run(log: seq<Msg>): Option<Card> {
    if log == [] then Some(BLANK)
    else match Run(log[..|log| - 1])
      case None => None
      case Some(card) => Receive(card, log[|log| - 1])
  }

  /** The card's table, if it has accepted the log. */
  function TableOf(log: seq<Msg>): map<u32, Entry> {
    match Run(log)
    case None => map[]
    case Some(card) => card.table
  }

  lemma RunSnoc(log: seq<Msg>, m: Msg)
    ensures Run(log + [m]) == match Run(log)
                              case None => None
                              case Some(card) => Receive(card, m)
  {
  }
}
