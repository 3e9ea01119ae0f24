/** The scheduling parameters of single commands and of copy lists
    (nnpiInfCommandSchedParams and its subclasses).

    `pack` is a store through a moving pointer. Its contract is in whole
    records: what is written, together with what is left to write, is always
    what there was to write. */
module SchedParams {
  import opened Bytes
  import opened Options
  import opened CardDecoder
  import opened CommandValues
  import opened CopyCommands

  /** A buffer that was `was` is now `now`: just the encoded `recs` have been
      written from `p`, up to `q`. */
  ghost predicate Written(now: seq<byte>, was: seq<byte>, p: nat, q: nat, recs: seq<Record>) {
    q == p + |EncodeAll(recs)| <= |was| && now == Splice(was, p, EncodeAll(recs))
  }

  lemma WrittenNothing(was: seq<byte>, p: nat)
    requires p <= |was|
    ensures Written(was, was, p, p, [])
  {
  }

  lemma WrittenMore(now: seq<byte>, mid: seq<byte>, was: seq<byte>, p: nat, q: nat, r: nat, recs: seq<Record>, more: seq<Record>)
    requires Written(mid, was, p, q, recs) && Written(now, mid, q, r, more)
    ensures Written(now, was, p, r, recs + more)
  {
    EncodeAllConcat(recs, more);
    SpliceAppend(was, p, EncodeAll(recs), EncodeAll(more));
  }

  class CopyParams {
    const copy: CopyCommand
    var priority: u8
    var size: u64
    var idx: u16
    var edited: bool

    constructor (copy: CopyCommand, priority: u8, size: u64)
      ensures V() == CopyV(U16_MAX, CopyContent(copy.id, priority, Min(size, copy.maxSize)), true)
      ensures this.copy == copy
    {
      this.copy, this.priority := copy, priority;
      this.size := Min(size, copy.maxSize);
      idx, edited := U16_MAX, true;
    }

    function V(): CopyV
      reads this
    {
      CopyV(idx, CopyContent(copy.id, priority, size), edited)
    }

    method Overwrite(priority: u8, size: u64)
      modifies this
      ensures V() == old(V()).(content := CopyContent(copy.id, priority, Min(size, copy.maxSize)))
    {
      this.priority := priority;
      this.size := Min(size, copy.maxSize);
    }

    method Pack(buf: array<byte>, p: nat, size: nat) returns (ok: bool, q: nat, ghost recs: seq<Record>)
      requires p + size <= buf.Length
      modifies this`edited, buf
      ensures ok == (!old(edited) || size >= COPY_REC_SIZE)
      ensures recs == (if ok then CopyRecords(old(V())) else [])
      ensures V() == if ok then ClearCopy(old(V())) else old(V())
      ensures p <= q <= p + size && Written(buf[..], old(buf[..]), p, q, recs)
    {
      WrittenNothing(buf[..], p);
      if !edited {
        return true, p, [];
      }
      if size < 16 {
        return false, p, [];
      }
      recs := CopyRecords(V());
      hide Splice, U16, U32, U64;
      ghost var was, done := buf[..], [];
      SpliceNothing(was, p);
      q := p;
      q, done := Put(buf, q, U32(idx), was, p, done);
      q, done := Put(buf, q, [CMD_COPY], was, p, done);
      q, done := Put(buf, q, U16(copy.id), was, p, done);
      q, done := Put(buf, q, [priority], was, p, done);
      q, done := Put(buf, q, U64(this.size), was, p, done);
      assert done == Encode(CopyRec(idx, V().content));
      EncodeSingle(recs[0]);
      edited := false;
      ok := true;
    }
  }

  class InferReqParams {
    const netId: u16
    const reqId: u16
    const priority: u8
    var nullParams: bool
    var batchSize: u16
    var debugOn: bool
    var collectInfo: bool
    var idx: u16
    var edited: bool

    constructor (netId: u16, reqId: u16, params: Option<InferParams>)
      ensures V() == InferCmd(U16_MAX, InferContent(netId, reqId, params), true)
      ensures params.None? ==> priority == 0 && batchSize == 0 && !debugOn && !collectInfo
    {
      this.netId, this.reqId := netId, reqId;
      nullParams := params.None?;
      priority := if params.Some? then params.value.priority else 0;
      batchSize := if params.Some? then params.value.batchSize else 0;
      debugOn := params.Some? && params.value.debugOn;
      collectInfo := params.Some? && params.value.collectInfo;
      idx, edited := U16_MAX, true;
    }

    function V(): CmdV
      reads this
    {
      var params := if nullParams then None else Some(InferParams(batchSize, priority, debugOn, collectInfo));
      InferCmd(idx, InferContent(netId, reqId, params), edited)
    }

    /** The priority stays as it was when the command was appended. */
    method Overwrite(params: Option<InferParams>)
      modifies this
      ensures idx == old(idx) && edited == old(edited)
      ensures V().content == InferContent(netId, reqId,
        if params.None? then None else Some(params.value.(priority := this.priority)))
    {
      nullParams := params.None?;
      if !nullParams {
        batchSize, debugOn, collectInfo := params.value.batchSize, params.value.debugOn, params.value.collectInfo;
      }
    }

    method Pack(buf: array<byte>, p: nat, size: nat) returns (ok: bool, q: nat, ghost recs: seq<Record>)
      requires p + size <= buf.Length
      modifies this`edited, buf
      ensures ok == (old(!edited) || size >= |Encode(InferRec(idx, V().content))|)
      ensures !ok ==> NoRoom(V(), size)
      ensures recs == (if ok then Records(old(V())) else [])
      ensures V() == if ok then Clear(old(V())) else old(V())
      ensures p <= q <= p + size && Written(buf[..], old(buf[..]), p, q, recs)
    {
      WrittenNothing(buf[..], p);
      if !edited {
        return true, p, [];
      }
      if size < 10 || (!nullParams && size < 15) {
        return false, p, [];
      }
      hide Splice;
      recs := Records(V());
      ghost var was, done := buf[..], [];
      SpliceNothing(was, p);
      q, done := PutIds(buf, p, was);
      q, done := PutParams(buf, q, was, p, done);
      EncodeSingle(recs[0]);
      edited := false;
      ok := true;
    }

    method PutIds(buf: array<byte>, p: nat, ghost base: seq<byte>) returns (q: nat, ghost done: seq<byte>)
      requires p + 9 <= buf.Length && buf[..] == base
      modifies buf
      ensures done == U32(idx) + [CMD_INFREQ] + U16(netId) + U16(reqId)
      ensures q == p + |done| && |done| == 9
      ensures buf[..] == Splice(base, p, done)
    {
      hide Splice, U16, U32;
      done := [];
      SpliceNothing(base, p);
      q, done := Put(buf, p, U32(idx), base, p, done);
      q, done := Put(buf, q, [CMD_INFREQ], base, p, done);
      q, done := Put(buf, q, U16(netId), base, p, done);
      q, done := Put(buf, q, U16(reqId), base, p, done);
    }

    // The null-parameters mark, and the parameters unless they are null.
    method PutParams(buf: array<byte>, p: nat, ghost base: seq<byte>, ghost start: nat, ghost done: seq<byte>)
      returns (q: nat, ghost done': seq<byte>)
      requires p == start + |done| && start + |done| <= |base| && buf.Length == |base|
      requires p + |EncodeParams(V().content.params)| <= buf.Length
      requires buf[..] == Splice(base, start, done)
      modifies buf
      ensures done' == done + EncodeParams(V().content.params) && q == start + |done'| <= buf.Length
      ensures buf[..] == Splice(base, start, done')
    {
      hide Splice, U16;
      q, done' := Put(buf, p, [Bit(nullParams)], base, start, done);
      if !nullParams {
        q, done' := Put(buf, q, U16(batchSize), base, start, done');
        q, done' := Put(buf, q, [priority], base, start, done');
        q, done' := Put(buf, q, [Bit(debugOn)], base, start, done');
        q, done' := Put(buf, q, [Bit(collectInfo)], base, start, done');
      }
    }
  }

  predicate Distinct<T(==)>(s: seq<T>) {
    forall i, j :: 0 <= i < j < |s| ==> s[i] != s[j]
  }

  class CopyListParams {
    const copies: seq<CopyParams>
    const needPrepare: bool
    var idx: u16
    var edited: bool
    var numEdits: u16

    /** Takes over the given copies and numbers them by position. */
    constructor (copies: seq<CopyParams>)
      requires 0 < |copies| <= U16_MAX && Distinct(copies)
      modifies copies
      ensures this.copies == copies && idx == U16_MAX && edited && numEdits == |copies|
      ensures forall s :: 0 <= s < |copies| ==> copies[s].V() == old(copies[s].V()).(idx := s)
      ensures needPrepare <==> exists s :: 0 <= s < |copies| && copies[s].copy.needPrepare
    {
      this.copies := copies;
      idx, edited, numEdits := U16_MAX, true, |copies|;
      var need := false;
      for i := 0 to |copies|
        invariant forall s :: 0 <= s < i ==> copies[s].V() == old(copies[s].V()).(idx := s)
        invariant forall s :: i <= s < |copies| ==> copies[s].V() == old(copies[s].V())
        invariant need <==> exists s :: 0 <= s < i && copies[s].copy.needPrepare
      {
        copies[i].idx := i;
        if copies[i].copy.needPrepare {
          need := true;
        }
      }
      needPrepare := need;
    }

    function CopyVs(): (vs: seq<CopyV>)
      reads copies
      ensures |vs| == |copies|
    {
      seq(|copies|, s requires 0 <= s < |copies| reads copies => copies[s].V())
    }

    function V(): (v: CmdV)
      reads this, copies
      ensures v.ListCmd?
    {
      ListCmd(idx, edited, numEdits, CopyVs())
    }

    // Writes the remaining edited copies, one by one.
    method PackCopies(buf: array<byte>, p: nat, size: nat) returns (ok: bool, q: nat, ghost recs: seq<Record>)
      requires Distinct(copies) && p + size <= buf.Length
      modifies copies, buf
      ensures p <= q <= p + size && Written(buf[..], old(buf[..]), p, q, recs)
      ensures SubRecords(old(CopyVs())) == recs + SubRecords(CopyVs())
      ensures ClearCopies(CopyVs()) == ClearCopies(old(CopyVs()))
      ensures ok ==> CopyVs() == ClearCopies(old(CopyVs()))
      ensures !ok ==> recs != [] || size < COPY_REC_SIZE
      ensures !ok ==> p + size - q < COPY_REC_SIZE && SubRecords(CopyVs()) != [] && SubRecords(CopyVs())[0].CopyRec?
    {
      hide Written, ClearedUpTo, ClearCopies, SubRecords, CopyRecords;
      ghost var was, vs := buf[..], CopyVs();
      q, recs := p, [];
      WrittenNothing(was, p);
      NothingCleared(vs);
      for i := 0 to |copies|
        invariant p <= q <= p + size && Written(buf[..], was, p, q, recs)
        invariant recs == SubRecords(vs[..i])
        invariant CopyVs() == ClearedUpTo(vs, i)
      {
        ghost var one, mid, at := [], buf[..], q;
        ok, q, one := PackCopy(i, buf, q, p + size - q);
        WrittenMore(buf[..], mid, was, p, at, q, recs, one);
        recs := recs + one;
        if !ok {
          assert recs == SubRecords(vs[..i]);
          SplitAt(vs, i);
          FirstLeft(vs, i);
          return;
        }
        ClearOneMore(vs, i);
      }
      ok := true;
      assert vs[..|copies|] == vs;
      SplitAt(vs, |copies|);
    }

    method PackCopy(i: nat, buf: array<byte>, p: nat, size: nat) returns (ok: bool, q: nat, ghost recs: seq<Record>)
      requires Distinct(copies) && i < |copies| && p + size <= buf.Length
      modifies copies[i], buf
      ensures !ok ==> size < COPY_REC_SIZE && recs == [] && CopyVs() == old(CopyVs()) && CopyVs()[i].edited
      ensures ok ==> recs == CopyRecords(old(CopyVs()[i]))
      ensures ok ==> CopyVs() == old(CopyVs())[i := ClearCopy(old(CopyVs()[i]))]
      ensures p <= q <= p + size && Written(buf[..], old(buf[..]), p, q, recs)
    {
      ok, q, recs := copies[i].Pack(buf, p, size);
    }

    // The seven bytes that announce the edited copies.
    method PackHeader(buf: array<byte>, p: nat, size: nat) returns (q: nat, ghost recs: seq<Record>)
      requires edited && LIST_REC_SIZE <= size && p + size <= buf.Length
      modifies this`edited, buf
      ensures V() == ListCmd(idx, false, numEdits, old(CopyVs())) && recs == HeaderRecords(old(V()))
      ensures q == p + LIST_REC_SIZE && Written(buf[..], old(buf[..]), p, q, recs)
    {
      hide Splice, U16, U32;
      ghost var was, done := buf[..], [];
      SpliceNothing(was, p);
      q, recs := p, [ListRec(idx, numEdits)];
      q, done := Put(buf, q, U32(idx), was, p, done);
      q, done := Put(buf, q, [CMD_COPYLIST], was, p, done);
      q, done := Put(buf, q, U16(numEdits), was, p, done);
      assert done == Encode(recs[0]);
      EncodeSingle(recs[0]);
      edited := false;
    }

    method Pack(buf: array<byte>, p: nat, size: nat) returns (ok: bool, q: nat, ghost recs: seq<Record>)
      requires Distinct(copies) && p + size <= buf.Length && (edited ==> numEdits > 0)
      modifies this`edited, this`numEdits, copies, buf
      ensures p <= q <= p + size && Written(buf[..], old(buf[..]), p, q, recs)
      ensures Records(old(V())) == recs + Records(V())
      ensures Clear(V()) == Clear(old(V())) && (edited ==> numEdits > 0)
      ensures ok && (old(numEdits) > 0 || EditedCopies(old(CopyVs())) == 0) ==> V() == Clear(old(V()))
      ensures ok ==> Records(V()) == []
      ensures !ok ==> numEdits == old(numEdits) > 0 && (recs != [] || size < COPY_REC_SIZE)
      ensures !ok ==> NoRoom(V(), p + size - q)
    {
      hide Written, Records, Clear, SubRecords, ClearCopies, HeaderRecords, NoRoom;
      ghost var was, v := buf[..], V();
      q, recs := p, [];
      WrittenNothing(was, p);
      HeaderPacked(v);
      var left := size;
      if edited {
        if size < 7 {
          HeaderWaits(v, size);
          return false, p, [];
        }
        left := left - 7;
        q, recs := PackHeader(buf, p, size);
      }
      if numEdits > 0 {
        ghost var one, mid, at, v1 := [], buf[..], q, V();
        ok, q, one := PackCopies(buf, q, left);
        CopiesPacked(v, v1, CopyVs(), one, ok);
        WrittenMore(buf[..], mid, was, p, at, q, recs, one);
        recs := recs + one;
        if !ok {
          CopyWaits(V(), p + size - q);
          return;
        }
        numEdits := 0;
      }
      ok := true;
    }

    method ClearEdits()
      requires numEdits == 0 ==> !edited
      modifies this`edited, this`numEdits, copies
      ensures old(numEdits) == 0 ==> V() == old(V())
      ensures old(numEdits) > 0 ==> V() == Clear(old(V()))
    {
      if numEdits == 0 {
        return;
      }
      numEdits, edited := 0, false;
      ghost var vs := old(CopyVs());
      for i := 0 to |copies|
        invariant !edited && numEdits == 0
        invariant forall s :: 0 <= s < |copies| ==>
          copies[s].V() == vs[s] || copies[s].V() == ClearCopy(vs[s])
        invariant forall s :: 0 <= s < i ==> copies[s].V() == ClearCopy(vs[s])
      {
        copies[i].edited := false;
      }
      assert CopyVs() == ClearCopies(vs);
    }
  }

  lemma HeaderWaits(v: CmdV, room: nat)
    requires v.ListCmd? && v.edited && room < LIST_REC_SIZE
    ensures NoRoom(v, room)
  {
  }

  lemma CopyWaits(v: CmdV, room: nat)
    requires v.ListCmd? && !v.edited && v.numEdits > 0 && room < COPY_REC_SIZE
    requires SubRecords(v.copies) != [] && SubRecords(v.copies)[0].CopyRec?
    ensures NoRoom(v, room)
  {
  }

  function WithoutHeader(v: CmdV): CmdV
    requires v.ListCmd?
  {
    ListCmd(v.idx, false, v.numEdits, v.copies)
  }

  // The header comes off first. Without counted edits nothing else is written.
  lemma HeaderPacked(v: CmdV)
    requires v.ListCmd?
    ensures v.edited ==> Records(v) == HeaderRecords(v) + Records(WithoutHeader(v))
    ensures Records(v) == [] + Records(v)
    ensures Clear(WithoutHeader(v)) == Clear(v)
    ensures v.numEdits == 0 ==> Records(WithoutHeader(v)) == []
    ensures v.numEdits == 0 && EditedCopies(v.copies) == 0 ==> WithoutHeader(v) == Clear(v)
  {
    if EditedCopies(v.copies) == 0 {
      NoneEditedWhenZero(v.copies);
    }
  }

  // Then copies, all of them or some.
  lemma CopiesPacked(v: CmdV, v1: CmdV, vs: seq<CopyV>, recs: seq<Record>, ok: bool)
    requires v.ListCmd? && v1 == WithoutHeader(v) && v.numEdits > 0
    requires SubRecords(v.copies) == recs + SubRecords(vs) && ClearCopies(vs) == ClearCopies(v.copies)
    requires ok ==> vs == ClearCopies(v.copies)
    ensures var after := ListCmd(v.idx, false, if ok then 0 else v.numEdits, vs);
            && (v.edited ==> Records(v) == HeaderRecords(v) + recs + Records(after))
            && (!v.edited ==> Records(v) == [] + recs + Records(after))
            && Clear(after) == Clear(v)
            && (ok ==> after == Clear(v) && Records(after) == [])
  {
    hide SubRecords;
    if ok {
      assert SubRecords(vs) == [] by {
        NoneEditedCopies(ClearCopies(v.copies));
      }
    }
  }

  /** `vs` with the marks of its first `i` copies cleared. */
  ghost function ClearedUpTo(vs: seq<CopyV>, i: nat): seq<CopyV>
    requires i <= |vs|
  {
    ClearCopies(vs[..i]) + vs[i..]
  }

  lemma NothingCleared(vs: seq<CopyV>)
    ensures ClearedUpTo(vs, 0) == vs && SubRecords(vs[..0]) == []
  {
  }

  lemma ClearOneMore(vs: seq<CopyV>, i: nat)
    requires i < |vs|
    ensures ClearedUpTo(vs, i)[i] == vs[i]
    ensures ClearedUpTo(vs, i)[i := ClearCopy(vs[i])] == ClearedUpTo(vs, i + 1)
    ensures SubRecords(vs[..i + 1]) == SubRecords(vs[..i]) + CopyRecords(vs[i])
  {
    assert vs[..i + 1] == vs[..i] + [vs[i]];
    ConcatMapSnoc(CopyRecords, vs[..i], vs[i]);
  }

  // The first copy not yet packed is the next record.
  lemma FirstLeft(vs: seq<CopyV>, i: nat)
    requires i < |vs| && ClearedUpTo(vs, i)[i].edited
    ensures SubRecords(ClearedUpTo(vs, i)) != [] && SubRecords(ClearedUpTo(vs, i))[0].CopyRec?
  {
    var left := ClearedUpTo(vs, i);
    assert left == ClearCopies(vs[..i]) + ([vs[i]] + vs[i + 1..]);
    ConcatMapConcat(CopyRecords, ClearCopies(vs[..i]), [vs[i]] + vs[i + 1..]);
    NoneEditedCopies(ClearCopies(vs[..i]));
    ConcatMapCons(CopyRecords, vs[i], vs[i + 1..]);
  }

  lemma SplitAt(vs: seq<CopyV>, i: nat)
    requires i <= |vs|
    ensures SubRecords(vs) == SubRecords(vs[..i]) + SubRecords(ClearedUpTo(vs, i))
    ensures ClearCopies(ClearedUpTo(vs, i)) == ClearCopies(vs)
    ensures i == |vs| ==> ClearedUpTo(vs, i) == ClearCopies(vs)
  {
    assert vs == vs[..i] + vs[i..];
    ConcatMapConcat(CopyRecords, vs[..i], vs[i..]);
    ConcatMapConcat(CopyRecords, ClearCopies(vs[..i]), vs[i..]);
    NoneEditedCopies(ClearCopies(vs[..i]));
  }

  lemma NoneEditedWhenZero(vs: seq<CopyV>)
    requires EditedCopies(vs) == 0
    ensures ClearCopies(vs) == vs
  {
  }
}
