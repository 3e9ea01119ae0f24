/** The command list (nnpiCommandList): appending, batching, overwriting and
    sending the edits to the card page by page. */
module CommandList {
  import opened Bytes
  import opened Options
  import opened CardDecoder
  import opened CommandValues
  import opened CardMirror
  import opened CopyCommands
  import opened HostResource
  import opened SchedParams
  import opened Commands
  import opened Batching
  import opened Preparation
  import opened RingBuffer
  import opened Circular
  import opened PageRing
  import opened Channel

  datatype Status = NoError | DeviceBusy | InvalidArgument | TooManyContexts | NotSupported | ContextBroken | IoError | WrongKind

  /** Position `k` of the flattened vector is subcommand `s` of entry `i`. */
  predicate FlatAt(vec: seq<Cmd>, k: nat, i: nat, s: nat) {
    i < |vec| && s < NumOfSubcmds(vec[i]) && k == |Flat(vec[..i])| + s
  }

  lemma {:induction false} FlatPrefix(vec: seq<Cmd>, n: nat)
    requires n <= |vec|
    ensures Flat(vec[..n]) <= Flat(vec)
    decreases |vec| - n
  {
    if n == |vec| {
      assert vec[..n] == vec;
    } else {
      assert vec[..n + 1] == vec[..n] + [vec[n]];
      ConcatMapSnoc(Leaves, vec[..n], vec[n]);
      FlatPrefix(vec, n + 1);
    }
  }

  lemma FlatLookup(vec: seq<Cmd>, k: nat, i: nat, s: nat)
    requires FlatAt(vec, k, i, s)
    ensures k < |Flat(vec)| && Flat(vec)[k] == Leaves(vec[i])[s]
    ensures |Flat(vec[..i + 1])| == |Flat(vec[..i])| + NumOfSubcmds(vec[i])
  {
    assert vec[..i + 1] == vec[..i] + [vec[i]];
    ConcatMapSnoc(Leaves, vec[..i], vec[i]);
    FlatPrefix(vec, i + 1);
  }

  /** The list is numbered by position and its counters agree with its marks. */
  ghost predicate Consistent(view: seq<CmdV>, numEdits: nat) {
    Indexed(view) && AllSettled(view) && numEdits == EditedCommands(view)
  }

  /** From `was` to `now` just subcommand `s` of command `i` is marked edited. */
  ghost predicate Marked(was: seq<CmdV>, now: seq<CmdV>, i: nat, s: nat) {
    IsPlace(was, i, s) && Markable(was[i], s) && now == was[i := Mark(was[i], s)]
  }

  // Just the parameters of copy `s` of command `i` have changed.
  ghost predicate Changed(was: seq<CmdV>, now: seq<CmdV>, i: nat, s: nat, content: CopyContent) {
    IsPlace(was, i, s) && !was[i].InferCmd? && now == was[i := WithContent(was[i], s, content)]
  }

  lemma MarkedAndChanged(was: seq<CmdV>, mid: seq<CmdV>, now: seq<CmdV>, i: nat, s: nat, content: CopyContent)
    requires Marked(was, mid, i, s) && Changed(mid, now, i, s, content)
    ensures Overwritten(was, now, i, s, content)
  {
  }

  /** Just that copy is marked, and has the parameters `content`. */
  ghost predicate Overwritten(was: seq<CmdV>, now: seq<CmdV>, i: nat, s: nat, content: CopyContent) {
    && IsPlace(was, i, s) && Markable(was[i], s) && !was[i].InferCmd?
    && now == was[i := WithContent(Mark(was[i], s), s, content)]
  }

  /** Subcommand `s` of command `i` is `r`, and marked. */
  ghost predicate Found(vec: seq<Cmd>, view: seq<CmdV>, i: nat, s: nat, r: Option<Cmd>) {
    && i < |vec| && s < NumOfSubcmds(vec[i]) && r == Some(Leaves(vec[i])[s])
    && IsPlace(view, i, s) && SubEdited(view[i], s)
  }

  /** Every command and subcommand is marked edited. */
  ghost predicate AllEdited(view: seq<CmdV>) {
    forall i: nat, s: nat :: IsPlace(view, i, s) ==> SubEdited(view[i], s)
  }

  lemma NoListWellFormed(cmd: Cmd)
    requires !cmd.List?
    ensures WellFormed(cmd)
  {
  }

  // push_back and set_index.
  method PushBack(vec: seq<Cmd>, cmd: Cmd) returns (vec': seq<Cmd>)
    requires Apart(vec) && |vec| < U16_MAX && !cmd.List? && Objs(cmd) !! Repr(vec)
    modifies Objs(cmd)
    ensures vec' == vec + [cmd] && Apart(vec') && Flat(vec') == Flat(vec) + [cmd]
    ensures View(vec') == old(View(vec)) + [WithIndex(old(V(cmd)), |vec|)]
  {
    hide ConcatMap, WithIndex, WellFormed;
    assert WellFormed(cmd) by {
      NoListWellFormed(cmd);
    }
    ghost var view, v := View(vec), WithIndex(V(cmd), |vec|);
    vec' := vec + [cmd];
    SetIndex(cmd, |vec'| - 1);
    forall i | 0 <= i < |vec|
      ensures V(vec[i]) == view[i]
    {
      assert Objs(vec[i]) !! Objs(cmd);
    }
    assert View(vec') == view + [v];
    ConcatMapSnoc(Leaves, vec, cmd);
  }

  lemma BatchesMore(vec: seq<Cmd>, cmd: Cmd)
    requires AllBatches(vec) && !cmd.List?
    ensures AllBatches(vec + [cmd])
  {
  }

  /** A command appended, whether or not the list has been sent in part. */
  lemma AppendKeeps(table: map<u32, Entry>, view: seq<CmdV>, v: CmdV, lost: set<(nat, nat)>, numEdits: nat)
    requires Consistent(view, numEdits) && Mirrors(table, view, lost)
    requires !v.ListCmd? && IsEdited(v) && Index(v) == |view| < U16_MAX
    ensures numEdits <= |view| && Consistent(view + [v], numEdits + 1)
    ensures Mirrors(table, view + [v], lost)
    ensures AllEdited(view) ==> AllEdited(view + [v])
  {
    var view' := view + [v];
    assert view'[..|view|] == view;
    forall i | 0 <= i < |view'|
      ensures Settled(view'[i])
    {
      assert i < |view| ==> Settled(view[i]);
    }
    forall i: nat, s: nat | IsPlace(view', i, s) && !SubEdited(view'[i], s)
      ensures IsPlace(view, i, s) && view[i] == view'[i]
    {
    }
    if AllEdited(view) {
      forall i: nat, s: nat | IsPlace(view', i, s)
        ensures SubEdited(view'[i], s)
      {
        assert i < |view| ==> IsPlace(view, i, s);
      }
    }
  }

  // ----- Overwriting, on values -----

  /** Marking a place for overwriting keeps the counters exact and the mirror. */
  lemma MarkKeeps(table: map<u32, Entry>, view: seq<CmdV>, numEdits: nat, lost: set<(nat, nat)>, i: nat, s: nat)
    requires Consistent(view, numEdits) && Mirrors(table, view, lost) && IsPlace(view, i, s)
    ensures view[i].ListCmd? ==> view[i].numEdits < U16_MAX || view[i].copies[s].edited
    ensures var v, more := Mark(view[i], s), 1 - Bit(IsEdited(view[i]));
            && numEdits + more <= |view|
            && Consistent(view[i := v], numEdits + more)
            && Mirrors(table, view[i := v], lost)
            && SubCount(v) == SubCount(view[i]) && SubEdited(v, s)
  {
    assert Settled(view[i]) && SubCount(view[i]) <= U16_MAX;
    MarkSettles(view[i], s);
    var v := Mark(view[i], s);
    EditedCommandsUpdate(view, i, v);
    var view' := view[i := v];
    forall j | 0 <= j < |view'|
      ensures Settled(view'[j])
    {
      assert j != i ==> Settled(view[j]);
    }
    forall j: nat, t: nat | IsPlace(view', j, t) && !SubEdited(view'[j], t)
      ensures Matches(table, view'[j], t) <==> (j, t) !in lost
    {
      assert IsPlace(view, j, t) && !SubEdited(view[j], t);
    }
  }

  lemma {:induction false} SameMarksSameCount(copies: seq<CopyV>, s: nat, c: CopyV)
    requires s < |copies| && c.edited == copies[s].edited
    ensures EditedCopies(copies[s := c]) == EditedCopies(copies)
  {
    EditedCopiesUpdate(copies, s, c);
  }

  /** Parameters may be changed at a place that is marked. */
  lemma ContentKeeps(table: map<u32, Entry>, view: seq<CmdV>, numEdits: nat, lost: set<(nat, nat)>, i: nat, s: nat, v: CmdV)
    requires Consistent(view, numEdits) && Mirrors(table, view, lost) && IsPlace(view, i, s) && SubEdited(view[i], s)
    requires if view[i].InferCmd? then v.InferCmd? && v.(content := view[i].content) == view[i]
             else exists content :: v == WithContent(view[i], s, content)
    ensures Consistent(view[i := v], numEdits) && Mirrors(table, view[i := v], lost)
  {
    var view' := view[i := v];
    EditedCommandsUpdate(view, i, v);
    assert Settled(view[i]);
    if v.ListCmd? {
      SameMarksSameCount(view[i].copies, s, v.copies[s]);
    }
    forall j | 0 <= j < |view'|
      ensures Settled(view'[j])
    {
      assert j != i ==> Settled(view[j]);
    }
    forall j: nat, t: nat | IsPlace(view', j, t) && !SubEdited(view'[j], t)
      ensures Matches(table, view'[j], t) <==> (j, t) !in lost
    {
      assert IsPlace(view, j, t) && !SubEdited(view[j], t);
    }
  }

  // ----- Progress of one send, on values -----

  predicate AllPackable(view: seq<CmdV>) {
    forall j :: 0 <= j < |view| ==> Packable(view[j])
  }


  /** The first `it` of the commands `v0` have been packed, and command `it` may
      have been packed in part. */
  ghost predicate Stage(v0: seq<CmdV>, view: seq<CmdV>, it: nat) {
    && it <= |v0| == |view|
    && (forall j :: 0 <= j < it ==> view[j] == Clear(v0[j]))
    && (forall j :: it < j < |v0| ==> view[j] == v0[j])
    && (it < |v0| ==> Packable(view[it]) && Clear(view[it]) == Clear(v0[it]))
  }

  /** How far a send has come: what the messages carry and what is still to be
      packed make up the records of the list, unless a page was not accepted. */
  ghost predicate Sent(v0: seq<CmdV>, view: seq<CmdV>, it: nat, ok: bool, msgs: seq<Msg>, chunks: seq<seq<Record>>, count: u32) {
    && AllSettled(v0) && Stage(v0, view, it)
    && Flatten(chunks) <= AllRecords(v0)
    && (ok ==> AllRecords(v0) == Flatten(chunks) + AllRecords(view))
    && (ok && it == |v0| ==> msgs != [])
    && Pages(msgs, chunks, count, ok && it == |v0|)
  }

  lemma SentNothing(v0: seq<CmdV>, count: u32)
    requires AllSettled(v0) && v0 != []
    ensures Sent(v0, v0, 0, true, [], [], count)
  {
  }

  lemma SentStage(v0: seq<CmdV>, view: seq<CmdV>, it: nat, msgs: seq<Msg>, chunks: seq<seq<Record>>, count: u32)
    requires Sent(v0, view, it, true, msgs, chunks, count)
    ensures AllSettled(v0) && Stage(v0, view, it)
  {
  }

  lemma SentPage(v0: seq<CmdV>, view: seq<CmdV>, view': seq<CmdV>, it: nat, it': nat, ok: bool, msgs: seq<Msg>,
                 chunks: seq<seq<Record>>, chunk: seq<Record>, new_: seq<Msg>, count: u32)
    requires Sent(v0, view, it, true, msgs, chunks, count) && it < |v0| && it <= it' && Stage(v0, view', it')
    requires AllRecords(view) == chunk + AllRecords(view')
    requires !ok ==> new_ == []
    requires ok ==> |new_| == 1 && Carries(new_[0], |msgs|, count, chunk) && new_[0].isLast == (it' == |v0|)
    requires ok ==> it' > it || chunk != []
    ensures Sent(v0, view', it', ok, msgs + new_, if ok then chunks + [chunk] else chunks, count)
    ensures ok ==> |view'| - it' + |AllRecords(view')| < |view| - it + |AllRecords(view)|
  {
    hide AllRecords, AllSettled, Carries;
    assert |view'| == |view|;
    FlattenSnoc(chunks, chunk);
    Reassociate(Flatten(chunks), chunk, AllRecords(view'));
    assert msgs + [] == msgs;
  }

  lemma SentAll(v0: seq<CmdV>, view: seq<CmdV>, it: nat, ok: bool, msgs: seq<Msg>, chunks: seq<seq<Record>>, count: u32)
    requires Sent(v0, view, it, ok, msgs, chunks, count) && (ok ==> it == |v0|)
    ensures Pages(msgs, chunks, count, ok) && Flatten(chunks) <= AllRecords(v0)
    ensures ok ==> msgs != [] && Flatten(chunks) == AllRecords(v0) && view == ClearAll(v0)
    ensures ClearAll(view) == ClearAll(v0)
    ensures AllPackable(view)
  {
    StageDone(v0, view, it);
  }

  lemma StageDone(v0: seq<CmdV>, view: seq<CmdV>, it: nat)
    requires Stage(v0, view, it) && AllSettled(v0)
    ensures it == |v0| ==> view == ClearAll(v0) && AllRecords(view) == []
    ensures ClearAll(view) == ClearAll(v0)
    ensures AllPackable(view)
  {
    forall j | 0 <= j < |view|
      ensures Clear(view[j]) == Clear(v0[j]) && Packable(view[j])
    {
      ClearSettles(v0[j]);
      assert Settled(v0[j]);
      if j < it {
        ClearClear(v0[j]);
      }
    }
    if it == |v0| {
      NothingLeft(v0);
      assert view == ClearAll(v0);
    }
  }

  lemma ClearClear(v: CmdV)
    ensures Clear(Clear(v)) == Clear(v)
  {
  }

  lemma {:induction false} NothingLeft(v0: seq<CmdV>)
    ensures AllRecords(ClearAll(v0)) == []
  {
    if v0 != [] {
      var n := |v0| - 1;
      assert ClearAll(v0)[..n] == ClearAll(v0[..n]);
      ClearSettles(v0[n]);
      NothingLeft(v0[..n]);
    }
  }

  /** Packing `recs` of command `it`, whose predecessors are packed, takes just
      these off the records of the list. */
  lemma StageStep(v0: seq<CmdV>, view: seq<CmdV>, it: nat, v: CmdV, ok: bool, recs: seq<Record>)
    requires Stage(v0, view, it) && it < |v0| && AllSettled(v0)
    requires Records(view[it]) == recs + Records(v) && Clear(v) == Clear(view[it]) && Packable(v)
    requires ok ==> v == Clear(view[it])
    ensures Stage(v0, view[it := v], if ok then it + 1 else it)
    ensures AllRecords(view) == recs + AllRecords(view[it := v])
  {
    hide Records, AllRecords, Clear;
    StageRecords(v0, view, it, v, recs);
    if ok && it + 1 < |v0| {
      assert Settled(v0[it + 1]);
    }
  }

  lemma StageRecords(v0: seq<CmdV>, view: seq<CmdV>, it: nat, v: CmdV, recs: seq<Record>)
    requires it < |v0| == |view| && forall j :: 0 <= j < it ==> view[j] == Clear(v0[j])
    requires Records(view[it]) == recs + Records(v)
    ensures AllRecords(view) == recs + AllRecords(view[it := v])
  {
    hide Clear, Records;
    var front := view[..it];
    assert front == ClearAll(v0[..it]);
    NothingLeft(v0[..it]);
    assert view == front + [view[it]] + view[it + 1..];
    assert view[it := v] == front + [v] + view[it + 1..];
    RecordsAround(front, view[it], view[it + 1..]);
    RecordsAround(front, v, view[it + 1..]);
  }

  lemma RecordsAround(front: seq<CmdV>, v: CmdV, back: seq<CmdV>)
    ensures AllRecords(front + [v] + back) == AllRecords(front) + Records(v) + AllRecords(back)
  {
    ConcatMapConcat(Records, front + [v], back);
    ConcatMapSnoc(Records, front, v);
  }

  // ----- A whole send, on values -----

  lemma NoEdits(view: seq<CmdV>)
    requires Consistent(view, 0)
    ensures ClearAll(view) == view && EditedPlaces(view) == {}
    ensures forall lost, table, msgs, ok :: LostAfter(lost, table, view, msgs, ok) == lost
    ensures forall table, n :: Learnt(table, table, view, n)
  {
    forall i | 0 <= i < |view|
      ensures Clear(view[i]) == view[i] && forall s :: 0 <= s < SubCount(view[i]) ==> !SubEdited(view[i], s)
    {
      assert Settled(view[i]);
      if IsEdited(view[i]) {
        EditedCommandsPositive(view, i);
      }
      if view[i].ListCmd? {
        NoneEditedWhenZero(view[i].copies);
        assert ClearCopies(view[i].copies) == view[i].copies;
      }
    }
  }

  lemma {:induction false} EditedCommandsPositive(view: seq<CmdV>, i: nat)
    requires i < |view| && IsEdited(view[i])
    ensures EditedCommands(view) > 0
  {
    if i < |view| - 1 {
      EditedCommandsPositive(view[..|view| - 1], i);
    }
  }

  /** The message without a payload leaves the card's table alone. */
  lemma EmptySend(log: seq<Msg>, msg: Msg)
    requires Run(log).Some? && msg.isFirst && msg.isLast && msg.size == 0
    ensures Run(log + [msg]).Some? && TableOf(log + [msg]) == TableOf(log)
    ensures log + [] == log
  {
  }

  lemma ClearedConsistent(view: seq<CmdV>, numEdits: nat)
    requires Consistent(view, numEdits)
    ensures Consistent(ClearAll(view), 0)
  {
    var clear := ClearAll(view);
    forall i | 0 <= i < |view|
      ensures Settled(clear[i]) && !IsEdited(clear[i]) && Index(clear[i]) == i
      ensures clear[i].ListCmd? ==> CopiesIndexed(clear[i].copies)
    {
      ClearSettles(view[i]);
      assert Index(view[i]) == i;
    }
    NoneEdited(clear);
  }

  /** Only the first message says it is the first, only the last the last. */
  predicate FirstToLast(msgs: seq<Msg>) {
    forall k :: 0 <= k < |msgs| ==>
      msgs[k].isFirst == (k == 0) && msgs[k].isLast == (k == |msgs| - 1) && msgs[k].size <= PAGE_SIZE
  }

  lemma ConsistentSettled(view: seq<CmdV>, numEdits: nat)
    requires Consistent(view, numEdits)
    ensures AllSettled(view) && numEdits == EditedCommands(view)
  {
  }

  /** What is left of a send: the list is consistent with nothing edited, and
      exactly the lost edits disagree with the card. */
  lemma AfterSend(log: seq<Msg>, view: seq<CmdV>, lost: set<(nat, nat)>, msgs: seq<Msg>, chunks: seq<seq<Record>>, ok: bool, numEdits: u32)
    requires Run(log).Some? && Mirrors(TableOf(log), view, lost) && Consistent(view, numEdits)
    requires Pages(msgs, chunks, numEdits, ok) && Flatten(chunks) <= AllRecords(view)
    requires ok ==> msgs != [] && Flatten(chunks) == AllRecords(view)
    ensures Consistent(ClearAll(view), 0) && Run(log + msgs).Some?
    ensures Learnt(TableOf(log), TableOf(log + msgs), view, |Accepted(msgs)|)
    ensures Mirrors(TableOf(log + msgs), ClearAll(view), LostAfter(lost, TableOf(log), view, msgs, ok))
    ensures ok ==> FirstToLast(msgs)
  {
    ClearedConsistent(view, numEdits);
    if ok {
      FinishedSend(log, Run(log).value, view, lost, msgs, chunks);
      PagesFlags(msgs, chunks, numEdits);
    } else {
      BrokenSend(log, Run(log).value, view, lost, msgs, chunks);
    }
  }

  lemma PagesFlags(msgs: seq<Msg>, chunks: seq<seq<Record>>, count: u32)
    requires Pages(msgs, chunks, count, true)
    ensures FirstToLast(msgs)
  {
  }

  // ----- Filling one page -----

  // One call of `pack` in the inner loop of `send_to_card`.
  method PackNext(vec: seq<Cmd>, it: nat, buf: array<byte>, p: nat, size: nat, ghost v0: seq<CmdV>)
    returns (ok: bool, q: nat, ghost recs: seq<Record>)
    requires Apart(vec) && AllSettled(v0) && it < |vec| && Stage(v0, View(vec), it) && p + size <= buf.Length
    modifies Objs(vec[it]), buf
    ensures p <= q <= p + size && Written(buf[..], old(buf[..]), p, q, recs)
    ensures Stage(v0, View(vec), if ok then it + 1 else it)
    ensures AllRecords(old(View(vec))) == recs + AllRecords(View(vec))
    ensures !ok ==> recs != [] || size < COPY_REC_SIZE
    ensures !ok ==> NoRoom(View(vec)[it], p + size - q)
  {
    hide Written, AllRecords, AllSettled, NoRoom;
    ghost var view := View(vec);
    ok, q, recs := Pack(vec[it], buf, p, size);
    forall j | 0 <= j < |vec| && j != it
      ensures V(vec[j]) == view[j]
    {
      assert Objs(vec[j]) !! Objs(vec[it]);
    }
    assert View(vec) == view[it := V(vec[it])];
    StageStep(v0, view, it, V(vec[it]), ok, recs);
  }

  /** A page with so much room left is full for the records that come next. */
  predicate Filled(next: seq<Record>, room: nat) {
    next != [] ==> |Encode(next[0])| > room
  }

  // Nothing is left of the commands before `it`.
  lemma FilledAt(v0: seq<CmdV>, view: seq<CmdV>, it: nat, room: nat)
    requires Stage(v0, view, it) && AllSettled(v0)
    requires it < |view| ==> room == 0 || NoRoom(view[it], room)
    ensures Filled(AllRecords(view), room)
  {
    if it == |v0| {
      StageDone(v0, view, it);
    } else if room > 0 {
      StageRecords(v0, view, it, view[it], []);
      var front := view[..it];
      assert front == ClearAll(v0[..it]);
      NothingLeft(v0[..it]);
      hide Records;
      assert view == front + [view[it]] + view[it + 1..];
      RecordsAround(front, view[it], view[it + 1..]);
    }
  }

  lemma WrittenSlice(now: seq<byte>, was: seq<byte>, off: nat, p: nat, q: nat, recs: seq<Record>)
    requires off <= p && Written(now, was, p, q, recs)
    ensures q <= |now| && now[off..q] == was[off..p] + EncodeAll(recs)
  {
  }

  lemma WrittenOnPage(now: seq<byte>, was: seq<byte>, off: nat, p: nat, q: nat, recs: seq<Record>)
    requires off <= p && q <= off + PAGE_SIZE <= |was| && Written(now, was, p, q, recs)
    ensures OnlyPage(was, now, off)
  {
    StoredOnPage(was, now, off, p, EncodeAll(recs));
  }

  /** Fills the page at `off` and nothing else: the edit count on the first page, then as
      many whole records as fit, going on from command `start`. The next record, if there
      is one, would not fit. Every page makes progress. */
  method FillPage(vec: seq<Cmd>, buf: array<byte>, off: nat, k: nat, count: u32, start: nat, ghost v0: seq<CmdV>)
    returns (it: nat, size: u16, ghost chunk: seq<Record>)
    requires Apart(vec) && AllSettled(v0) && start < |vec| && Stage(v0, View(vec), start)
    requires off + PAGE_SIZE <= buf.Length
    modifies Repr(vec), buf
    ensures start <= it <= |vec| && Stage(v0, View(vec), it)
    ensures AllRecords(old(View(vec))) == chunk + AllRecords(View(vec))
    ensures size <= PAGE_SIZE && buf[off..off + size] == Payload(k, count, chunk)
    ensures OnlyPage(old(buf[..]), buf[..], off)
    ensures it > start || chunk != []
    ensures Filled(AllRecords(View(vec)), PAGE_SIZE - size)
  {
    hide Written, AllRecords, AllSettled, Stage, Apart, U32, EncodeAll, OnlyPage, V, View, Filled;
    ghost var view, was := View(vec), buf[..];
    NothingStored(was, off);
    var p := off;
    if k == 0 {
      Store(buf, p, U32(count));
      p := p + 4;
      StoredOnPage(was, buf[..], off, off, U32(count));
    }
    assert View(vec) == view;
    ghost var base := buf[..];
    assert base[off..p] == if k == 0 then U32(count) else [];
    ghost var p0 := p;
    it, p, chunk := PackMany(vec, buf, p, off + PAGE_SIZE - p, start, v0);
    WrittenSlice(buf[..], base, off, p0, p, chunk);
    WrittenOnPage(buf[..], base, off, p0, p, chunk);
    OnlyPageTwice(was, base, buf[..], off);
    size := p - off;
    assert buf[off..off + size] == buf[..][off..p];
  }

  // The inner loop of `send_to_card`.
  method PackMany(vec: seq<Cmd>, buf: array<byte>, p0: nat, size: nat, start: nat, ghost v0: seq<CmdV>)
    returns (it: nat, p: nat, ghost chunk: seq<Record>)
    requires Apart(vec) && AllSettled(v0) && start < |vec| && Stage(v0, View(vec), start)
    requires COPY_REC_SIZE <= size && p0 + size <= buf.Length
    modifies Repr(vec), buf
    ensures start <= it <= |vec| && Stage(v0, View(vec), it) && p0 <= p <= p0 + size
    ensures AllRecords(old(View(vec))) == chunk + AllRecords(View(vec))
    ensures Written(buf[..], old(buf[..]), p0, p, chunk)
    ensures it > start || chunk != []
    ensures Filled(AllRecords(View(vec)), p0 + size - p)
  {
    hide Written, AllRecords, AllSettled, Stage, Apart, V, View, NoRoom, Filled;
    ghost var view, base := View(vec), buf[..];
    WrittenNothing(base, p0);
    it, p, chunk := start, p0, [];
    assert AllRecords(view) == [] + AllRecords(View(vec));
    var more := true;
    while more && it < |vec| && p < p0 + size
      invariant start <= it <= |vec| && p0 <= p <= p0 + size
      invariant Stage(v0, View(vec), it)
      invariant AllRecords(view) == chunk + AllRecords(View(vec))
      invariant Written(buf[..], base, p0, p, chunk)
      invariant it == start && chunk == [] ==> more && p == p0
      invariant !more && it < |vec| ==> NoRoom(View(vec)[it], p0 + size - p)
      decreases |vec| - it, more
    {
      ghost var recs, mid, at := [], buf[..], p;
      more, p, recs := PackNext(vec, it, buf, p, p0 + size - p, v0);
      WrittenMore(buf[..], mid, base, p0, at, p, chunk, recs);
      Reassociate(chunk, recs, AllRecords(View(vec)));
      chunk := chunk + recs;
      if more {
        it := it + 1;
      }
    }
    FilledAt(v0, View(vec), it, p0 + size - p);
  }

  // The loop over all commands after a failed send.
  method ClearAllEdits(vec: seq<Cmd>)
    requires Apart(vec) && AllPackable(View(vec))
    modifies Repr(vec)
    ensures View(vec) == ClearAll(old(View(vec)))
  {
    hide Clear, Packable, Apart;
    ghost var view := View(vec);
    for i := 0 to |vec|
      invariant forall j :: 0 <= j < |vec| ==> View(vec)[j] == if j < i then Clear(view[j]) else view[j]
    {
      assert Packable(View(vec)[i]);
      ClearOne(vec, i);
    }
    assert View(vec) == ClearAll(view);
  }

  method ClearOne(vec: seq<Cmd>, i: nat)
    requires Apart(vec) && i < |vec| && Packable(V(vec[i]))
    modifies Objs(vec[i])
    ensures View(vec) == old(View(vec))[i := Clear(old(View(vec))[i])]
  {
    hide Clear, Packable, WellFormed;
    ghost var view := View(vec);
    ClearEdits(vec[i]);
    forall j | 0 <= j < |vec| && j != i
      ensures V(vec[j]) == view[j]
    {
      assert Objs(vec[j]) !! Objs(vec[i]);
    }
    assert View(vec) == view[i := V(vec[i])];
  }

  /** The page loop of `send_to_card`. It ends because each page takes records
      off what is left or moves on to a later command. */
  method SendPages(vec: seq<Cmd>, count: u32, chan: Chan<Msg>, op: Opcode, ring: Ring)
    returns (ok: bool, ghost msgs: seq<Msg>, ghost chunks: seq<seq<Record>>)
    requires |vec| > 0 && Apart(vec) && AllSettled(View(vec)) && RingReady(ring)
    modifies ring, ring.buf, chan, Repr(vec)
    ensures RingReady(ring) && chan.log == old(chan.log) + msgs
    ensures Queued(ring.Contents(), old(ring.Contents()), msgs)
    ensures AllOf(msgs, op) && AllFilled(msgs, chunks, AllRecords(old(View(vec))))
    ensures ok <==> chan.failures == old(chan.failures) && !ring.invalid
    ensures chan.failures >= old(chan.failures) && chan.refusals == old(chan.refusals)
    ensures Pages(msgs, chunks, count, ok) && Flatten(chunks) <= AllRecords(old(View(vec)))
    ensures ok ==> msgs != [] && Flatten(chunks) == AllRecords(old(View(vec)))
    ensures ok ==> View(vec) == ClearAll(old(View(vec)))
    ensures ClearAll(View(vec)) == ClearAll(old(View(vec)))
    ensures AllPackable(View(vec))
  {
    hide Apart, AllSettled, AllRecords, Stage, V, View, Flatten, Pages, Sent, AllPackable, ClearAll, Carries, Payload, EncodeAll, Queued, PagesOf, Ring.Valid, Ring.Contents, Ring.AvailBytes, AllOf, AllFilled, Filled;
    ghost var v0: seq<CmdV>, queue: seq<byte>, log: seq<Msg> := View(vec), ring.Contents(), chan.log;
    SentNothing(v0, count);
    NoPage();
    NoneOf(op);
    NoneFilled(AllRecords(v0));
    QueuedNothing(queue, []);
    msgs, chunks := [], [];
    ok := true;
    var it, k := 0, 0;
    while ok && it < |vec|
      invariant it <= |vec| && k == |msgs| && RingReady(ring) && chan.log == log + msgs
      invariant Sent(v0, View(vec), it, ok, msgs, chunks, count)
      invariant Queued(ring.Contents(), queue, msgs)
      invariant AllOf(msgs, op) && AllFilled(msgs, chunks, AllRecords(v0))
      invariant chan.failures >= old(chan.failures) && chan.refusals == old(chan.refusals)
      invariant if ok then chan.failures == old(chan.failures) && (it > 0 ==> !ring.invalid)
                else chan.failures > old(chan.failures) || ring.invalid
      decreases |vec| - it + |AllRecords(View(vec))|, ok
    {
      ghost var chunk, sent, gone, view, at, before := [], [], 0, View(vec), it, ring.Contents();
      SentStage(v0, view, it, msgs, chunks, count);
      ok, it, chunk, sent, gone := SendPage(vec, count, chan, op, ring, k, it, v0);
      SentPage(v0, view, View(vec), at, it, ok, msgs, chunks, chunk, sent, count);
      Reassociate(log, msgs, sent);
      QueuedMore(before, ring.Contents(), queue, msgs, sent, gone);
      MoreOf(msgs, sent, op);
      if ok {
        PageFilled(msgs, chunks, v0, View(vec), it, sent, chunk, count);
      } else {
        assert msgs + sent == msgs;
      }
      msgs, chunks := msgs + sent, if ok then chunks + [chunk] else chunks;
      k := if ok then k + 1 else k;
    }
    SentAll(v0, View(vec), it, ok, msgs, chunks, count);
  }

  // The page loop, and the dropping of all edits if it broke off.
  method SendOrDrop(vec: seq<Cmd>, count: u32, chan: Chan<Msg>, op: Opcode, ring: Ring)
    returns (ok: bool, ghost msgs: seq<Msg>, ghost chunks: seq<seq<Record>>)
    requires |vec| > 0 && Apart(vec) && AllSettled(View(vec)) && RingReady(ring)
    modifies ring, ring.buf, chan, Repr(vec)
    ensures RingReady(ring) && chan.log == old(chan.log) + msgs
    ensures Queued(ring.Contents(), old(ring.Contents()), msgs)
    ensures AllOf(msgs, op) && AllFilled(msgs, chunks, AllRecords(old(View(vec))))
    ensures ok <==> chan.failures == old(chan.failures) && !ring.invalid
    ensures chan.failures >= old(chan.failures) && chan.refusals == old(chan.refusals)
    ensures Pages(msgs, chunks, count, ok) && Flatten(chunks) <= AllRecords(old(View(vec)))
    ensures ok ==> msgs != [] && Flatten(chunks) == AllRecords(old(View(vec)))
    ensures View(vec) == ClearAll(old(View(vec)))
  {
    hide Apart, AllSettled, AllRecords, V, View, Flatten, Pages, ClearAll, AllPackable, Queued, Around, AllOf, AllFilled, Filled;
    ok, msgs, chunks := SendPages(vec, count, chan, op, ring);
    if !ok {
      assert (ring as object) !in Repr(vec) && (chan as object) !in Repr(vec);
      ClearAllEdits(vec);
    }
  }

  /** One page: filled in the ring behind all that is still queued, announced on
      the channel, and queued itself if the message was accepted. */
  method SendPage(vec: seq<Cmd>, count: u32, chan: Chan<Msg>, op: Opcode, ring: Ring, k: nat, start: nat, ghost v0: seq<CmdV>)
    returns (ok: bool, it: nat, ghost chunk: seq<Record>, ghost sent: seq<Msg>, ghost consumed: nat)
    requires start < |vec| && Apart(vec) && RingReady(ring)
    requires AllSettled(v0) && Stage(v0, View(vec), start)
    modifies ring, ring.buf, chan, Repr(vec)
    ensures RingReady(ring) && start <= it <= |vec| && Stage(v0, View(vec), it)
    ensures AllRecords(old(View(vec))) == chunk + AllRecords(View(vec))
    ensures chan.log == old(chan.log) + sent && |sent| == (if ok then 1 else 0)
    ensures ok ==> Carries(sent[0], k, count, chunk) && sent[0].isLast == (it == |vec|)
    ensures consumed <= |old(ring.Contents())|
    ensures ring.Contents() == old(ring.Contents())[consumed..] + PagesOf(sent)
    ensures ok ==> it > start || chunk != []
    ensures ok ==> Filled(AllRecords(View(vec)), PAGE_SIZE - sent[0].size) && sent[0].size <= PAGE_SIZE
    ensures AllOf(sent, op)
    ensures ok <==> chan.failures == old(chan.failures) && !ring.invalid
    ensures chan.failures >= old(chan.failures) && chan.refusals == old(chan.refusals) && (old(ring.invalid) ==> ring.invalid)
  {
    hide Apart, AllSettled, AllRecords, Stage, V, View, Payload, EncodeAll, Carries, Around, OnlyPage, PagesOf, Filled, AllOf;
    var off;
    it, chunk, sent := start, [], [];
    NoPage();
    NoneOf(op);
    ok, off, consumed := LockFor(vec, ring);
    if !ok {
      assert AllRecords(View(vec)) == [] + AllRecords(View(vec));
      return;
    }
    var size;
    ghost var was := ring.buf[..];
    it, size, chunk := FillPage(vec, ring.buf, off, k, count, start, v0);
    FillKeepsQueue(ring, was, off);
    ok, sent := Send(vec, count, chan, op, ring, off, k, size, it == |vec|, chunk);
  }

  // Locking a page of the ring.
  method LockFor(ghost vec: seq<Cmd>, ring: Ring) returns (ok: bool, off: nat, ghost consumed: nat)
    requires RingReady(ring)
    modifies ring
    ensures View(vec) == old(View(vec))
    ensures ok == !ring.invalid && (old(ring.invalid) ==> ring.invalid)
    ensures if ok then PageAt(ring, off) else RingReady(ring)
    ensures consumed <= |old(ring.Contents())| && ring.Contents() == old(ring.Contents())[consumed..]
  {
    hide V, View, Around;
    assert (ring as object) !in Repr(vec);
    ok, off, consumed := LockPage(ring);
  }

  // Announcing a filled page.
  method Send(ghost vec: seq<Cmd>, ghost count: u32, chan: Chan<Msg>, op: Opcode, ring: Ring, off: nat, k: nat, size: u16, last: bool, ghost chunk: seq<Record>)
    returns (ok: bool, ghost sent: seq<Msg>)
    requires PageAt(ring, off) && size <= PAGE_SIZE
    requires ring.buf[off..off + size] == Payload(k, count, chunk)
    modifies ring, chan
    ensures RingReady(ring) && View(vec) == old(View(vec))
    ensures chan.log == old(chan.log) + sent && |sent| == (if ok then 1 else 0)
    ensures ok ==> Carries(sent[0], k, count, chunk) && sent[0].isLast == last
    ensures ring.Contents() == old(ring.Contents()) + PagesOf(sent)
    ensures AllOf(sent, op) && (ok ==> sent[0].size == size)
    ensures ok == (chan.failures == old(chan.failures)) && chan.failures >= old(chan.failures)
    ensures chan.refusals == old(chan.refusals) && ring.invalid == old(ring.invalid)
  {
    hide Payload, V, View, Around, PagesOf;
    assert (ring as object) !in Repr(vec) && (chan as object) !in Repr(vec);
    var page := ring.buf[off..off + PAGE_SIZE];
    var msg := Msg(op, k == 0, last, size, page);
    Within(ring.buf[..], off, PAGE_SIZE, size);
    ok := Announce(chan, ring, off, msg);
    sent := if ok then [msg] else [];
    NoPage();
    OnePage(msg);
  }

  /** All messages are of that kind. */
  predicate AllOf(msgs: seq<Msg>, op: Opcode) {
    forall m :: m in msgs ==> m.opcode == op
  }

  lemma NoneOf(op: Opcode)
    ensures AllOf([], op)
  {
  }

  lemma MoreOf(msgs: seq<Msg>, sent: seq<Msg>, op: Opcode)
    requires AllOf(msgs, op) && AllOf(sent, op)
    ensures AllOf(msgs + sent, op)
  {
  }

  /** No page but the last has room for the record that comes next. */
  ghost predicate AllFilled(msgs: seq<Msg>, chunks: seq<seq<Record>>, records: seq<Record>) {
    |msgs| == |chunks| && forall k :: 0 <= k < |msgs| ==> FilledTo(msgs[k], chunks[..k + 1], records)
  }

  ghost predicate FilledTo(m: Msg, chunks: seq<seq<Record>>, records: seq<Record>) {
    var n := |Flatten(chunks)|;
    m.size <= PAGE_SIZE && n <= |records| && Filled(records[n..], PAGE_SIZE - m.size)
  }

  lemma NoneFilled(records: seq<Record>)
    ensures AllFilled([], [], records)
  {
  }

  lemma OneMoreFilled(msgs: seq<Msg>, chunks: seq<seq<Record>>, records: seq<Record>, m: Msg, chunk: seq<Record>, rest: seq<Record>)
    requires AllFilled(msgs, chunks, records) && records == Flatten(chunks + [chunk]) + rest
    requires m.size <= PAGE_SIZE && Filled(rest, PAGE_SIZE - m.size)
    ensures AllFilled(msgs + [m], chunks + [chunk], records)
  {
    hide Filled, Flatten;
    var all := chunks + [chunk];
    assert records[|Flatten(all)|..] == rest;
    forall k | 0 <= k <= |msgs|
      ensures FilledTo((msgs + [m])[k], all[..k + 1], records)
    {
      if k < |msgs| {
        assert all[..k + 1] == chunks[..k + 1];
      } else {
        assert all[..k + 1] == all;
      }
    }
  }

  // Where one page more has been accepted.
  lemma PageFilled(msgs: seq<Msg>, chunks: seq<seq<Record>>, v0: seq<CmdV>, view: seq<CmdV>, it: nat, sent: seq<Msg>, chunk: seq<Record>, count: u32)
    requires Sent(v0, view, it, true, msgs + sent, chunks + [chunk], count) && |sent| == 1
    requires AllFilled(msgs, chunks, AllRecords(v0))
    requires sent[0].size <= PAGE_SIZE && Filled(AllRecords(view), PAGE_SIZE - sent[0].size)
    ensures AllFilled(msgs + sent, chunks + [chunk], AllRecords(v0))
  {
    hide Filled, Flatten, AllRecords, AllFilled, Pages;
    OneMoreFilled(msgs, chunks, AllRecords(v0), sent[0], chunk, AllRecords(view));
    assert sent == [sent[0]];
  }

  /** The pages that messages are about, one after the other. */
  function PagesOf(msgs: seq<Msg>): seq<byte> {
    if msgs == [] then [] else PagesOf(msgs[..|msgs| - 1]) + msgs[|msgs| - 1].page
  }

  lemma NoPage()
    ensures PagesOf([]) == []
  {
  }

  lemma OnePage(msg: Msg)
    ensures PagesOf([msg]) == msg.page
  {
    assert [msg][..0] == [];
  }

  lemma PagesMore(msgs: seq<Msg>, m: seq<Msg>)
    requires |m| <= 1
    ensures PagesOf(msgs + m) == PagesOf(msgs) + PagesOf(m)
  {
    if m == [] {
      assert msgs + m == msgs;
    } else {
      assert (msgs + m)[..|msgs|] == msgs && m[..0] == [];
    }
  }

  /** What a ring has after a send: the queued bytes, then the announced pages,
      without what the card has consumed of them, in order. */
  ghost predicate Queued(contents: seq<byte>, queue: seq<byte>, msgs: seq<Msg>) {
    var all := queue + PagesOf(msgs);
    |contents| <= |all| && contents == Last(all, |contents|)
  }

  lemma QueuedNothing(queue: seq<byte>, msgs: seq<Msg>)
    requires PagesOf(msgs) == []
    ensures Queued(queue, queue, msgs)
  {
    assert Last(queue, |queue|) == queue;
    assert queue + PagesOf(msgs) == queue;
  }

  lemma QueuedMore(before: seq<byte>, contents: seq<byte>, queue: seq<byte>, msgs: seq<Msg>, m: seq<Msg>, consumed: nat)
    requires Queued(before, queue, msgs) && |m| <= 1
    requires consumed <= |before| && contents == before[consumed..] + PagesOf(m)
    ensures Queued(contents, queue, msgs + m)
  {
    hide PagesOf, Last;
    PagesMore(msgs, m);
    LastThenAppend(queue + PagesOf(msgs), PagesOf(m), |before|, consumed);
    Reassociate(queue, PagesOf(msgs), PagesOf(m));
  }

  /** Which result a send has. The ring matters only if something is edited. */
  function SendResult(empty: bool, edits: nat, dead: bool, broken: bool, failed: bool): Status {
    if empty then NotSupported
    else if broken then ContextBroken
    else if failed || (edits > 0 && dead) then IoError
    else NoError
  }

  /** What a send may change: the message log, the list's value and its lost edits,
      and the bytes queued in the two rings. */
  datatype Snap = Snap(log: seq<Msg>, view: seq<CmdV>, numEdits: nat, lost: set<(nat, nat)>, create: seq<byte>, schedule: seq<byte>)

  /** The pages are on the ring for this kind of message, and the other is untouched. */
  ghost predicate OnRing(op: Opcode, was: Snap, now: Snap, msgs: seq<Msg>) {
    if op.CreateCmdList? then Queued(now.create, was.create, msgs) && now.schedule == was.schedule
    else Queued(now.schedule, was.schedule, msgs) && now.create == was.create
  }

  /** What a send with that result has done: everything that is edited is told to the
      card or, where its page was not accepted, dropped. */
  ghost predicate SentAs(ret: Status, op: Opcode, was: Snap, now: Snap, msgs: seq<Msg>) {
    && now.log == was.log + msgs && AllOf(msgs, op) && OnRing(op, was, now, msgs)
    && Learnt(TableOf(was.log), TableOf(now.log), was.view, |Accepted(msgs)|)
    && (if ret == NoError || ret == IoError
        then && now.view == ClearAll(was.view) && now.numEdits == 0
             && now.lost == LostAfter(was.lost, TableOf(was.log), was.view, msgs, ret == NoError)
        else now == was && msgs == [])
    && (ret == NoError ==> msgs != [] && FirstToLast(msgs))
  }

  // What a send, or none, has done to the rings and the log.
  lemma SentParts(ret: Status, op: Opcode, was: Snap, now: Snap, msgs: seq<Msg>)
    requires SentAs(ret, op, was, now, msgs) || (now == was && msgs == [])
    ensures now.log == was.log + msgs && forall m :: m in msgs ==> m.opcode == op
    ensures op.CreateCmdList? ==> Queued(now.create, was.create, msgs) && now.schedule == was.schedule
    ensures op.ScheduleCmdList? ==> Queued(now.schedule, was.schedule, msgs) && now.create == was.create
    ensures SentAs(ret, op, was, now, msgs) ==>
      && (ret == NoError ==>
            && now.numEdits == 0 && msgs != [] && FirstToLast(msgs)
            && now.lost == LostAfter(was.lost, TableOf(was.log), was.view, msgs, true))
      && (ret != NoError && ret != IoError ==> now == was)
  {
    hide Queued, Learnt, LostAfter, ClearAll, FirstToLast, Accepted, TableOf;
    NoPage();
    QueuedNothing(was.schedule, []);
    QueuedNothing(was.create, []);
  }

  lemma SendResults(empty: bool, edits: nat, dead: bool, broken: bool, failed: bool)
    ensures SendResult(empty, edits, dead, broken, failed) ==
      if empty then NotSupported else if broken then ContextBroken
      else if failed || (edits > 0 && dead) then IoError else NoError
  {
  }

  lemma SameRings(op: Opcode, was: Snap, mid: Snap, now: Snap, msgs: seq<Msg>)
    requires OnRing(op, was, mid, msgs) && now.create == mid.create && now.schedule == mid.schedule
    ensures OnRing(op, was, now, msgs)
  {
  }

  class CmdList {
    var vec: seq<Cmd>
    var numEdits: u16
    var finalized: bool
    var inFlight: bool
    var failedCommands: nat
    var listedErrors: nat
    const chan: Chan<Msg>
    const createRing: Ring
    const scheduleRing: Ring
    // What the user appended, in order.
    ghost var appended: seq<Cmd>
    // Places whose edits a failed send has dropped, and the card has something else.
    ghost var lost: set<(nat, nat)>

    ghost predicate Valid()
      reads this, Repr(vec), chan, createRing, scheduleRing
    {
      && |vec| <= U16_MAX && Apart(vec)
      && Consistent(View(vec), numEdits)
      && Flat(vec) == appended && AllBatches(vec)
      && Run(chan.log).Some? && Mirrors(TableOf(chan.log), View(vec), lost)
      && RingsReady()
    }

    ghost predicate RingsReady()
      reads createRing, scheduleRing
    {
      && RingReady(createRing) && RingReady(scheduleRing)
      && createRing != scheduleRing && createRing.buf != scheduleRing.buf
    }

    ghost function Now(): Snap
      requires RingsReady()
      reads this, Repr(vec), chan, createRing, createRing.buf, scheduleRing, scheduleRing.buf
    {
      Snap(chan.log, View(vec), numEdits, lost, createRing.Contents(), scheduleRing.Contents())
    }

    // One of the two rings, by message kind.
    function RingFor(op: Opcode): Ring {
      if op.CreateCmdList? then createRing else scheduleRing
    }

    /** The rings are created with whole pages (two of them). */
    constructor (createRing: Ring, scheduleRing: Ring, chan: Chan<Msg>)
      requires RingReady(createRing) && RingReady(scheduleRing) && chan.log == []
      requires createRing != scheduleRing && createRing.buf != scheduleRing.buf
      ensures Valid() && vec == [] && !finalized && !inFlight && lost == {} && appended == []
      ensures failedCommands == 0 == listedErrors && numEdits == 0
      ensures this.createRing == createRing && this.scheduleRing == scheduleRing && this.chan == chan
    {
      this.createRing, this.scheduleRing, this.chan := createRing, scheduleRing, chan;
      vec, numEdits, finalized, inFlight, failedCommands, listedErrors := [], 0, false, false, 0, 0;
      appended, lost := [], {};
    }

    /** append. It is open until `finalize` has succeeded, so also after one
        that failed. */
    method Append(cmd: Option<Cmd>) returns (ret: Status)
      requires Valid()
      requires cmd.Some? ==> !cmd.value.List? && IsEdited(V(cmd.value)) && Objs(cmd.value) !! Repr(vec)
      modifies this, if cmd.Some? then Objs(cmd.value) else {}
      ensures Valid() && lost == old(lost) && chan.log == old(chan.log)
      ensures ret == (if old(finalized) then DeviceBusy
                      else if cmd.None? then InvalidArgument
                      else if |old(vec)| >= U16_MAX then TooManyContexts
                      else NoError)
      ensures ret == NoError ==> appended == old(appended) + [cmd.value] && vec == old(vec) + [cmd.value]
      ensures ret == NoError ==> View(vec) == old(View(vec)) + [WithIndex(old(V(cmd.value)), |old(vec)|)]
      ensures ret != NoError ==> vec == old(vec) && appended == old(appended) && numEdits == old(numEdits)
    {
      hide Valid, V, View, WithIndex;
      SizeOk();
      if finalized {
        return DeviceBusy;
      }
      if cmd.None? {
        return InvalidArgument;
      }
      if |vec| >= 65535 {
        return TooManyContexts;
      }
      DoAppend(cmd.value);
      ret := NoError;
    }

    method DoAppend(cmd: Cmd)
      requires Valid() && !finalized && |vec| < U16_MAX
      requires !cmd.List? && IsEdited(V(cmd)) && Objs(cmd) !! Repr(vec)
      modifies this`vec, this`numEdits, this`appended, Objs(cmd)
      ensures Valid() && vec == old(vec) + [cmd] && appended == old(appended) + [cmd]
      ensures View(vec) == old(View(vec)) + [WithIndex(old(V(cmd)), |old(vec)|)]
    {
      hide Apart, Consistent, Mirrors, Run, TableOf, ConcatMap, V, View, WithIndex, RingsReady, AllBatches;
      hide Apart, Consistent, Mirrors, Run, TableOf, ConcatMap, V, View, WithIndex, RingsReady, AllBatches;
      hide Apart, Consistent, Mirrors, Run, TableOf, ConcatMap, V, View, WithIndex, RingsReady, AllBatches;
      assert (this as object) !in Objs(cmd) && (chan as object) !in Objs(cmd);
      assert (createRing as object) !in Objs(cmd) && (scheduleRing as object) !in Objs(cmd);
      ghost var view, v := View(vec), WithIndex(V(cmd), |vec|);
      WithIndexKeeps(V(cmd), |vec|);
      BatchesMore(vec, cmd);
      vec := PushBack(vec, cmd);
      AppendKeeps(TableOf(chan.log), view, v, lost, numEdits);
      numEdits := numEdits + 1;
      appended := appended + [cmd];
      assert View(vec) == view + [v];
    }

    /** Of the commands and subcopies that are not marked edited, and so of all once no
        edits are counted, the card has exactly those with no edit lost in a failed
        send. As long as no send has failed none is lost. */
    lemma CardHas(i: nat, s: nat)
      requires Valid() && IsPlace(View(vec), i, s)
      ensures !SubEdited(View(vec)[i], s) || numEdits == 0 ==>
        (Matches(TableOf(chan.log), View(vec)[i], s) <==> (i, s) !in lost)
    {
      if numEdits == 0 {
        NoEdits(View(vec));
        assert (i, s) !in EditedPlaces(View(vec));
      }
    }

    /** nnpdrvCommandListOverwriteCopy. A command of another kind is refused, but
        has been marked for sending by then. */
    method OverwriteCopy(usrIdx: u16, byteSize: u64, priority: u8, skip: bool)
      returns (ret: Status, ghost i: nat, ghost s: nat)
      requires Valid()
      modifies this`numEdits, Repr(vec)
      ensures Valid() && appended == old(appended) && vec == old(vec)
      ensures ret == InvalidArgument ==> View(vec) == old(View(vec)) && numEdits == old(numEdits)
      ensures ret != InvalidArgument ==> FlatAt(vec, usrIdx, i, s)
      ensures ret == WrongKind ==> Marked(old(View(vec)), View(vec), i, s)
      ensures ret == (if usrIdx >= |appended| then InvalidArgument
                      else if !appended[usrIdx].Copy? then WrongKind else NoError)
      ensures ret == NoError ==>
        var c := appended[usrIdx].c;
        var size := if skip then 0 else if byteSize == 0 then TWO_64 - 1 else byteSize;
        var content := CopyContent(c.copy.id, priority, Min(size, c.copy.maxSize));
        c.edited && c.V().content == content && Overwritten(old(View(vec)), View(vec), i, s, content)
    {
      hide Valid, FlatAt, V, View, SubEdited, Marked, Changed, Overwritten;
      ghost var was := View(vec);
      var r;
      r, i, s := GetCmdForOverwrite(usrIdx);
      if r.None? {
        ret := InvalidArgument;
        return;
      }
      if !r.value.Copy? {
        ret := WrongKind;
        return;
      }
      var size: u64 := if skip then 0 else if byteSize == 0 then TWO_64 - 1 else byteSize;
      ghost var mid := View(vec);
      SetContent(r.value.c, i, s, priority, size);
      MarkedAndChanged(was, mid, View(vec), i, s, r.value.c.V().content);
      ret := NoError;
    }

    method SetContent(c: CopyParams, ghost i: nat, ghost s: nat, priority: u8, size: u64)
      requires Valid() && IsPlace(View(vec), i, s) && Leaves(vec[i])[s] == Copy(c) && SubEdited(View(vec)[i], s)
      modifies Repr(vec)
      ensures Valid() && c.edited && c.V().content == CopyContent(c.copy.id, priority, Min(size, c.copy.maxSize))
      ensures Changed(old(View(vec)), View(vec), i, s, c.V().content)
    {
      hide Apart, Mirrors, Run, TableOf, ConcatMap, RingsReady, AllBatches, Consistent, WithContent;
      ghost var view := View(vec);
      ghost var content := SetContentIn(vec, i, s, c, priority, size);
      WithContentKeepsMarks(view[i], s, content);
      ContentKeeps(TableOf(chan.log), view, numEdits, lost, i, s, WithContent(view[i], s, content));
    }

    /** nnpdrvCommandListOverwriteInferRequest. */
    method OverwriteInferRequest(usrIdx: u16, params: Option<InferParams>)
      returns (ret: Status, ghost i: nat, ghost s: nat)
      requires Valid()
      modifies this`numEdits, Repr(vec)
      ensures Valid() && appended == old(appended) && vec == old(vec)
      ensures ret == InvalidArgument ==> View(vec) == old(View(vec)) && numEdits == old(numEdits)
      ensures ret != InvalidArgument ==> FlatAt(vec, usrIdx, i, s)
      ensures ret == WrongKind ==> Marked(old(View(vec)), View(vec), i, s)
      ensures ret == (if usrIdx >= |appended| then InvalidArgument
                      else if !appended[usrIdx].Infer? then WrongKind else NoError)
      ensures ret == NoError ==>
        var q := appended[usrIdx].q;
        && q.V() == InferCmd(q.idx, InferContent(q.netId, q.reqId,
             if params.None? then None else Some(params.value.(priority := q.priority))), true)
        && vec[i] == Infer(q) && View(vec) == old(View(vec))[i := q.V()]
    {
      hide Valid, Mark, Settled, FlatAt;
      var r;
      r, i, s := GetCmdForOverwrite(usrIdx);
      if r.None? {
        ret := InvalidArgument;
        return;
      }
      if !r.value.Infer? {
        ret := WrongKind;
        return;
      }
      SetParams(r.value.q, i, s, params);
      ret := NoError;
    }

    method SetParams(q: InferReqParams, ghost i: nat, ghost s: nat, params: Option<InferParams>)
      requires Valid() && IsPlace(View(vec), i, s) && Leaves(vec[i])[s] == Infer(q) && SubEdited(View(vec)[i], s)
      modifies Repr(vec)
      ensures Valid() && vec[i] == Infer(q) && View(vec) == old(View(vec))[i := q.V()]
      ensures q.V() == InferCmd(q.idx, InferContent(q.netId, q.reqId,
        if params.None? then None else Some(params.value.(priority := q.priority))), true)
    {
      hide Apart, Mirrors, Run, ConcatMap, RingsReady, AllBatches, EditedCommands;
      ghost var view := View(vec);
      SetParamsIn(vec, i, q, params);
      ContentKeeps(TableOf(chan.log), view, numEdits, lost, i, s, q.V());
    }

    /** The command at the user's index, which batching has not moved: the very
        object that was appended there, marked for the next send. */
    method GetCmdForOverwrite(usrIdx: u16) returns (r: Option<Cmd>, ghost i: nat, ghost s: nat)
      requires Valid()
      modifies this`numEdits, Repr(vec)
      ensures Valid()
      ensures r == (if usrIdx < |appended| then Some(appended[usrIdx]) else None)
      ensures r.None? ==> View(vec) == old(View(vec)) && numEdits == old(numEdits)
      ensures r.Some? ==> FlatAt(vec, usrIdx, i, s) && Leaves(vec[i])[s] == r.value
      ensures r.Some? ==> IsPlace(View(vec), i, s) && SubEdited(View(vec)[i], s)
      ensures r.Some? ==> Marked(old(View(vec)), View(vec), i, s)
    {
      hide Valid, Marked, V, View, SubEdited, IsPlace, Objs, Leaves, FlatAt;
      var at, idx := FindPlace(usrIdx);
      i, s := at, idx;
      if at >= |vec| {
        return None, i, s;
      }
      r := MarkPlace(at, idx);
    }

    // The search loop.
    method FindPlace(usrIdx: u16) returns (i: u16, idx: u16)
      requires Valid()
      ensures Valid() && i <= |vec| && View(vec) == old(View(vec))
      ensures i == |vec| ==> usrIdx >= |appended|
      ensures i < |vec| ==> idx < NumOfSubcmds(vec[i]) && FlatAt(vec, usrIdx, i, idx)
      ensures i < |vec| ==> usrIdx < |appended| && appended[usrIdx] == Leaves(vec[i])[idx]
    {
      hide ConcatMap, Consistent, Mirrors, Run, Leaves, Apart;
      idx := usrIdx;
      i := 0;
      assert Flat(vec[..0]) == [] by {
        EmptyFlat();
      }
      while i < |vec| && idx >= NumOfSubcmds(vec[i])
        invariant Valid() && i <= |vec| && usrIdx == idx + |Flat(vec[..i])|
      {
        FlatLength(vec, i);
        idx := idx - NumOfSubcmds(vec[i]);
        i := i + 1;
      }
      if i == |vec| {
        assert vec[..|vec|] == vec;
      } else {
        FlatLookup(vec, usrIdx, i, idx);
      }
    }

    method MarkPlace(i: nat, s: nat) returns (r: Option<Cmd>)
      requires Valid() && i < |vec| && s < NumOfSubcmds(vec[i])
      modifies this`numEdits, Repr(vec)
      ensures Valid() && Found(vec, View(vec), i, s, r)
      ensures Marked(old(View(vec)), View(vec), i, s)
    {
      hide Apart, Mirrors, Run, ConcatMap, Mark, RingsReady, EditedCommands, Leaves, Objs, V, View;
      ghost var view := View(vec);
      assert Settled(view[i]) && IsPlace(view, i, s);
      MarkKeeps(TableOf(chan.log), view, numEdits, lost, i, s);
      if !IsEdited(V(vec[i])) {
        numEdits := numEdits + 1;
      }
      r := MarkIn(vec, i, s);
    }

    // ----- Sending -----

    /** send_to_card. Whatever is edited is told to the card or, if its page is not
        accepted, dropped; in both cases no edit stays marked. The card learns
        exactly the parameters whose records are on the accepted pages. */
    method SendToCard(op: Opcode) returns (ret: Status, ghost msgs: seq<Msg>)
      requires Valid()
      modifies this`numEdits, this`lost, SendFrame(), Repr(vec)
      ensures Valid() && SentAs(ret, op, old(Now()), Now(), msgs)
      ensures ret == SendResult(vec == [], old(numEdits), RingFor(op).invalid, chan.refusals > old(chan.refusals), chan.failures > old(chan.failures))
      ensures chan.refusals >= old(chan.refusals) && chan.failures >= old(chan.failures)
    {
      hide Valid, V, View, SentAs, Now, RingsReady;
      msgs := [];
      SentNothing(op);
      if |vec| == 0 {
        return NotSupported, msgs;
      }
      var fit := CheckFit();
      if !fit {
        return ContextBroken, msgs;
      }
      if numEdits == 0 {
        ret, msgs := SendNothing(op);
      } else {
        ret, msgs := SendEdits(op);
      }
    }

    lemma SentNothing(op: Opcode)
      requires Valid()
      ensures RingsReady() && SentAs(NotSupported, op, Now(), Now(), []) && SentAs(ContextBroken, op, Now(), Now(), [])
    {
      hide Apart, Consistent, Mirrors, V, View, Queued, Around, Run, Flat;
      NoPage();
      QueuedNothing(createRing.Contents(), []);
      QueuedNothing(scheduleRing.Contents(), []);
      assert chan.log + [] == chan.log;
    }

    method CheckFit() returns (fit: bool)
      requires Valid()
      modifies chan`refusals
      ensures Valid() && Now() == old(Now()) && chan.refusals == old(chan.refusals) + if fit then 0 else 1
    {
      hide Apart, Consistent, Mirrors, V, View, Run, ConcatMap, Around;
      assert (chan as object) !in Repr(vec);
      fit := chan.Fit();
    }

    ghost function SendFrame(): set<object> {
      {createRing, createRing.buf, scheduleRing, scheduleRing.buf, chan}
    }

    // The message without a payload.
    method SendNothing(op: Opcode) returns (ret: Status, ghost msgs: seq<Msg>)
      requires Valid() && numEdits == 0
      modifies chan
      ensures Valid() && SentAs(ret, op, old(Now()), Now(), msgs)
      ensures ret == if chan.failures > old(chan.failures) then IoError else NoError
      ensures chan.failures >= old(chan.failures) && chan.refusals == old(chan.refusals)
    {
      hide Apart, Mirrors, Run, V, View, EditedPlaces, LostAfter, ClearAll, Consistent, PagesOf, TableOf, Learnt, Accepted, Around, Queued;
      assert (chan as object) !in Repr(vec);
      ghost var view := View(vec);
      NoEdits(view);
      var msg := Msg(op, true, true, 0, []);
      EmptySend(chan.log, msg);
      NoPage();
      OnePage(msg);
      var ok := chan.Write(msg);
      msgs := if ok then [msg] else [];
      QueuedNothing(createRing.Contents(), msgs);
      QueuedNothing(scheduleRing.Contents(), msgs);
      ret := if ok then NoError else IoError;
    }

    method SendOnRing(op: Opcode) returns (ok: bool, ghost msgs: seq<Msg>, ghost chunks: seq<seq<Record>>)
      requires vec != [] && Apart(vec) && AllSettled(View(vec)) && RingsReady()
      modifies SendFrame(), Repr(vec)
      ensures RingsReady() && chan.log == old(chan.log) + msgs && AllOf(msgs, op) && OnRing(op, old(Now()), Now(), msgs)
      ensures Pages(msgs, chunks, numEdits, ok) && Flatten(chunks) <= AllRecords(old(View(vec)))
      ensures AllFilled(msgs, chunks, AllRecords(old(View(vec))))
      ensures ok ==> msgs != [] && Flatten(chunks) == AllRecords(old(View(vec)))
      ensures View(vec) == ClearAll(old(View(vec)))
      ensures vec == old(vec) && numEdits == old(numEdits) && lost == old(lost) && appended == old(appended)
      ensures finalized == old(finalized) && inFlight == old(inFlight) && failedCommands == old(failedCommands)
      ensures ok <==> chan.failures == old(chan.failures) && !RingFor(op).invalid
      ensures chan.failures >= old(chan.failures) && chan.refusals == old(chan.refusals)
    {
      hide Apart, V, View, ClearAll, AllSettled, AllRecords, Flatten, Pages, Queued, Around, AllOf, AllFilled;
      assert (this as object) !in Repr(vec);
      assert (createRing as object) !in Repr(vec) && (scheduleRing as object) !in Repr(vec);
      ok, msgs, chunks := SendOrDrop(vec, numEdits, chan, op, RingFor(op));
    }

    method SendEdits(op: Opcode) returns (ret: Status, ghost msgs: seq<Msg>)
      requires Valid() && vec != []
      modifies this`numEdits, this`lost, SendFrame(), Repr(vec)
      ensures Valid() && SentAs(ret, op, old(Now()), Now(), msgs)
      ensures ret == if chan.failures > old(chan.failures) || RingFor(op).invalid then IoError else NoError
      ensures chan.failures >= old(chan.failures) && chan.refusals == old(chan.refusals)
    {
      hide Apart, RingsReady, Mirrors, Run, V, View, EditedPlaces, LostAfter, ClearAll, Consistent, AllRecords, Flatten, Pages, FirstToLast, ConcatMap, Queued, Around, PagesOf, AllOf, AllFilled, OnRing, Learnt, Accepted, TableOf;
      assert (this as object) !in Repr(vec);
      ghost var view: seq<CmdV>, log: seq<Msg>, chunks: seq<seq<Record>>, was: Snap := View(vec), chan.log, [], Now();
      ConsistentSettled(view, numEdits);
      var ok;
      ok, msgs, chunks := SendOnRing(op);
      AfterSend(log, view, lost, msgs, chunks, ok, numEdits);
      ghost var mid := Now();
      numEdits, lost := 0, LostAfter(lost, TableOf(log), view, msgs, ok);
      assert View(vec) == ClearAll(view) && RingsReady();
      ret := if ok then NoError else IoError;
      SameRings(op, was, mid, Now(), msgs);
    }

    // ----- Finalizing and scheduling -----

    /** finalize: batches the copies if asked to, which is right for a list of which
        everything is edited, and sends everything that is edited. The card's
        reply decides whether the list can be scheduled. After a failed send a
        second call succeeds without the edits that were lost. */
    method Finalize(batchCopies: bool, reply: Status) returns (ret: Status, ghost msgs: seq<Msg>)
      requires Valid() && (batchCopies ==> AllEdited(View(vec)))
      modifies this, SendFrame(), Repr(vec)
      ensures Valid() && appended == old(appended) && Flat(vec) == appended && AllBatches(vec)
      ensures !batchCopies ==> vec == old(vec)
      ensures batchCopies ==> Sizes(vec) == Groups(old(vec), 0)
      ensures chan.log == old(chan.log) + msgs && forall m :: m in msgs ==> m.opcode == CreateCmdList
      ensures Queued(createRing.Contents(), old(createRing.Contents()), msgs)
      ensures scheduleRing.Contents() == old(scheduleRing.Contents())
      ensures ret == (if vec == [] then NotSupported
                      else if chan.refusals > old(chan.refusals) then ContextBroken
                      else if chan.failures > old(chan.failures) || ((old(numEdits) > 0 || batchCopies) && createRing.invalid) then IoError
                      else reply)
      ensures finalized == (old(finalized) || ret == NoError)
      ensures ret == NoError ==> numEdits == 0 && msgs != [] && FirstToLast(msgs)
      ensures ret == NoError ==> lost == if batchCopies then {} else LostAfter(old(lost), TableOf(old(chan.log)), old(View(vec)), msgs, true)
      ensures msgs == [] && ret != IoError ==> old(AllEdited(View(vec))) ==> AllEdited(View(vec))
      ensures inFlight == old(inFlight)
    {
      hide *;
      OtherObjects({}, {});
      ValidParts();
      NowParts();
      if batchCopies {
        BatchCopies();
      }
      ValidParts();
      NowParts();
      OtherObjects({}, {});
      ghost var was := Now();
      ret, msgs := SendToCard(CreateCmdList);
      ValidParts();
      NowParts();
      SentParts(ret, CreateCmdList, was, Now(), msgs);
      NothingLost(TableOf(was.log), was.view, msgs);
      SendResults(vec == [], was.numEdits, createRing.invalid, chan.refusals > old(chan.refusals), chan.failures > old(chan.failures));
      if ret != NoError {
        return;
      }
      if reply != NoError {
        return reply, msgs;
      }
      SetFinalized();
    }

    /** schedule: takes the device locks of every copy that needs preparation and
        sends the edits; `canSchedule` is the outcome of waiting for the context. A call
        that is refused at once, or for a lock, sends nothing and leaves the list alone.
        Otherwise the messages ask the card to run the list, and the result is that of
        the send. On success every lock is taken once and the list is in flight. A call
        that fails leaves nothing in flight, and the locks and the marks of the copies
        are as before if and only if no copy that it undoes had been scheduled by
        somebody else. */
    method Schedule(canSchedule: bool, ghost hosts: set<HostRes>) returns (ret: Status, ghost msgs: seq<Msg>)
      requires Valid() && Ready(vec, hosts)
      modifies this`numEdits, this`lost, this`inFlight, SendFrame(), Repr(vec), CopiesOfAll(vec), hosts
      ensures Valid() && inFlight == (old(inFlight) || ret == NoError)
      ensures ret == (if !finalized || old(inFlight) || failedCommands > 0 || listedErrors > 0 then DeviceBusy
                      else if !canSchedule then ContextBroken
                      else if !AllGranted(old(States(hosts)), old(HostsOf(CopiesOfAll(vec))), Order(vec)) then DeviceBusy
                      else SendResult(vec == [], old(numEdits), scheduleRing.invalid, chan.refusals > old(chan.refusals), chan.failures > old(chan.failures)))
      ensures if !finalized || old(inFlight) || failedCommands > 0 || listedErrors > 0 || !canSchedule
                 || !AllGranted(old(States(hosts)), old(HostsOf(CopiesOfAll(vec))), Order(vec))
              then Now() == old(Now()) && msgs == []
              else SentAs(ret, ScheduleCmdList, old(Now()), Now(), msgs)
      ensures forall m :: m in msgs ==> m.opcode == ScheduleCmdList
      ensures Queued(scheduleRing.Contents(), old(scheduleRing.Contents()), msgs)
      ensures createRing.Contents() == old(createRing.Contents())
      ensures ret == NoError ==> numEdits == 0 && msgs != [] && FirstToLast(msgs) && chan.log == old(chan.log) + msgs
      ensures !finalized || old(inFlight) || failedCommands > 0 || listedErrors > 0 || !canSchedule ==>
        States(hosts) == old(States(hosts)) && Scheduled(CopiesOfAll(vec)) == old(Scheduled(CopiesOfAll(vec)))
      ensures ret == NoError ==>
        && Books(old(States(hosts)), old(HostsOf(CopiesOfAll(vec))), CopiesOfAll(vec))
        && Flags(CopiesOfAll(vec), CopiesOfAll(vec))
      ensures finalized && !old(inFlight) && failedCommands == 0 == listedErrors && canSchedule && ret != NoError ==>
        (Undone(old(States(hosts)), old(HostsOf(CopiesOfAll(vec))), vec) !! old(Scheduled(CopiesOfAll(vec))) <==>
         States(hosts) == old(States(hosts)) && Scheduled(CopiesOfAll(vec)) == old(Scheduled(CopiesOfAll(vec))))
    {
      hide *;
      OtherObjects(CopiesOfAll(vec), hosts);
      ValidParts();
      msgs := [];
      NothingQueued();
      if !finalized || inFlight || failedCommands > 0 || listedErrors > 0 {
        return DeviceBusy, msgs;
      }
      if !canSchedule {
        return ContextBroken, msgs;
      }
      NowParts();
      ghost var was := Now();
      ret, msgs := PrepareAndSend(hosts);
      ValidParts();
      SentParts(ret, ScheduleCmdList, was, Now(), msgs);
      NowParts();
    }

    // The list is in flight while it is being prepared and sent.
    method PrepareAndSend(ghost hosts: set<HostRes>) returns (ret: Status, ghost msgs: seq<Msg>)
      requires Valid() && finalized && Ready(vec, hosts) && !inFlight
      modifies this`numEdits, this`lost, this`inFlight, SendFrame(), Repr(vec), CopiesOfAll(vec), hosts
      ensures Valid() && inFlight == (ret == NoError)
      ensures if AllGranted(old(States(hosts)), old(HostsOf(CopiesOfAll(vec))), Order(vec))
              then && SentAs(ret, ScheduleCmdList, old(Now()), Now(), msgs)
                   && ret == SendResult(vec == [], old(numEdits), scheduleRing.invalid, chan.refusals > old(chan.refusals), chan.failures > old(chan.failures))
              else ret == DeviceBusy && Now() == old(Now()) && msgs == []
      ensures ret == NoError ==>
        && Books(old(States(hosts)), old(HostsOf(CopiesOfAll(vec))), CopiesOfAll(vec))
        && Flags(CopiesOfAll(vec), CopiesOfAll(vec))
      ensures ret != NoError ==>
        (Undone(old(States(hosts)), old(HostsOf(CopiesOfAll(vec))), vec) !! old(Scheduled(CopiesOfAll(vec))) <==>
         States(hosts) == old(States(hosts)) && Scheduled(CopiesOfAll(vec)) == old(Scheduled(CopiesOfAll(vec))))
    {
      hide *;
      ValidParts();
      ReadyParts(vec, hosts);
      OtherObjects(CopiesOfAll(vec), hosts);
      ghost var all := CopiesOfAll(vec);
      ghost var was, hostOf, on := States(hosts), HostsOf(all), Scheduled(all);
      SetInFlight(true);
      ret, msgs := PrepareThenSend(hosts);
      if ret != NoError {
        SetInFlight(false);
      }
    }

    method PrepareThenSend(ghost hosts: set<HostRes>) returns (ret: Status, ghost msgs: seq<Msg>)
      requires Valid() && Ready(vec, hosts)
      modifies this`numEdits, this`lost, SendFrame(), Repr(vec), CopiesOfAll(vec), hosts
      ensures Valid() && inFlight == old(inFlight)
      ensures if AllGranted(old(States(hosts)), old(HostsOf(CopiesOfAll(vec))), Order(vec))
              then && SentAs(ret, ScheduleCmdList, old(Now()), Now(), msgs)
                   && ret == SendResult(vec == [], old(numEdits), scheduleRing.invalid, chan.refusals > old(chan.refusals), chan.failures > old(chan.failures))
              else ret == DeviceBusy && Now() == old(Now()) && msgs == []
      ensures ret == NoError ==>
        && Books(old(States(hosts)), old(HostsOf(CopiesOfAll(vec))), CopiesOfAll(vec))
        && Flags(CopiesOfAll(vec), CopiesOfAll(vec))
      ensures ret != NoError ==>
        (Undone(old(States(hosts)), old(HostsOf(CopiesOfAll(vec))), vec) !! old(Scheduled(CopiesOfAll(vec))) <==>
         States(hosts) == old(States(hosts)) && Scheduled(CopiesOfAll(vec)) == old(Scheduled(CopiesOfAll(vec))))
    {
      hide V, View, Books, Flags, Known, Valid, Ready, States, HostsOf, Scheduled, NoCopyTwice, CopiesOfAll, AllGranted, Order, RolledBack, SentAs, Now, RingsReady;
      ValidParts();
      ReadyParts(vec, hosts);
      ghost var all := CopiesOfAll(vec);
      ghost var was, hostOf, on := States(hosts), HostsOf(all), Scheduled(all);
      var ok := PrepareCopies(hosts);
      if !ok {
        ret, msgs := DeviceBusy, [];
        return;
      }
      ret, msgs := SendPrepared(all, hostOf, was);
      ScheduledWithin(vec, on);
    }

    method PrepareCopies(ghost hosts: set<HostRes>) returns (ok: bool)
      requires Valid() && Ready(vec, hosts)
      modifies CopiesOfAll(vec), hosts
      ensures Valid() && RingsReady() && Now() == old(Now())
      ensures Known(CopiesOfAll(vec), old(HostsOf(CopiesOfAll(vec))), old(States(hosts)))
      ensures ok == AllGranted(old(States(hosts)), old(HostsOf(CopiesOfAll(vec))), Order(vec))
      ensures ok ==>
        && Books(old(States(hosts)), old(HostsOf(CopiesOfAll(vec))), CopiesOfAll(vec))
        && Flags(CopiesOfAll(vec), CopiesOfAll(vec))
      ensures !ok ==>
        (RolledBack(old(States(hosts)), old(HostsOf(CopiesOfAll(vec))), vec, 0) !! old(Scheduled(CopiesOfAll(vec))) <==>
         States(hosts) == old(States(hosts)) && Scheduled(CopiesOfAll(vec)) == old(Scheduled(CopiesOfAll(vec))))
    {
      hide *;
      ValidParts();
      SizeOk();
      OtherObjects(CopiesOfAll(vec), hosts);
      ok := PrepareAll(vec, hosts);
    }

    // Copies and host resources are not among the objects a send works on.
    lemma OtherObjects(copies: set<CopyCommand>, hosts: set<HostRes>)
      ensures (this as object) !in SendFrame() && (this as object) !in Repr(vec)
      ensures forall c :: c in copies ==> Elsewhere(c)
      ensures forall h :: h in hosts ==> Elsewhere(h)
      ensures RingFor(ScheduleCmdList) == scheduleRing && RingFor(CreateCmdList) == createRing
      ensures forall o :: o in Repr(vec) ==> allocated(o) && o !in SendFrame()
      ensures (chan as object) !in Repr(vec)
      ensures forall o :: Elsewhere(o) ==>
        o !in SendFrame() && o !in Repr(vec) && o != chan && o != createRing && o != scheduleRing && o != this
        && o != createRing.buf && o != scheduleRing.buf
    {
    }

    ghost predicate Elsewhere(o: object) {
      o is CopyCommand || o is HostRes
    }

    // Sends a list whose copies are prepared, and undoes that if it fails.
    method SendPrepared(ghost all: set<CopyCommand>, ghost hostOf: HostOf, ghost was: Snapshot)
      returns (ret: Status, ghost msgs: seq<Msg>)
      requires Valid() && NoCopyTwice(vec) && all == CopiesOfAll(vec)
      requires Known(all, hostOf, was) && Books(was, hostOf, all) && Flags(all, all)
      modifies this`numEdits, this`lost, SendFrame(), Repr(vec), all, was.Keys
      ensures Valid() && inFlight == old(inFlight) && SentAs(ret, ScheduleCmdList, old(Now()), Now(), msgs)
      ensures ret == SendResult(vec == [], old(numEdits), scheduleRing.invalid, chan.refusals > old(chan.refusals), chan.failures > old(chan.failures))
      ensures ret == NoError ==> Books(was, hostOf, all) && Flags(all, all)
      ensures ret != NoError ==> States(was.Keys) == was && Scheduled(all) == {}
    {
      hide *;
      ValidParts();
      OtherObjects(all, was.Keys);
      ret, msgs := SendToCard(ScheduleCmdList);
      if ret != NoError {
        AllDone(vec, hostOf, was);
      }
    }

    lemma NothingQueued()
      requires RingsReady()
      ensures Queued(scheduleRing.Contents(), scheduleRing.Contents(), [])
    {
      NoPage();
      QueuedNothing(scheduleRing.Contents(), []);
    }

    // What the snapshot of this list is made of.
    lemma NowParts()
      requires RingsReady()
      ensures Now().log == chan.log && Now().numEdits == numEdits && Now().view == View(vec) && Now().lost == lost
      ensures Now().create == createRing.Contents() && Now().schedule == scheduleRing.Contents()
    {
    }

    lemma SizeOk()
      requires Valid()
      ensures |vec| <= U16_MAX
    {
    }

    method SetInFlight(b: bool)
      requires Valid()
      modifies this`inFlight
      ensures Valid() && inFlight == b && View(vec) == old(View(vec)) && RingsReady() && Now() == old(Now())
    {
      hide Apart, Consistent, Mirrors, Run, ConcatMap, V, View;
      assert (this as object) !in Repr(vec);
      inFlight := b;
    }

    /** The card reports the end of the list. */
    method Complete()
      requires Valid()
      modifies this`inFlight
      ensures Valid() && !inFlight
    {
      SetInFlight(false);
    }

    lemma ValidParts()
      requires Valid()
      ensures Flat(vec) == appended && AllBatches(vec) && RingsReady()
    {
    }

    method SetFinalized()
      requires Valid()
      modifies this`finalized
      ensures Valid() && finalized && RingsReady() && Now() == old(Now())
    {
      hide Apart, Consistent, Mirrors, Run, ConcatMap, V, View;
      assert (this as object) !in Repr(vec);
      finalized := true;
    }

    method BatchCopies()
      requires Valid() && AllEdited(View(vec))
      modifies this, Repr(vec)
      ensures Valid() && lost == {} && appended == old(appended) && Flat(vec) == appended && AllBatches(vec)
      ensures numEdits == |vec| && (vec == [] <==> old(vec) == [])
      ensures RingsReady() && createRing.Contents() == old(createRing.Contents()) && scheduleRing.Contents() == old(scheduleRing.Contents())
      ensures forall o :: o in Repr(vec) ==> o in old(Repr(vec)) || fresh(o)
      ensures AllEdited(View(vec)) && Sizes(vec) == Groups(old(vec), 0)
      ensures finalized == old(finalized) && inFlight == old(inFlight) && chan.log == old(chan.log)
    {
      hide Apart, Consistent, Mirrors, Run, ConcatMap, V, View, RingsReady, IsBatch, AllBatches, AllFull, AllNumbered, Numbered, PlainFlat, Sizes, Groups, AllEdited, Ring.Contents, TableOf, EditedCommands;
      assert (createRing as object) !in Repr(vec) && (scheduleRing as object) !in Repr(vec) && (chan as object) !in Repr(vec);
      ghost var view := View(vec);
      EditedIsFull(vec, view, numEdits);
      var out := OptimizeBatchCopies(vec);
      GroupsNone(vec, out);
      BatchedViews(out);
      BatchedConsistent(view, View(out));
      BatchedMirrors(TableOf(chan.log), View(out));
      vec := out;
      numEdits := |vec|;
      lost := {};
    }
  }

  lemma NothingLost(table: map<u32, Entry>, view: seq<CmdV>, msgs: seq<Msg>)
    ensures LostAfter({}, table, view, msgs, true) == {}
  {
  }

  lemma GroupsNone(vec: seq<Cmd>, out: seq<Cmd>)
    requires Sizes(out) == Groups(vec, 0)
    ensures out == [] <==> vec == []
  {
    GroupsAt(vec, 0);
    assert |Sizes(out)| == |out|;
  }

  lemma ReadyParts(vec: seq<Cmd>, hosts: set<HostRes>)
    requires Ready(vec, hosts)
    ensures NoCopyTwice(vec) && forall c :: c in CopiesOfAll(vec) ==> c.Valid() && !c.isSubres
  {
  }

  lemma ScheduledWithin(vec: seq<Cmd>, on: set<CopyCommand>)
    requires on <= CopiesOfAll(vec)
    ensures CopiesOfAll(vec) !! on <==> on == {}
  {
  }

  /** A list of which everything is edited has full counters on both levels. */
  lemma EditedIsFull(vec: seq<Cmd>, view: seq<CmdV>, numEdits: nat)
    requires Apart(vec) && Consistent(view, numEdits) && AllEdited(view) && |view| == |vec|
    requires forall i :: 0 <= i < |vec| ==> SubCount(view[i]) == NumOfSubcmds(vec[i]) && (view[i].ListCmd? ==> vec[i].List?)
    ensures AllFull(view)
  {
    forall i | 0 <= i < |view|
      ensures Full(view[i])
    {
      assert Settled(view[i]) && WellFormed(vec[i]);
      if view[i].ListCmd? {
        forall s: nat | s < |view[i].copies|
          ensures view[i].copies[s].edited
        {
          assert IsPlace(view, i, s);
        }
        EveryCopyEdited(view[i].copies);
      }
    }
  }

  predicate AllNumbered(view: seq<CmdV>) {
    forall i :: 0 <= i < |view| ==> Numbered(view[i], i)
  }

  lemma BatchedViews(out: seq<Cmd>)
    requires forall i :: 0 <= i < |out| ==> IsBatch(out[i]) && Numbered(V(out[i]), i)
    ensures AllNumbered(View(out)) && AllBatches(out)
  {
  }

  lemma {:induction false} PlainFlatHas(view: seq<CmdV>, i: nat, s: nat)
    requires IsPlace(view, i, s)
    ensures PlainLeaves(view[i])[s] in PlainFlat(view)
  {
    var n := |view| - 1;
    if i < n {
      PlainFlatHas(view[..n], i, s);
    }
  }

  lemma {:induction false} PlainFlatEdited(view: seq<CmdV>)
    requires AllEdited(view)
    ensures forall v :: v in PlainFlat(view) ==> IsEdited(v)
  {
    if view != [] {
      var n := |view| - 1;
      forall i: nat, s: nat | IsPlace(view[..n], i, s)
        ensures SubEdited(view[..n][i], s)
      {
        assert IsPlace(view, i, s);
      }
      PlainFlatEdited(view[..n]);
      forall v | v in PlainLeaves(view[n])
        ensures IsEdited(v)
      {
        var s: nat :| s < SubCount(view[n]) && v == PlainLeaves(view[n])[s];
        assert IsPlace(view, n, s);
      }
    }
  }

  /** Batching a list of which everything is still edited leaves its counters
      exact on both levels. */
  lemma BatchedConsistent(before: seq<CmdV>, after: seq<CmdV>)
    requires AllEdited(before) && PlainFlat(after) == PlainFlat(before)
    requires AllNumbered(after) && |after| <= U16_MAX
    ensures Consistent(after, |after|)
    ensures AllEdited(after)
  {
    PlainFlatEdited(before);
    forall i: nat, s: nat | IsPlace(after, i, s)
      ensures SubEdited(after[i], s)
    {
      PlainFlatHas(after, i, s);
    }
    forall i | 0 <= i < |after|
      ensures Settled(after[i]) && IsEdited(after[i])
    {
      assert Numbered(after[i], i);
      if after[i].ListCmd? {
        forall s: nat | s < |after[i].copies|
          ensures after[i].copies[s].edited
        {
          assert IsPlace(after, i, s);
        }
        EveryCopyEdited(after[i].copies);
      } else {
        assert IsPlace(after, i, 0);
      }
    }
    forall i | 0 <= i < |after|
      ensures Index(after[i]) == i && (after[i].ListCmd? ==> CopiesIndexed(after[i].copies))
    {
      assert Numbered(after[i], i);
    }
    EveryEdited(after);
  }

  lemma BatchedMirrors(table: map<u32, Entry>, view: seq<CmdV>)
    requires AllEdited(view)
    ensures Mirrors(table, view, {})
  {
  }

  method SetContentIn(ghost vec: seq<Cmd>, ghost i: nat, ghost s: nat, c: CopyParams, priority: u8, size: u64)
    returns (ghost content: CopyContent)
    requires Apart(vec) && i < |vec| && s < NumOfSubcmds(vec[i]) && Leaves(vec[i])[s] == Copy(c)
    modifies Objs(vec[i])
    ensures c.V() == old(c.V()).(content := content)
    ensures content == CopyContent(c.copy.id, priority, Min(size, c.copy.maxSize))
    ensures V(vec[i]) == WithContent(old(View(vec))[i], s, content)
    ensures View(vec) == old(View(vec))[i := V(vec[i])]
  {
    hide WithContent, Leaves, WellFormed, V;
    ghost var view := View(vec);
    content := SetContent(vec[i], s, c, priority, size);
    forall j | 0 <= j < |vec| && j != i
      ensures V(vec[j]) == view[j]
    {
      assert Objs(vec[j]) !! Objs(vec[i]);
    }
    assert View(vec) == view[i := V(vec[i])];
  }

  method SetParamsIn(ghost vec: seq<Cmd>, ghost i: nat, q: InferReqParams, params: Option<InferParams>)
    requires Apart(vec) && i < |vec| && vec[i] == Infer(q)
    modifies Repr(vec)
    ensures q.idx == old(q.idx) && q.edited == old(q.edited)
    ensures q.V().content == InferContent(q.netId, q.reqId,
      if params.None? then None else Some(params.value.(priority := q.priority)))
    ensures View(vec) == old(View(vec))[i := q.V()]
  {
    ghost var view := View(vec);
    q.Overwrite(params);
    forall j | 0 <= j < |vec| && j != i
      ensures V(vec[j]) == view[j]
    {
      assert Objs(vec[j]) !! Objs(vec[i]);
    }
    assert View(vec) == view[i := q.V()];
  }

  method MarkIn(vec: seq<Cmd>, i: nat, s: nat) returns (r: Option<Cmd>)
    requires Apart(vec) && i < |vec| && s < NumOfSubcmds(vec[i]) && Settled(V(vec[i]))
    modifies Objs(vec[i])
    ensures r == Some(Leaves(vec[i])[s]) && Markable(old(View(vec))[i], s)
    ensures View(vec) == old(View(vec))[i := Mark(old(View(vec))[i], s)]
  {
    hide Mark, Leaves;
    ghost var view := View(vec);
    r := Commands.GetCmdForOverwrite(vec[i], s);
    forall j | 0 <= j < |vec| && j != i
      ensures V(vec[j]) == view[j]
    {
      assert Objs(vec[j]) !! Objs(vec[i]);
    }
    assert View(vec) == view[i := V(vec[i])];
  }

  /** Incrementing the counter of a copy list for subcommand `s` does not wrap. */
  predicate Markable(v: CmdV, s: nat)
    requires s < SubCount(v)
  {
    v.ListCmd? ==> v.numEdits < U16_MAX || v.copies[s].edited
  }

  lemma EmptyFlat()
    ensures Flat([]) == []
  {
  }

  lemma FlatLength(vec: seq<Cmd>, i: nat)
    requires i < |vec|
    ensures |Flat(vec[..i + 1])| == |Flat(vec[..i])| + NumOfSubcmds(vec[i])
  {
    assert vec[..i + 1] == vec[..i] + [vec[i]];
    ConcatMapSnoc(Leaves, vec[..i], vec[i]);
  }
}
