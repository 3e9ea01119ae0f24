/** The pages of one send, as the card receives them: whole sends and sends that
    break off after some pages. */
module CardMirror {
  import opened Bytes
  import opened Options
  import opened CardDecoder
  import opened CommandValues

  /** The payload of page `k` of a send announcing `count` edits. */
  function Payload(k: nat, count: u32, chunk: seq<Record>): seq<byte> {
    if k == 0 then U32(count) + EncodeAll(chunk) else EncodeAll(chunk)
  }

  /** Message `k` carries exactly the records of `chunk`, whole. */
  predicate Carries(m: Msg, k: nat, count: u32, chunk: seq<Record>) {
    && m.isFirst == (k == 0)
    && m.size <= |m.page| <= PAGE_SIZE
    && m.page[..m.size] == Payload(k, count, chunk)
  }

  /** The first page starts with the number of edits, and then come the records. */
  lemma CountLeads(m: Msg, count: u32, chunk: seq<Record>)
    requires Carries(m, 0, count, chunk)
    ensures 4 <= m.size && Little(m.page[..4]) == count && m.page[4..m.size] == EncodeAll(chunk)
  {
    hide U32, EncodeAll, Little;
    LittleEndian32(count);
    assert m.page[..m.size][..4] == m.page[..4] == U32(count);
    assert m.page[..m.size][4..] == m.page[4..m.size];
  }

  /** `msgs` carry `chunks` in order, and only the last message of a finished
      send says that it is the last. */
  predicate Pages(msgs: seq<Msg>, chunks: seq<seq<Record>>, count: u32, finished: bool) {
    && |msgs| == |chunks|
    && forall k :: 0 <= k < |msgs| ==>
         && Carries(msgs[k], k, count, chunks[k])
         && msgs[k].isLast == (finished && k == |msgs| - 1)
  }

  lemma LastPage(msgs: seq<Msg>, chunks: seq<seq<Record>>, count: u32, finished: bool)
    requires Pages(msgs, chunks, count, finished) && msgs != []
    ensures var n := |msgs| - 1;
            && |chunks| == n + 1 && Flatten(chunks) == Flatten(chunks[..n]) + chunks[n]
            && Pages(msgs[..n], chunks[..n], count, false)
            && Carries(msgs[n], n, count, chunks[n]) && msgs[n].isLast == finished
  {
    hide Carries;
  }

  lemma ReceivePage(log: seq<Msg>, card: Card, m: Msg, k: nat, count: u32, chunk: seq<Record>)
    requires Run(log) == Some(card) && Carries(m, k, count, chunk)
    requires var end := ApplyAll(if k == 0 then Card(card.table, count, 0, 0) else card, chunk);
             end.Some? && (m.isLast ==> end.value.owed == 0 && end.value.left == 0)
    ensures Run(log + [m]) == ApplyAll(if k == 0 then Card(card.table, count, 0, 0) else card, chunk)
  {
    RunSnoc(log, m);
    var data := m.page[..m.size];
    if k == 0 {
      U32RoundTrip(count, EncodeAll(chunk));
      assert data[4..] == EncodeAll(chunk);
    }
    DecodeAllEncode(chunk);
  }

  // One more page, after the records of `front`.
  lemma NextPage(before: seq<Msg>, card: Card, m: Msg, n: nat, count: u32, front: seq<Record>, chunk: seq<Record>)
    requires var start := Card(card.table, count, 0, 0);
             && Run(before) == (if n == 0 then Some(card) else ApplyAll(start, front))
             && (n == 0 ==> front == [])
             && var end := ApplyAll(start, front + chunk);
             && end.Some? && (m.isLast ==> end.value.owed == 0 && end.value.left == 0)
    requires Carries(m, n, count, chunk)
    ensures Run(before + [m]) == ApplyAll(Card(card.table, count, 0, 0), front + chunk)
  {
    var start := Card(card.table, count, 0, 0);
    hide Run, ApplyAll, Carries;
    ApplyAllConcat(start, front, chunk);
    if n == 0 {
      assert front + chunk == chunk;
      ReceivePage(before, card, m, 0, count, chunk);
    } else {
      ReceivePage(before, ApplyAll(start, front).value, m, n, count, chunk);
    }
  }

  /** The paged round trip: receiving the pages of a send is applying the
      flattened records, from the announced edit count. */
  lemma {:induction false} RunPages(log: seq<Msg>, card: Card, msgs: seq<Msg>, chunks: seq<seq<Record>>, count: u32, finished: bool)
    requires Run(log) == Some(card) && msgs != []
    requires Pages(msgs, chunks, count, finished)
    requires var end := ApplyAll(Card(card.table, count, 0, 0), Flatten(chunks));
             end.Some? && (finished ==> end.value.owed == 0 && end.value.left == 0)
    ensures Run(log + msgs) == ApplyAll(Card(card.table, count, 0, 0), Flatten(chunks))
  {
    hide Pages, Carries, Flatten, Run, ApplyAll;
    LastPage(msgs, chunks, count, finished);
    var n := |msgs| - 1;
    var before, front, start := log + msgs[..n], Flatten(chunks[..n]), Card(card.table, count, 0, 0);
    if n == 0 {
      assert before == log;
      NothingFlat(chunks[..0]);
    } else {
      ApplyAllConcat(start, front, chunks[n]);
      RunPages(log, card, msgs[..n], chunks[..n], count, false);
    }
    NextPage(before, card, msgs[n], n, count, front, chunks[n]);
    assert before + [msgs[n]] == log + msgs;
  }

  /** The announced part of every page, one after the other. */
  function Joined(msgs: seq<Msg>): seq<byte> {
    if msgs == [] then []
    else
      var n := |msgs| - 1;
      Joined(msgs[..n]) + msgs[n].page[..Min(msgs[n].size, |msgs[n].page|)]
  }

  lemma {:induction false} JoinedPages(msgs: seq<Msg>, chunks: seq<seq<Record>>, count: u32, finished: bool)
    requires Pages(msgs, chunks, count, finished) && msgs != []
    ensures Joined(msgs) == U32(count) + EncodeAll(Flatten(chunks))
  {
    LastPage(msgs, chunks, count, finished);
    hide EncodeAll, U32, Flatten, Pages;
    var n := |msgs| - 1;
    EncodeAllConcat(Flatten(chunks[..n]), chunks[n]);
    if n == 0 {
      assert Joined(msgs[..0]) == [];
      NothingFlat(chunks[..0]);
    } else {
      JoinedPages(msgs[..n], chunks[..n], count, false);
    }
  }

  lemma NothingFlat(chunks: seq<seq<Record>>)
    requires chunks == []
    ensures Flatten(chunks) == [] && EncodeAll(Flatten(chunks)) == []
  {
  }

  lemma PageRoundTrip(m: Msg, k: nat, count: u32, chunk: seq<Record>)
    requires Carries(m, k, count, chunk)
    ensures var data := m.page[..m.size];
            && (k == 0 ==> |data| >= 4)
            && DecodeAll(if k == 0 then data[4..] else data) == Some(chunk)
  {
    hide EncodeAll;
    var data := m.page[..m.size];
    DecodeAllEncode(chunk);
    if k == 0 {
      assert data[4..] == EncodeAll(chunk);
    }
  }

  /** The paged round trip as bytes: the announced parts of all pages together are
      the edit count and the edited records in order, with nothing left over, and
      each page holds whole records. */
  lemma PagedRoundTrip(msgs: seq<Msg>, view: seq<CmdV>, chunks: seq<seq<Record>>)
    requires Indexed(view) && Pages(msgs, chunks, EditedCommands(view), true) && msgs != []
    requires Flatten(chunks) == AllRecords(view)
    ensures var all := Joined(msgs);
            && |all| >= 4 && GetU32(all) == EditedCommands(view)
            && DecodeAll(all[4..]) == Some(AllRecords(view))
    ensures forall k :: 0 <= k < |msgs| ==>
      && msgs[k].size <= |msgs[k].page|
      && var data := msgs[k].page[..msgs[k].size];
      && (k == 0 ==> |data| >= 4)
      && DecodeAll(if k == 0 then data[4..] else data) == Some(chunks[k])
  {
    hide EncodeAll, AllRecords, Joined, U32;
    JoinedPages(msgs, chunks, EditedCommands(view), true);
    var records := EncodeAll(AllRecords(view));
    U32RoundTrip(EditedCommands(view), records);
    assert Joined(msgs)[4..] == records;
    DecodeAllEncode(AllRecords(view));
    forall k | 0 <= k < |msgs|
      ensures msgs[k].size <= |msgs[k].page|
      ensures var data := msgs[k].page[..msgs[k].size];
              && (k == 0 ==> |data| >= 4)
              && DecodeAll(if k == 0 then data[4..] else data) == Some(chunks[k])
    {
      PageRoundTrip(msgs[k], k, EditedCommands(view), chunks[k]);
    }
  }

  /** The records on the pages of a send. */
  function Accepted(msgs: seq<Msg>): seq<Record> {
    var all := Joined(msgs);
    if |all| < 4 then []
    else
      match DecodeAll(all[4..])
      case None => []
      case Some(records) => records
  }

  lemma AcceptedPages(msgs: seq<Msg>, chunks: seq<seq<Record>>, count: u32, finished: bool)
    requires Pages(msgs, chunks, count, finished)
    ensures Accepted(msgs) == Flatten(chunks)
  {
    if msgs == [] {
      NothingFlat(chunks);
    } else {
      hide Joined, U32, EncodeAll, DecodeAll, Flatten, Pages;
      JoinedPages(msgs, chunks, count, finished);
      var records := EncodeAll(Flatten(chunks));
      assert (U32(count) + records)[4..] == records;
      DecodeAllEncode(Flatten(chunks));
    }
  }

  // ----- A send that breaks off -----

  lemma PrefixSplit<T>(p: seq<T>, a: seq<T>, b: seq<T>)
    requires p <= a + b
    ensures |p| <= |a| ==> p <= a
    ensures |p| > |a| ==> p == a + p[|a|..] && p[|a|..] <= b
  {
  }

  /** How many records of a command come before that of subcommand `s`, when
      that is edited: in a list, the header and those of earlier copies. */
  function Before(cmd: CmdV, s: nat): nat
    requires s < SubCount(cmd)
  {
    if cmd.ListCmd? then 1 + |SubRecords(cmd.copies[..s])| else 0
  }

  /** The record of an edited place is among the first `n` of the list. */
  predicate Told(view: seq<CmdV>, i: nat, s: nat, n: nat) {
    IsPlace(view, i, s) && SubEdited(view[i], s) && |AllRecords(view[..i])| + Before(view[i], s) < n
  }

  function CopyAt(m: map<u32, CopyContent>, s: u32): Option<CopyContent> {
    if s in m then Some(m[s]) else None
  }

  /** What the card has of copy `s` after `n` records of its list: the parameters
      that its own record brought, or what it had. */
  function CopyAfter(copies: seq<CopyV>, base: map<u32, CopyContent>, s: u32, n: nat): Option<CopyContent> {
    if s < |copies| && copies[s].edited && |SubRecords(copies[..s])| < n then Some(copies[s].content) else CopyAt(base, s)
  }

  lemma {:induction false} PrefixOfCopies(card: Card, base: map<u32, CopyContent>, copies: seq<CopyV>, p: seq<Record>)
    requires card.cur in card.table && card.table[card.cur] == ListEntry(base)
    requires CopiesIndexed(copies) && card.left >= EditedCopies(copies) && p <= SubRecords(copies)
    ensures ApplyAll(card, p).Some?
    ensures var after := ApplyAll(card, p).value.table;
            && card.cur in after && after[card.cur].ListEntry?
            && (forall i: u32 :: i != card.cur ==> Lookup(after, i) == Lookup(card.table, i))
            && (forall s: u32 :: CopyAt(after[card.cur].copies, s) == CopyAfter(copies, base, s, |p|))
  {
    if copies != [] {
      var n := |copies| - 1;
      hide ApplyAll;
      SubRecordsGrow(copies, n);
      PrefixSplit(p, SubRecords(copies[..n]), CopyRecords(copies[n]));
      if |p| <= |SubRecords(copies[..n])| {
        PrefixOfCopies(card, base, copies[..n], p);
        FrontCopies(copies, base, |p|);
      } else {
        assert p == SubRecords(copies);
        CardAppliesCopies(card, base, copies, card.left - EditedCopies(copies));
        AllCopies(copies, base);
      }
    } else {
      NothingApplied(card);
    }
  }

  lemma NothingApplied(card: Card)
    ensures ApplyAll(card, []) == Some(card)
  {
  }

  // Where the prefix ends before the last copy.
  lemma FrontCopies(copies: seq<CopyV>, base: map<u32, CopyContent>, n: nat)
    requires copies != [] && n <= |SubRecords(copies[..|copies| - 1])|
    ensures forall s: u32 :: CopyAfter(copies, base, s, n) == CopyAfter(copies[..|copies| - 1], base, s, n)
  {
    hide SubRecords;
    forall s: u32
      ensures CopyAfter(copies, base, s, n) == CopyAfter(copies[..|copies| - 1], base, s, n)
    {
      if s < |copies| - 1 {
        assert copies[..|copies| - 1][..s] == copies[..s];
      }
    }
  }

  // Where the prefix is everything.
  lemma AllCopies(copies: seq<CopyV>, base: map<u32, CopyContent>)
    requires CopiesIndexed(copies)
    ensures forall s: u32 :: CopyAt(base + Edits(copies), s) == CopyAfter(copies, base, s, |SubRecords(copies)|)
  {
    forall s: u32
      ensures CopyAt(base + Edits(copies), s) == CopyAfter(copies, base, s, |SubRecords(copies)|)
    {
      EditsAt(copies, s);
      if s < |copies| {
        SubRecordsGrow(copies, s);
      }
    }
  }

  // The record of an edited copy is one of those of its list.
  lemma {:induction false} SubRecordsGrow(copies: seq<CopyV>, s: nat)
    requires s < |copies|
    ensures |SubRecords(copies[..s])| + |CopyRecords(copies[s])| <= |SubRecords(copies)|
    ensures s == |copies| - 1 ==> SubRecords(copies) == SubRecords(copies[..s]) + CopyRecords(copies[s])
    decreases |copies|
  {
    var n := |copies| - 1;
    if s < n {
      SubRecordsGrow(copies[..n], s);
      assert copies[..n][..s] == copies[..s];
    }
  }

  /** A place that agrees when `n` records of its command have been applied: one of
      these is its own, or it agreed before. */
  predicate Kept(table: map<u32, Entry>, cmd: CmdV, s: nat, n: int)
    requires s < SubCount(cmd)
  {
    (SubEdited(cmd, s) && Before(cmd, s) < n) || Matches(table, cmd, s)
  }

  lemma PrefixOfCommand(card: Card, cmd: CmdV, p: seq<Record>)
    requires Settled(cmd) && (cmd.ListCmd? ==> CopiesIndexed(cmd.copies))
    requires card.left == 0 && card.owed >= Bit(IsEdited(cmd)) && p <= Records(cmd)
    ensures ApplyAll(card, p).Some?
    ensures var after := ApplyAll(card, p).value.table;
            && (forall i: u32 :: i != Index(cmd) ==> Lookup(after, i) == Lookup(card.table, i))
            && (forall s: nat :: s < SubCount(cmd) ==> (Matches(after, cmd, s) <==> Kept(card.table, cmd, s, |p|)))
  {
    if p != [] {
      if cmd.ListCmd? {
        var head := ListRec(cmd.idx, cmd.numEdits);
        assert Records(cmd) == [head] + SubRecords(cmd.copies);
        assert p[0] == head && p[1..] <= SubRecords(cmd.copies);
        var mid := Apply(card, head).value;
        var base := ListAt(card.table, cmd.idx);
        PrefixOfCopies(mid, base, cmd.copies, p[1..]);
        assert ApplyAll(card, p) == ApplyAll(mid, p[1..]);
        ListMatches(card.table, ApplyAll(card, p).value.table, cmd, |p|);
      } else {
        assert p == Records(cmd);
        CardAppliesCommand(card, cmd);
      }
    }
  }

  lemma ListMatches(table: map<u32, Entry>, after: map<u32, Entry>, cmd: CmdV, n: nat)
    requires cmd.ListCmd? && CopiesIndexed(cmd.copies) && cmd.idx in after && after[cmd.idx].ListEntry? && n > 0
    requires forall s: u32 :: CopyAt(after[cmd.idx].copies, s) == CopyAfter(cmd.copies, ListAt(table, cmd.idx), s, n - 1)
    ensures forall s: nat :: s < |cmd.copies| ==> (Matches(after, cmd, s) <==> Kept(table, cmd, s, n))
  {
    hide SubRecords;
    forall s: nat | s < |cmd.copies|
      ensures Matches(after, cmd, s) <==> Kept(table, cmd, s, n)
    {
      assert CopyAt(after[cmd.idx].copies, s) == CopyAfter(cmd.copies, ListAt(table, cmd.idx), s, n - 1);
    }
  }

  // The place agrees after `n` records of the list.
  predicate KeptAt(table: map<u32, Entry>, view: seq<CmdV>, i: nat, s: nat, n: nat)
    requires IsPlace(view, i, s)
  {
    Kept(table, view[i], s, n - |AllRecords(view[..i])|)
  }

  /** A prefix of the records of a list is accepted. Exactly the places that it
      tells, and those that agreed before, then agree. */
  lemma {:induction false} PrefixOfView(card: Card, view: seq<CmdV>, p: seq<Record>)
    requires Indexed(view) && AllSettled(view)
    requires card.left == 0 && card.owed >= EditedCommands(view) && p <= AllRecords(view)
    ensures ApplyAll(card, p).Some?
    ensures var after := ApplyAll(card, p).value.table;
            && (forall i: u32 :: i >= |view| ==> Lookup(after, i) == Lookup(card.table, i))
            && (forall i: nat, s: nat :: IsPlace(view, i, s) ==> (Matches(after, view[i], s) <==> KeptAt(card.table, view, i, s, |p|)))
  {
    if view != [] {
      var n := |view| - 1;
      var front := view[..n];
      assert Indexed(front) && AllSettled(front);
      assert Settled(view[n]) && Index(view[n]) == n;
      PrefixSplit(p, AllRecords(front), Records(view[n]));
      if |p| <= |AllRecords(front)| {
        PrefixOfView(card, front, p);
        EndsBefore(card, view, p);
      } else {
        ApplyAllConcat(card, AllRecords(front), p[|AllRecords(front)|..]);
        EndsInLast(card, view, p);
      }
    }
  }

  // The prefix ends before the last command.
  lemma EndsBefore(card: Card, view: seq<CmdV>, p: seq<Record>)
    requires Indexed(view) && AllSettled(view) && view != []
    requires var front := view[..|view| - 1];
             && |p| <= |AllRecords(front)| && ApplyAll(card, p).Some?
             && var after := ApplyAll(card, p).value.table;
                && (forall i: u32 :: i >= |front| ==> Lookup(after, i) == Lookup(card.table, i))
                && (forall i: nat, s: nat :: IsPlace(front, i, s) ==>
                      (Matches(after, front[i], s) <==> KeptAt(card.table, front, i, s, |p|)))
    ensures var after := ApplyAll(card, p).value.table;
            forall i: nat, s: nat :: IsPlace(view, i, s) ==>
              (Matches(after, view[i], s) <==> KeptAt(card.table, view, i, s, |p|))
  {
    hide ApplyAll, AllRecords, Matches;
    var n, after := |view| - 1, ApplyAll(card, p).value.table;
    forall i: nat, s: nat | IsPlace(view, i, s)
      ensures Matches(after, view[i], s) <==> KeptAt(card.table, view, i, s, |p|)
    {
      if i < n {
        assert view[..n][..i] == view[..i];
        assert IsPlace(view[..n], i, s);
      } else {
        assert Index(view[n]) == n;
        MatchesByLookup(after, card.table, view[n], s);
      }
    }
  }

  // The prefix holds all records of the earlier commands.
  lemma EndsInLast(card: Card, view: seq<CmdV>, p: seq<Record>)
    requires Indexed(view) && AllSettled(view) && view != []
    requires card.left == 0 && card.owed >= EditedCommands(view)
    requires var n := |view| - 1;
             && |p| >= |AllRecords(view[..n])| && p[..|AllRecords(view[..n])|] == AllRecords(view[..n])
             && p[|AllRecords(view[..n])|..] <= Records(view[n])
    requires var n := |view| - 1;
             ApplyAll(card, p) == match ApplyAll(card, AllRecords(view[..n]))
                                  case None => None
                                  case Some(mid) => ApplyAll(mid, p[|AllRecords(view[..n])|..])
    ensures ApplyAll(card, p).Some?
    ensures var after := ApplyAll(card, p).value.table;
            && (forall i: u32 :: i >= |view| ==> Lookup(after, i) == Lookup(card.table, i))
            && (forall i: nat, s: nat :: IsPlace(view, i, s) ==>
                  (Matches(after, view[i], s) <==> KeptAt(card.table, view, i, s, |p|)))
  {
    hide ApplyAll, AllRecords, Records, Matches, UpdateAll;
    var n := |view| - 1;
    var front := view[..n];
    assert Indexed(front) && AllSettled(front) && Settled(view[n]) && Index(view[n]) == n;
    CardAppliesView(card, front);
    var mid := ApplyAll(card, AllRecords(front)).value;
    PrefixOfCommand(mid, view[n], p[|AllRecords(front)|..]);
    var after := ApplyAll(card, p).value.table;
    forall i: u32 | i >= n
      ensures Lookup(mid.table, i) == Lookup(card.table, i)
    {
      UpdateAllAt(card.table, front, i);
    }
    forall i: nat, s: nat | IsPlace(view, i, s)
      ensures Matches(after, view[i], s) <==> KeptAt(card.table, view, i, s, |p|)
    {
      if i < n {
        assert IsPlace(front, i, s) && front[i] == view[i] && Index(view[i]) == i;
        UpdateAllMatches(card.table, front, i, s);
        MatchesByLookup(mid.table, after, view[i], s);
        if SubEdited(front[i], s) {
          PlaceIsTold(front, i, s);
        }
        assert front[..i] == view[..i];
      } else {
        MatchesByLookup(mid.table, card.table, view[n], s);
      }
    }
  }

  /** The record of every edited place is one of those of the list. */
  lemma {:induction false} PlaceIsTold(view: seq<CmdV>, i: nat, s: nat)
    requires AllSettled(view) && IsPlace(view, i, s) && SubEdited(view[i], s)
    ensures Told(view, i, s, |AllRecords(view)|)
    decreases |view|
  {
    var n := |view| - 1;
    assert Settled(view[i]);
    if i < n {
      assert AllSettled(view[..n]);
      PlaceIsTold(view[..n], i, s);
      assert view[..n][..i] == view[..i];
    } else if view[i].ListCmd? {
      SubRecordsGrow(view[i].copies, s);
      EditedCopiesPositive(view[i].copies, s);
    }
  }

  // ----- Whole sends -----

  /** From `before` to `after` the card has learnt exactly the places that the first
      `n` records tell, and forgotten none. */
  ghost predicate Learnt(before: map<u32, Entry>, after: map<u32, Entry>, view: seq<CmdV>, n: nat) {
    forall i: nat, s: nat :: IsPlace(view, i, s) ==>
      (Matches(after, view[i], s) <==> Told(view, i, s, n) || Matches(before, view[i], s))
  }

  /** The edited places that are neither told nor what the card had anyway. */
  ghost function MissedPlaces(table: map<u32, Entry>, view: seq<CmdV>, n: nat): set<(nat, nat)> {
    set i: nat, s: nat |
      0 <= i < |view| && 0 <= s < SubCount(view[i]) && SubEdited(view[i], s) && !Told(view, i, s, n) && !Matches(table, view[i], s)
      :: (i, s)
  }

  /** The places whose edits are lost after a send: in one that breaks off, the
      edited ones for which no record was on the accepted pages, unless the card had
      the same parameters already. `table` is the card's before the send. */
  ghost function LostAfter(lost: set<(nat, nat)>, table: map<u32, Entry>, view: seq<CmdV>, msgs: seq<Msg>, ok: bool): set<(nat, nat)> {
    lost - EditedPlaces(view) + if ok then {} else MissedPlaces(table, view, |Accepted(msgs)|)
  }

  /** What any send does to the card, finished or broken off after any number of
      pages: it is accepted, and a place agrees with the host afterwards if and only
      if its record was on an accepted page or it agreed before. */
  lemma SendIsLearnt(log: seq<Msg>, card: Card, view: seq<CmdV>, msgs: seq<Msg>, chunks: seq<seq<Record>>, finished: bool)
    requires Run(log) == Some(card) && Indexed(view) && AllSettled(view)
    requires Pages(msgs, chunks, EditedCommands(view), finished)
    requires if finished then msgs != [] && Flatten(chunks) == AllRecords(view) else Flatten(chunks) <= AllRecords(view)
    ensures Run(log + msgs).Some?
    ensures Learnt(card.table, TableOf(log + msgs), view, |Accepted(msgs)|)
  {
    hide Accepted, ApplyAll, Run, Flatten, AllRecords, Pages, Matches;
    AcceptedPages(msgs, chunks, EditedCommands(view), finished);
    var start := Card(card.table, EditedCommands(view), 0, 0);
    PrefixOfView(start, view, Flatten(chunks));
    if msgs == [] {
      assert log + msgs == log;
      NothingTold(msgs, chunks, EditedCommands(view));
      NothingApplied(start);
    } else {
      if finished {
        CardAppliesView(start, view);
      }
      RunPages(log, card, msgs, chunks, EditedCommands(view), finished);
    }
    forall i: nat, s: nat | IsPlace(view, i, s)
      ensures Matches(TableOf(log + msgs), view[i], s) <==>
              Told(view, i, s, |Accepted(msgs)|) || Matches(card.table, view[i], s)
    {
      assert KeptAt(start.table, view, i, s, |Accepted(msgs)|) <==>
          Told(view, i, s, |Accepted(msgs)|) || Matches(card.table, view[i], s);
    }
  }

  lemma NothingTold(msgs: seq<Msg>, chunks: seq<seq<Record>>, count: u32)
    requires Pages(msgs, chunks, count, false) && msgs == []
    ensures Flatten(chunks) == []
  {
  }

  /** Once the edits of a send that was `ok`, or broke off, are cleared: exactly the
      places in `LostAfter` disagree with the card. */
  lemma AfterLearning(before: map<u32, Entry>, after: map<u32, Entry>, view: seq<CmdV>, lost: set<(nat, nat)>, msgs: seq<Msg>, ok: bool)
    requires AllSettled(view) && Mirrors(before, view, lost) && Learnt(before, after, view, |Accepted(msgs)|)
    requires ok ==> Accepted(msgs) == AllRecords(view)
    ensures Mirrors(after, ClearAll(view), LostAfter(lost, before, view, msgs, ok))
  {
    hide Accepted, AllRecords, Matches;
    var clear := ClearAll(view);
    forall i: nat, s: nat | IsPlace(clear, i, s)
      ensures Matches(after, clear[i], s) <==> (i, s) !in LostAfter(lost, before, view, msgs, ok)
    {
      ClearMatches(after, view[i], s);
      assert IsPlace(view, i, s);
      if ok && SubEdited(view[i], s) {
        PlaceIsTold(view, i, s);
      }
    }
  }

  /** One finished send: every place that was edited or already agreed now agrees,
      and no other. */
  lemma FinishedSend(log: seq<Msg>, card: Card, view: seq<CmdV>, lost: set<(nat, nat)>, msgs: seq<Msg>, chunks: seq<seq<Record>>)
    requires Run(log) == Some(card) && Mirrors(card.table, view, lost)
    requires Indexed(view) && AllSettled(view) && msgs != []
    requires Pages(msgs, chunks, EditedCommands(view), true) && Flatten(chunks) == AllRecords(view)
    ensures Run(log + msgs).Some?
    ensures Learnt(card.table, TableOf(log + msgs), view, |Accepted(msgs)|)
    ensures Mirrors(TableOf(log + msgs), ClearAll(view), lost - EditedPlaces(view))
  {
    SendIsLearnt(log, card, view, msgs, chunks, true);
    AcceptedPages(msgs, chunks, EditedCommands(view), true);
    hide Accepted, Pages, Flatten, AllRecords, Mirrors, Learnt, Run, EditedPlaces;
    AfterLearning(card.table, TableOf(log + msgs), view, lost, msgs, true);
    assert LostAfter(lost, card.table, view, msgs, true) == lost - EditedPlaces(view);
  }

  /** One send that breaks off after any number of pages, followed by dropping the
      edits: what was edited then disagrees with the card, if and only if the accepted
      pages do not carry it and the card had something else. Everything else is as
      it was. */
  lemma BrokenSend(log: seq<Msg>, card: Card, view: seq<CmdV>, lost: set<(nat, nat)>, msgs: seq<Msg>, chunks: seq<seq<Record>>)
    requires Run(log) == Some(card) && Mirrors(card.table, view, lost)
    requires Indexed(view) && AllSettled(view)
    requires Pages(msgs, chunks, EditedCommands(view), false) && Flatten(chunks) <= AllRecords(view)
    ensures Run(log + msgs).Some?
    ensures Learnt(card.table, TableOf(log + msgs), view, |Accepted(msgs)|)
    ensures Mirrors(TableOf(log + msgs), ClearAll(view), LostAfter(lost, card.table, view, msgs, false))
  {
    SendIsLearnt(log, card, view, msgs, chunks, false);
    AfterLearning(card.table, TableOf(log + msgs), view, lost, msgs, false);
  }

  /** Such a loss: the only command of a list, edited, and no page accepted. */
  lemma EditIsDropped()
    ensures var view := [CopyCmd(CopyV(0, CopyContent(1, 0, 7), true))];
            && Indexed(view) && AllSettled(view) && Mirrors(TableOf([]), view, {}) && Pages([], [], EditedCommands(view), false)
            && LostAfter({}, TableOf([]), view, [], false) == {(0, 0)}
            && !Mirrors(TableOf([]), ClearAll(view), {})
  {
    var view := [CopyCmd(CopyV(0, CopyContent(1, 0, 7), true))];
    var clear := ClearAll(view);
    assert view[..0] == [] && AllRecords([]) == [];
    assert TableOf([]) == map[];
    assert IsPlace(view, 0, 0) && IsPlace(clear, 0, 0);
    assert SubEdited(view[0], 0) && !Matches(map[], view[0], 0) && !Matches(map[], clear[0], 0);
    assert Accepted([]) == [] && !Told(view, 0, 0, 0);
  }
}
