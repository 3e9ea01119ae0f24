/** What a command list still has to tell the card, on values.

    `Records` is the run of records that packing a command writes; `Mirrors`
    says for which commands the card's table agrees with the host. */
module CommandValues {
  import opened Bytes
  import opened Options
  import opened CardDecoder

  datatype CopyV = CopyV(idx: u16, content: CopyContent, edited: bool)

  datatype CmdV =
    | CopyCmd(copy: CopyV)
    | InferCmd(idx: u16, content: InferContent, edited: bool)
    | ListCmd(idx: u16, edited: bool, numEdits: u16, copies: seq<CopyV>)

  function Index(cmd: CmdV): u16 {
    if cmd.CopyCmd? then cmd.copy.idx else cmd.idx
  }

  predicate IsEdited(cmd: CmdV) {
    if cmd.CopyCmd? then cmd.copy.edited else cmd.edited
  }

  function SubCount(cmd: CmdV): nat {
    if cmd.ListCmd? then |cmd.copies| else 1
  }

  predicate SubEdited(cmd: CmdV, s: nat)
    requires s < SubCount(cmd)
  {
    if cmd.ListCmd? then cmd.copies[s].edited else IsEdited(cmd)
  }

  function EditedCopies(copies: seq<CopyV>): (n: nat)
    ensures n <= |copies|
  {
    if copies == [] then 0
    else EditedCopies(copies[..|copies| - 1]) + Bit(copies[|copies| - 1].edited)
  }

  function EditedCommands(view: seq<CmdV>): (n: nat)
    ensures n <= |view|
  {
    if view == [] then 0
    else EditedCommands(view[..|view| - 1]) + Bit(IsEdited(view[|view| - 1]))
  }

  /** The counters of a copy list agree with the marks on its copies. */
  predicate Settled(cmd: CmdV) {
    cmd.ListCmd? ==>
      && cmd.numEdits == EditedCopies(cmd.copies)
      && (cmd.edited <==> cmd.numEdits > 0)
  }

  predicate AllSettled(view: seq<CmdV>) {
    forall i :: 0 <= i < |view| ==> Settled(view[i])
  }

  predicate CopiesIndexed(copies: seq<CopyV>) {
    |copies| <= U16_MAX && forall s :: 0 <= s < |copies| ==> copies[s].idx == s
  }

  /** Commands are numbered by position, and so are the copies of a list. */
  predicate Indexed(view: seq<CmdV>) {
    && |view| <= U16_MAX
    && forall i :: 0 <= i < |view| ==>
         Index(view[i]) == i && (view[i].ListCmd? ==> CopiesIndexed(view[i].copies))
  }

  // ----- What packing writes -----

  function CopyRecords(c: CopyV): seq<Record> {
    if c.edited then [CopyRec(c.idx, c.content)] else []
  }

  function SubRecords(copies: seq<CopyV>): seq<Record> {
    ConcatMap(CopyRecords, copies)
  }

  function HeaderRecords(cmd: CmdV): seq<Record>
    requires cmd.ListCmd?
  {
    if cmd.edited then [ListRec(cmd.idx, cmd.numEdits)] else []
  }

  /** The records still to be written for a command: in the middle of a copy
      list the header is gone and only its remaining copies are left. */
  function Records(cmd: CmdV): seq<Record> {
    match cmd
    case CopyCmd(c) => CopyRecords(c)
    case InferCmd(idx, content, edited) => if edited then [InferRec(idx, content)] else []
    case ListCmd(idx, edited, numEdits, copies) =>
      HeaderRecords(cmd) + if numEdits > 0 then SubRecords(copies) else []
  }

  /** The next record of a command needs more than `room` bytes. */
  predicate NoRoom(cmd: CmdV, room: nat) {
    Records(cmd) != [] && |Encode(Records(cmd)[0])| > room
  }

  function AllRecords(view: seq<CmdV>): seq<Record> {
    ConcatMap(Records, view)
  }

  function ClearCopy(c: CopyV): CopyV {
    c.(edited := false)
  }

  function ClearCopies(copies: seq<CopyV>): (r: seq<CopyV>)
    ensures |r| == |copies|
  {
    seq(|copies|, s requires 0 <= s < |copies| => ClearCopy(copies[s]))
  }

  function Clear(cmd: CmdV): CmdV {
    match cmd
    case CopyCmd(c) => CopyCmd(ClearCopy(c))
    case InferCmd(idx, content, _) => InferCmd(idx, content, false)
    case ListCmd(idx, _, _, copies) => ListCmd(idx, false, 0, ClearCopies(copies))
  }

  function ClearAll(view: seq<CmdV>): (r: seq<CmdV>)
    ensures |r| == |view|
  {
    seq(|view|, i requires 0 <= i < |view| => Clear(view[i]))
  }

  lemma {:induction false} NoneEditedCopies(copies: seq<CopyV>)
    requires forall s :: 0 <= s < |copies| ==> !copies[s].edited
    ensures EditedCopies(copies) == 0 && SubRecords(copies) == []
  {
    if copies != [] {
      NoneEditedCopies(copies[..|copies| - 1]);
    }
  }

  lemma ClearSettles(cmd: CmdV)
    ensures Settled(Clear(cmd)) && !IsEdited(Clear(cmd)) && Records(Clear(cmd)) == []
  {
    if cmd.ListCmd? {
      NoneEditedCopies(ClearCopies(cmd.copies));
    }
  }

  lemma {:induction false} NoneEdited(view: seq<CmdV>)
    requires forall i :: 0 <= i < |view| ==> !IsEdited(view[i])
    ensures EditedCommands(view) == 0
  {
    if view != [] {
      NoneEdited(view[..|view| - 1]);
    }
  }

  lemma {:induction false} EveryEdited(view: seq<CmdV>)
    requires forall i :: 0 <= i < |view| ==> IsEdited(view[i])
    ensures EditedCommands(view) == |view|
  {
    if view != [] {
      EveryEdited(view[..|view| - 1]);
    }
  }

  /** The edit count is complete exactly when every command is marked. */
  lemma {:induction false} CountIsLengthIff(view: seq<CmdV>)
    ensures EditedCommands(view) == |view| <==> forall i :: 0 <= i < |view| ==> IsEdited(view[i])
  {
    if view != [] {
      var n := |view| - 1;
      CountIsLengthIff(view[..n]);
      assert (forall i :: 0 <= i < |view| ==> IsEdited(view[i])) ==>
          forall i :: 0 <= i < n ==> IsEdited(view[..n][i]);
      if EditedCommands(view[..n]) == n && IsEdited(view[n]) {
        forall i | 0 <= i < |view|
          ensures IsEdited(view[i])
        {
          assert i < n ==> IsEdited(view[..n][i]);
        }
      }
    }
  }

  lemma {:induction false} EveryCopyEdited(copies: seq<CopyV>)
    requires forall s :: 0 <= s < |copies| ==> copies[s].edited
    ensures EditedCopies(copies) == |copies|
  {
    if copies != [] {
      EveryCopyEdited(copies[..|copies| - 1]);
    }
  }

  // Re-marking one command or one copy changes the counters by the change of
  // that one mark.
  lemma {:induction false} EditedCommandsUpdate(view: seq<CmdV>, i: nat, cmd: CmdV)
    requires i < |view|
    ensures EditedCommands(view[i := cmd]) == EditedCommands(view) - Bit(IsEdited(view[i])) + Bit(IsEdited(cmd))
  {
    var n := |view| - 1;
    if i == n {
      assert view[i := cmd][..n] == view[..n];
    } else {
      EditedCommandsUpdate(view[..n], i, cmd);
      assert view[i := cmd][..n] == view[..n][i := cmd];
    }
  }

  lemma {:induction false} EditedCopiesUpdate(copies: seq<CopyV>, s: nat, c: CopyV)
    requires s < |copies|
    ensures EditedCopies(copies[s := c]) == EditedCopies(copies) - Bit(copies[s].edited) + Bit(c.edited)
  {
    var n := |copies| - 1;
    if s == n {
      assert copies[s := c][..n] == copies[..n];
    } else {
      EditedCopiesUpdate(copies[..n], s, c);
      assert copies[s := c][..n] == copies[..n][s := c];
    }
  }

  // ----- What the card makes of the records -----

  function Lookup(table: map<u32, Entry>, idx: u32): Option<Entry> {
    if idx in table then Some(table[idx]) else None
  }

  /** The edited copies of a list, by index. */
  function Edits(copies: seq<CopyV>): map<u32, CopyContent> {
    if copies == [] then map[]
    else
      var n := |copies| - 1;
      var m := Edits(copies[..n]);
      if copies[n].edited then m[copies[n].idx := copies[n].content] else m
  }

  function EntryAfter(table: map<u32, Entry>, cmd: CmdV): Entry {
    match cmd
    case CopyCmd(c) => CopyEntry(c.content)
    case InferCmd(_, content, _) => InferEntry(content)
    case ListCmd(idx, _, _, copies) => ListEntry(ListAt(table, idx) + Edits(copies))
  }

  function Update(table: map<u32, Entry>, cmd: CmdV): map<u32, Entry> {
    if IsEdited(cmd) then table[Index(cmd) := EntryAfter(table, cmd)] else table
  }

  function UpdateAll(table: map<u32, Entry>, view: seq<CmdV>): map<u32, Entry> {
    if view == [] then table
    else Update(UpdateAll(table, view[..|view| - 1]), view[|view| - 1])
  }

  lemma {:induction false} CardAppliesCopies(card: Card, base: map<u32, CopyContent>, copies: seq<CopyV>, more: nat)
    requires card.cur in card.table && card.table[card.cur] == ListEntry(base)
    requires card.left == EditedCopies(copies) + more
    ensures ApplyAll(card, SubRecords(copies)) ==
            Some(card.(table := card.table[card.cur := ListEntry(base + Edits(copies))], left := more))
  {
    if copies == [] {
      assert base + map[] == base;
      assert card.table[card.cur := ListEntry(base)] == card.table;
    } else {
      var n := |copies| - 1;
      var c := copies[n];
      CardAppliesCopies(card, base, copies[..n], more + Bit(c.edited));
      ApplyAllConcat(card, SubRecords(copies[..n]), CopyRecords(c));
      var mid := ApplyAll(card, SubRecords(copies[..n])).value;
      if c.edited {
        assert (base + Edits(copies[..n]))[c.idx := c.content] == base + Edits(copies);
        assert Apply(mid, CopyRec(c.idx, c.content)).Some?;
        assert ApplyAll(mid, CopyRecords(c)) == Apply(mid, CopyRec(c.idx, c.content));
        assert mid.table[card.cur := ListEntry(base + Edits(copies))] ==
               card.table[card.cur := ListEntry(base + Edits(copies))];
      }
    }
  }

  /** A settled command's records are accepted and have the effect of `Update`. */
  lemma CardAppliesCommand(card: Card, cmd: CmdV)
    requires Settled(cmd) && card.left == 0 && card.owed >= Bit(IsEdited(cmd))
    ensures ApplyAll(card, Records(cmd)).Some?
    ensures var after := ApplyAll(card, Records(cmd)).value;
            && after.table == Update(card.table, cmd)
            && after.owed == card.owed - Bit(IsEdited(cmd))
            && after.left == 0
  {
    if IsEdited(cmd) {
      if cmd.ListCmd? {
        var head := ListRec(cmd.idx, cmd.numEdits);
        var mid := Apply(card, head).value;
        var base := ListAt(card.table, cmd.idx);
        assert Records(cmd) == [head] + SubRecords(cmd.copies);
        assert Records(cmd)[1..] == SubRecords(cmd.copies);
        CardAppliesCopies(mid, base, cmd.copies, 0);
        assert mid.table[cmd.idx := EntryAfter(card.table, cmd)] == card.table[cmd.idx := EntryAfter(card.table, cmd)];
      } else {
        var r := Records(cmd)[0];
        assert Records(cmd) == [r] && Apply(card, r).Some?;
        assert ApplyAll(card, [r]) == Apply(card, r);
      }
    }
  }

  /** The card accepts the records of a whole list, and no edit stays owed
      beyond the commands not yet sent. */
  lemma {:induction false} CardAppliesView(card: Card, view: seq<CmdV>)
    requires AllSettled(view) && card.left == 0 && card.owed >= EditedCommands(view)
    ensures ApplyAll(card, AllRecords(view)).Some?
    ensures var after := ApplyAll(card, AllRecords(view)).value;
            && after.table == UpdateAll(card.table, view)
            && after.owed == card.owed - EditedCommands(view)
            && after.left == 0
  {
    if view != [] {
      var n := |view| - 1;
      assert AllSettled(view[..n]) by {
        forall i | 0 <= i < n
          ensures Settled(view[..n][i])
        {
          assert Settled(view[i]);
        }
      }
      CardAppliesView(card, view[..n]);
      ApplyAllConcat(card, AllRecords(view[..n]), Records(view[n]));
      CardAppliesCommand(ApplyAll(card, AllRecords(view[..n])).value, view[n]);
    }
  }

  // ----- Agreement of the table with the host -----

  /** The table holds what the host has for copy `s` of `cmd`
      (`s` is 0 for a command that is not a list). */
  predicate Matches(table: map<u32, Entry>, cmd: CmdV, s: nat)
    requires s < SubCount(cmd)
  {
    match cmd
    case CopyCmd(c) => Lookup(table, c.idx) == Some(CopyEntry(c.content))
    case InferCmd(idx, content, _) => Lookup(table, idx) == Some(InferEntry(content))
    case ListCmd(idx, _, _, copies) =>
      var m := ListAt(table, idx);
      copies[s].idx in m && m[copies[s].idx] == copies[s].content
  }

  lemma MatchesByLookup(t: map<u32, Entry>, t': map<u32, Entry>, cmd: CmdV, s: nat)
    requires s < SubCount(cmd) && Lookup(t, Index(cmd)) == Lookup(t', Index(cmd))
    ensures Matches(t, cmd, s) == Matches(t', cmd, s)
  {
  }

  predicate IsPlace(view: seq<CmdV>, i: nat, s: nat) {
    i < |view| && s < SubCount(view[i])
  }

  /** Of the places that are not edited exactly those in `lost` disagree with the card. */
  ghost predicate Mirrors(table: map<u32, Entry>, view: seq<CmdV>, lost: set<(nat, nat)>) {
    forall i: nat, s: nat ::
      IsPlace(view, i, s) && !SubEdited(view[i], s) ==> (Matches(table, view[i], s) <==> (i, s) !in lost)
  }

  ghost function EditedPlaces(view: seq<CmdV>): set<(nat, nat)> {
    set i: nat, s: nat | 0 <= i < |view| && 0 <= s < SubCount(view[i]) && SubEdited(view[i], s) :: (i, s)
  }

  lemma {:induction false} EditsAt(copies: seq<CopyV>, s: u32)
    requires CopiesIndexed(copies)
    ensures s in Edits(copies) <==> s < |copies| && copies[s].edited
    ensures s in Edits(copies) ==> Edits(copies)[s] == copies[s].content
  {
    if copies != [] {
      var n := |copies| - 1;
      EditsAt(copies[..n], s);
    }
  }

  lemma {:induction false} EditedCopiesPositive(copies: seq<CopyV>, s: nat)
    requires s < |copies| && copies[s].edited
    ensures EditedCopies(copies) > 0
  {
    var n := |copies| - 1;
    if s < n {
      EditedCopiesPositive(copies[..n], s);
    }
  }

  /** Updating for a prefix of the commands leaves each other index alone and
      updates each index of the prefix once. */
  lemma {:induction false} UpdateAllAt(table: map<u32, Entry>, view: seq<CmdV>, i: u32)
    requires Indexed(view)
    ensures var after := UpdateAll(table, view);
            Lookup(after, i) ==
            if i < |view| && IsEdited(view[i]) then Some(EntryAfter(table, view[i])) else Lookup(table, i)
  {
    if view != [] {
      var n := |view| - 1;
      UpdateAllAt(table, view[..n], i);
      UpdateAllAt(table, view[..n], n);
    }
  }

  lemma UpdateAllMatches(table: map<u32, Entry>, view: seq<CmdV>, i: nat, s: nat)
    requires Indexed(view) && AllSettled(view) && IsPlace(view, i, s)
    ensures SubEdited(view[i], s) ==> Matches(UpdateAll(table, view), view[i], s)
    ensures !SubEdited(view[i], s) ==> (Matches(UpdateAll(table, view), view[i], s) <==> Matches(table, view[i], s))
  {
    UpdateAllAt(table, view, i);
    assert Settled(view[i]);
    if view[i].ListCmd? {
      EditsAt(view[i].copies, s);
      if view[i].copies[s].edited {
        EditedCopiesPositive(view[i].copies, s);
      }
    }
  }

  lemma ClearMatches(table: map<u32, Entry>, cmd: CmdV, s: nat)
    requires s < SubCount(cmd)
    ensures SubCount(Clear(cmd)) == SubCount(cmd) && !SubEdited(Clear(cmd), s)
    ensures Matches(table, Clear(cmd), s) == Matches(table, cmd, s)
  {
  }

  /** After the records of a whole list have been applied the card agrees with
      the host everywhere but at places lost earlier and not edited since. */
  lemma SentMirrors(table: map<u32, Entry>, view: seq<CmdV>, lost: set<(nat, nat)>)
    requires Indexed(view) && AllSettled(view) && Mirrors(table, view, lost)
    ensures Mirrors(UpdateAll(table, view), ClearAll(view), lost - EditedPlaces(view))
  {
    var after, clear := UpdateAll(table, view), ClearAll(view);
    forall i: nat, s: nat | IsPlace(clear, i, s)
      ensures Matches(after, clear[i], s) <==> (i, s) !in lost - EditedPlaces(view)
    {
      ClearMatches(after, view[i], s);
      UpdateAllMatches(table, view, i, s);
    }
  }
}
