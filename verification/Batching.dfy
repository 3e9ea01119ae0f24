/** The rewriting of a command vector when a list is finalized: runs of copies
    in one direction become copy lists (optimize_batch_copies). */
module Batching {
  import opened Bytes
  import opened Options
  import opened CardDecoder
  import opened CommandValues
  import opened SchedParams
  import opened Commands

  ghost function Repr(vec: seq<Cmd>): (objs: set<object>)
    ensures forall i :: 0 <= i < |vec| ==> Objs(vec[i]) <= objs
    ensures forall o :: o in objs ==> IsParams(o)
  {
    set i, o | 0 <= i < |vec| && o in Objs(vec[i]) :: o
  }

  /** The entries are well formed and share no object. */
  ghost predicate Apart(vec: seq<Cmd>) {
    && (forall i :: 0 <= i < |vec| ==> WellFormed(vec[i]))
    && forall i, j :: 0 <= i < j < |vec| ==> Objs(vec[i]) !! Objs(vec[j])
  }

  ghost function View(vec: seq<Cmd>): (view: seq<CmdV>)
    reads Repr(vec)
    ensures |view| == |vec|
    ensures forall i :: 0 <= i < |vec| ==> view[i] == V(vec[i])
  {
    seq(|vec|, i requires 0 <= i < |vec| reads Repr(vec) => V(vec[i]))
  }

  /** The user's commands with their parameters and marks, but no indices. */
  function PlainLeaves(v: CmdV): (s: seq<CmdV>)
    ensures |s| == SubCount(v)
  {
    if v.ListCmd? then seq(|v.copies|, s requires 0 <= s < |v.copies| => WithIndex(CopyCmd(v.copies[s]), 0))
    else [WithIndex(v, 0)]
  }

  function PlainFlat(view: seq<CmdV>): seq<CmdV> {
    ConcatMap(PlainLeaves, view)
  }

  predicate Batchable(cmd: Cmd) {
    cmd.Copy? && !cmd.c.copy.d2d
  }

  /** A copy list holds at least two copies between host and card, all in one
      direction. */
  predicate IsBatch(cmd: Cmd) {
    cmd.List? ==>
      && 2 <= |cmd.l.copies| <= U16_MAX
      && forall s :: 0 <= s < |cmd.l.copies| ==>
           !cmd.l.copies[s].copy.d2d && cmd.l.copies[s].copy.c2h == cmd.l.copies[0].copy.c2h
  }

  /** vec[b..e] is a run of copies in one direction. */
  predicate CopyRun(vec: seq<Cmd>, b: nat, e: nat) {
    && b < e <= |vec| && Batchable(vec[b])
    && forall j :: b <= j < e ==> Batchable(vec[j]) && vec[j].c.copy.c2h == vec[b].c.copy.c2h
  }

  // ----- Which runs become lists -----

  /** The end of the run of copies that starts at `b` and reaches `e` at least: up
      to a command that cannot join it, or to the largest 16-bit length. */
  function RunEnd(vec: seq<Cmd>, b: nat, e: nat): (end: nat)
    requires b < e <= |vec| && Batchable(vec[b])
    ensures e <= end <= |vec|
    decreases |vec| - e
  {
    if e < |vec| && Batchable(vec[e]) && vec[e].c.copy.c2h == vec[b].c.copy.c2h && e - b < U16_MAX then RunEnd(vec, b, e + 1) else e
  }

  /** How many of the user's commands each entry holds, from entry `b` of `vec` on: a
      whole run, then the entry that ended the run as it was. */
  function Groups(vec: seq<Cmd>, b: nat): seq<nat>
    requires b <= |vec|
    decreases |vec| - b
  {
    if b == |vec| then []
    else if !Batchable(vec[b]) then [NumOfSubcmds(vec[b])] + Groups(vec, b + 1)
    else
      var e := RunEnd(vec, b, b + 1);
      [e - b] + GroupsBehind(vec, e)
  }

  // Behind a run that ends before entry `e`.
  function GroupsBehind(vec: seq<Cmd>, e: nat): seq<nat>
    requires e <= |vec|
    decreases |vec| - e
  {
    if e == |vec| then [] else [NumOfSubcmds(vec[e])] + Groups(vec, e + 1)
  }

  function Sizes(out: seq<Cmd>): (sizes: seq<nat>)
    ensures |sizes| == |out|
  {
    seq(|out|, i requires 0 <= i < |out| => NumOfSubcmds(out[i]))
  }

  lemma RunEndStops(vec: seq<Cmd>, b: nat, e: nat)
    requires b < e <= |vec| && Batchable(vec[b]) && e - b <= U16_MAX
    ensures var end := RunEnd(vec, b, e);
            && end - b <= U16_MAX
            && (end < |vec| ==> !Batchable(vec[end]) || vec[end].c.copy.c2h != vec[b].c.copy.c2h || end - b == U16_MAX)
            && (forall j :: e <= j < end ==> Batchable(vec[j]) && vec[j].c.copy.c2h == vec[b].c.copy.c2h)
    decreases |vec| - e
  {
  }

  /** Commands that could make one copy list: copies between host and card, all in
      one direction, and not too many. */
  predicate OneList(cmds: seq<Cmd>) {
    && 0 < |cmds| <= 65535 && cmds[0].Copy?
    && forall k :: 0 <= k < |cmds| ==>
         cmds[k].Copy? && !cmds[k].c.copy.d2d && cmds[k].c.copy.c2h == cmds[0].c.copy.c2h
  }

  /** Two neighbouring entries that would make one copy list. */
  predicate Joinable(x: Cmd, y: Cmd) {
    OneList(Leaves(x) + Leaves(y))
  }

  /** A vector that could be one list becomes one. */
  lemma WholeRun(vec: seq<Cmd>)
    requires OneList(vec) && |vec| >= 2
    ensures Groups(vec, 0) == [|vec|]
  {
    assert Batchable(vec[0]);
    RunToEnd(vec, 1);
  }

  lemma {:induction false} RunToEnd(vec: seq<Cmd>, e: nat)
    requires OneList(vec) && 0 < e <= |vec| && Batchable(vec[0])
    ensures RunEnd(vec, 0, e) == |vec|
    decreases |vec| - e
  {
    if e < |vec| {
      assert Batchable(vec[e]);
      RunToEnd(vec, e + 1);
    }
  }

  lemma FlatCons(x: Cmd, out: seq<Cmd>)
    ensures Flat([x] + out) == Leaves(x) + Flat(out)
    ensures Sizes([x] + out) == [NumOfSubcmds(x)] + Sizes(out)
  {
    ConcatMapCons(Leaves, x, out);
  }

  lemma FirstPart<T>(a: seq<T>, rest: seq<T>, vec: seq<T>, b: nat)
    requires b <= |vec| && a + rest == vec[b..]
    ensures b + |a| <= |vec| && a == vec[b..b + |a|] && rest == vec[b + |a|..]
  {
    assert a == (a + rest)[..|a|] && rest == (a + rest)[|a|..];
  }

  // The first entry and the rest, where the entries hold vec[b..].
  lemma Peel(vec: seq<Cmd>, b: nat, out: seq<Cmd>, n: nat, sizes: seq<nat>)
    requires b <= |vec| && Flat(out) == vec[b..] && Sizes(out) == [n] + sizes
    ensures out != [] && b + n <= |vec| && Leaves(out[0]) == vec[b..b + n]
    ensures Flat(out[1..]) == vec[b + n..] && Sizes(out[1..]) == sizes
  {
    hide ConcatMap, Leaves;
    assert Sizes(out)[0] == n;
    assert out == [out[0]] + out[1..];
    FlatCons(out[0], out[1..]);
    FirstPart(Leaves(out[0]), Flat(out[1..]), vec, b);
    assert ([n] + sizes)[1..] == sizes && Sizes(out)[1..] == Sizes(out[1..]);
  }

  lemma {:induction false} GroupsAt(vec: seq<Cmd>, b: nat)
    requires b <= |vec|
    ensures b == |vec| ==> Groups(vec, b) == []
    ensures b < |vec| && !Batchable(vec[b]) ==> Groups(vec, b) == [NumOfSubcmds(vec[b])] + Groups(vec, b + 1)
    ensures b < |vec| && Batchable(vec[b]) ==>
      var e := RunEnd(vec, b, b + 1);
      Groups(vec, b) == [e - b] + GroupsBehind(vec, e)
  {
    hide RunEnd, Batchable, NumOfSubcmds, GroupsBehind;
  }

  lemma NotJoinable(x: Cmd, y: Cmd)
    requires NumOfSubcmds(x) == 1 && !Batchable(Leaves(x)[0])
    ensures !Joinable(x, y)
  {
    assert (Leaves(x) + Leaves(y))[0] == Leaves(x)[0];
  }

  // The entry of a run and that of the command that ended it.
  lemma {:induction false} RunEnded(vec: seq<Cmd>, b: nat, e: nat, x: Cmd, y: Cmd)
    requires b < e < |vec| && Batchable(vec[b]) && e == RunEnd(vec, b, b + 1)
    requires Leaves(x) == vec[b..e] && Leaves(y) == vec[e..e + 1]
    ensures !Joinable(x, y) && NumOfSubcmds(y) == 1
    ensures OneList(Leaves(x))
  {
    RunEndStops(vec, b, b + 1);
    var both := Leaves(x) + Leaves(y);
    assert |both| == e - b + 1 && both[0] == vec[b] && both[e - b] == vec[e];
  }

  /** The lists are as long as can be but for one case: a single copy that has
      just ended the run before it does not join the run behind it. */
  lemma {:induction false} ListsAreMaximal(vec: seq<Cmd>, b: nat, out: seq<Cmd>, i: nat)
    requires b <= |vec| && forall k :: 0 <= k < |vec| ==> !vec[k].List?
    requires Flat(out) == vec[b..] && Sizes(out) == Groups(vec, b)
    requires i + 1 < |out| && Joinable(out[i], out[i + 1])
    ensures i > 0 && NumOfSubcmds(out[i]) == 1 && !Joinable(out[i - 1], out[i])
    ensures OneList(Leaves(out[i - 1]))
    decreases |out|
  {
    hide ConcatMap, Joinable, RunEnd, OneList, Leaves, Groups;
    GroupsAt(vec, b);
    assert b < |vec|;
    if !Batchable(vec[b]) {
      Peel(vec, b, out, 1, Groups(vec, b + 1));
      NotJoinable(out[0], out[1]);
      ListsAreMaximal(vec, b + 1, out[1..], i - 1);
    } else {
      var e := RunEnd(vec, b, b + 1);
      assert e < |vec|;
      Peel(vec, b, out, e - b, [1] + Groups(vec, e + 1));
      Peel(vec, e, out[1..], 1, Groups(vec, e + 1));
      RunEnded(vec, b, e, out[0], out[1]);
      if i > 1 {
        assert out[1..][1..] == out[2..];
        ListsAreMaximal(vec, e + 1, out[2..], i - 2);
      }
    }
  }

  /** The exception does occur: of two runs of two copies each, in different
      directions, only the first becomes a list. */
  lemma SecondRunIsSplit(vec: seq<Cmd>)
    requires |vec| == 4 && Batchable(vec[0]) && Batchable(vec[1]) && Batchable(vec[2]) && Batchable(vec[3])
    requires vec[0].c.copy.c2h == vec[1].c.copy.c2h != vec[2].c.copy.c2h == vec[3].c.copy.c2h
    ensures Groups(vec, 0) == [2, 1, 1]
  {
    assert RunEnd(vec, 0, 1) == RunEnd(vec, 0, 2) == 2;
    assert Groups(vec, 3) == [1];
  }

  /** If `v` is a list its copies are numbered and its counters full. */
  predicate Full(v: CmdV) {
    v.ListCmd? ==> CopiesIndexed(v.copies) && v.edited && v.numEdits == |v.copies| > 0
  }

  predicate AllBatches(vec: seq<Cmd>) {
    forall i :: 0 <= i < |vec| ==> IsBatch(vec[i])
  }

  predicate AllFull(view: seq<CmdV>) {
    forall i :: 0 <= i < |view| ==> Full(view[i])
  }

  predicate Numbered(v: CmdV, i: nat) {
    Index(v) == i && Full(v)
  }

  /** `out` stands for the first `b` commands of `vec`, whose values were `vals`. */
  ghost predicate Emitted(out: seq<Cmd>, vec: seq<Cmd>, vals: seq<CmdV>, b: nat)
    reads Repr(out)
  {
    EmittedAs(out, View(out), vec, vals, b)
  }

  // The same, where `view` are the values of the entries.
  ghost predicate EmittedAs(out: seq<Cmd>, view: seq<CmdV>, vec: seq<Cmd>, vals: seq<CmdV>, b: nat) {
    && b <= |vec| == |vals| && |out| <= b && |view| == |out|
    && Flat(out) == Flat(vec[..b])
    && PlainFlat(view) == PlainFlat(vals[..b])
    && (forall i :: 0 <= i < |out| ==> IsBatch(out[i]) && Numbered(view[i], i))
    && Apart(out)
  }

  // The objects of `out` are those of commands already emitted, or new.
  ghost predicate Uses(out: seq<Cmd>, vec: seq<Cmd>, b: nat)
    requires b <= |vec|
  {
    forall k, j :: 0 <= k < |out| && b <= j < |vec| ==> Objs(out[k]) !! Objs(vec[j])
  }

  ghost predicate Waiting(vec: seq<Cmd>, vals: seq<CmdV>, b: nat)
    reads Repr(vec)
  {
    |vals| == |vec| && forall j :: b <= j < |vec| ==> V(vec[j]) == vals[j]
  }

  // new_list.push_back(cmd) with the next index.
  method Emit(out: seq<Cmd>, cmd: Cmd, ghost vec: seq<Cmd>, ghost vals: seq<CmdV>, ghost b: nat, ghost e: nat)
    returns (out': seq<Cmd>)
    requires Emitted(out, vec, vals, b) && Uses(out, vec, b) && b < e <= |vec| <= U16_MAX
    requires Apart(vec) && Waiting(vec, vals, e)
    requires WellFormed(cmd) && IsBatch(cmd) && Leaves(cmd) == Flat(vec[b..e])
    requires PlainLeaves(V(cmd)) == PlainFlat(vals[b..e])
    requires Numbered(V(cmd), Index(V(cmd)))
    requires forall k :: 0 <= k < |out| ==> Objs(out[k]) !! Objs(cmd)
    requires forall j :: e <= j < |vec| ==> Objs(vec[j]) !! Objs(cmd)
    modifies Objs(cmd)
    ensures out' == out + [cmd]
    ensures Emitted(out', vec, vals, e) && Uses(out', vec, e) && Waiting(vec, vals, e)
  {
    hide ConcatMap, EmittedAs, Uses, PlainFlat, PlainLeaves, Leaves, Numbered, IsBatch, WellFormed, Apart;
    ghost var view, v := View(out), V(cmd);
    EmittedSize(out, view, vec, vals, b);
    SetIndex(cmd, |out|);
    out' := out + [cmd];
    forall k | 0 <= k < |out|
      ensures V(out[k]) == view[k]
    {
      assert Objs(out[k]) !! Objs(cmd);
    }
    forall j | e <= j < |vec|
      ensures V(vec[j]) == vals[j]
    {
      assert Objs(vec[j]) !! Objs(cmd);
    }
    assert View(out') == view + [V(cmd)];
    EmitMore(out, view, cmd, v, vec, vals, b, e);
  }

  lemma EmittedSize(out: seq<Cmd>, view: seq<CmdV>, vec: seq<Cmd>, vals: seq<CmdV>, b: nat)
    requires EmittedAs(out, view, vec, vals, b)
    ensures |out| <= b <= |vec|
  {
  }

  // One more entry, with its index set.
  lemma EmitMore(out: seq<Cmd>, view: seq<CmdV>, cmd: Cmd, v: CmdV, vec: seq<Cmd>, vals: seq<CmdV>, b: nat, e: nat)
    requires EmittedAs(out, view, vec, vals, b) && Uses(out, vec, b) && b < e <= |vec| <= U16_MAX
    requires WellFormed(cmd) && IsBatch(cmd) && Leaves(cmd) == Flat(vec[b..e])
    requires PlainLeaves(v) == PlainFlat(vals[b..e]) && Numbered(v, Index(v))
    requires forall k :: 0 <= k < |out| ==> Objs(out[k]) !! Objs(cmd)
    requires forall j :: e <= j < |vec| ==> Objs(vec[j]) !! Objs(cmd)
    ensures EmittedAs(out + [cmd], view + [WithIndex(v, |out|)], vec, vals, e) && Uses(out + [cmd], vec, e)
  {
    hide ConcatMap;
    var w := WithIndex(v, |out|);
    assert PlainLeaves(w) == PlainLeaves(v);
    ConcatMapSnoc(Leaves, out, cmd);
    ConcatMapConcat(Leaves, vec[..b], vec[b..e]);
    ConcatMapSnoc(PlainLeaves, view, w);
    assert vec[..e] == vec[..b] + vec[b..e];
    assert vals[..e] == vals[..b] + vals[b..e];
    ConcatMapConcat(PlainLeaves, vals[..b], vals[b..e]);
  }

  lemma PlainFlatSingle(v: CmdV)
    ensures PlainFlat([v]) == PlainLeaves(v)
  {
    ConcatMapSnoc(PlainLeaves, [], v);
    assert [] + [v] == [v];
  }

  lemma {:induction false} PlainFlatCopies(vals: seq<CmdV>)
    requires forall k :: 0 <= k < |vals| ==> !vals[k].ListCmd?
    ensures |PlainFlat(vals)| == |vals|
    ensures forall k :: 0 <= k < |vals| ==> PlainFlat(vals)[k] == WithIndex(vals[k], 0)
  {
    if vals != [] {
      var n := |vals| - 1;
      PlainFlatCopies(vals[..n]);
    }
  }

  lemma CopyIsFull(vec: seq<Cmd>, vals: seq<CmdV>, b: nat)
    requires b < |vec| && Waiting(vec, vals, b) && Batchable(vec[b])
    ensures IsBatch(vec[b]) && Full(vals[b])
  {
  }

  // The pending run vec[b..e]: alone if it is one copy, else as a copy list.
  method EmitBatch(out: seq<Cmd>, vec: seq<Cmd>, b: nat, e: nat, ghost vals: seq<CmdV>) returns (out': seq<Cmd>)
    requires Emitted(out, vec, vals, b) && Uses(out, vec, b) && CopyRun(vec, b, e) && |vec| <= U16_MAX
    requires Apart(vec) && Waiting(vec, vals, b)
    modifies Repr(vec)
    ensures Emitted(out', vec, vals, e) && Uses(out', vec, e) && Waiting(vec, vals, e)
    ensures Sizes(out') == Sizes(out) + [e - b]
    ensures forall o :: o in Repr(out') ==> o in Repr(out) || o in Repr(vec) || fresh(o)
  {
    hide Emitted, Uses, Waiting, Apart;
    if e - b == 1 {
      CopyIsFull(vec, vals, b);
      out' := EmitOne(out, vec, b, vals);
    } else {
      out' := EmitList(out, vec, b, e, vals);
    }
  }

  method EmitList(out: seq<Cmd>, vec: seq<Cmd>, b: nat, e: nat, ghost vals: seq<CmdV>) returns (out': seq<Cmd>)
    requires Emitted(out, vec, vals, b) && Uses(out, vec, b) && CopyRun(vec, b, e) && |vec| <= U16_MAX
    requires Apart(vec) && Waiting(vec, vals, b) && b + 2 <= e
    modifies Repr(vec)
    ensures Emitted(out', vec, vals, e) && Uses(out', vec, e) && Waiting(vec, vals, e)
    ensures Sizes(out') == Sizes(out) + [e - b]
    ensures forall o :: o in Repr(out') ==> o in Repr(out) || o in Repr(vec) || fresh(o)
  {
    hide PlainFlat, PlainLeaves, Numbered, IsBatch, Apart, Emitted, Uses, Waiting, Leaves;
    var cmd := MakeList(out, vec, b, e, vals);
    out' := Emit(out, cmd, vec, vals, b, e);
  }

  // Builds the copy list, without yet numbering it.
  method MakeList(ghost out: seq<Cmd>, vec: seq<Cmd>, b: nat, e: nat, ghost vals: seq<CmdV>) returns (cmd: Cmd)
    requires Emitted(out, vec, vals, b) && Uses(out, vec, b) && CopyRun(vec, b, e) && |vec| <= U16_MAX
    requires Apart(vec) && Waiting(vec, vals, b) && b + 2 <= e
    modifies Repr(vec)
    ensures Emitted(out, vec, vals, b) && Waiting(vec, vals, e)
    ensures WellFormed(cmd) && IsBatch(cmd) && Leaves(cmd) == Flat(vec[b..e]) && NumOfSubcmds(cmd) == e - b
    ensures PlainLeaves(V(cmd)) == PlainFlat(vals[b..e]) && Numbered(V(cmd), Index(V(cmd)))
    ensures forall k :: 0 <= k < |out| ==> Objs(out[k]) !! Objs(cmd)
    ensures forall j :: e <= j < |vec| ==> Objs(vec[j]) !! Objs(cmd)
    ensures forall o :: o in Objs(cmd) ==> o in Repr(vec) || fresh(o)
  {
    hide PlainFlat, ConcatMap, PlainLeaves, Numbered, IsBatch, Apart, WellFormed, Leaves, Uses, Waiting, EmittedAs, Objs, Repr;
    var copies := seq(e - b, k requires 0 <= k < e - b => vec[b + k].c);
    ChosenDisjoint(copies, out, vec, b, e);
    cmd := NewList(out, copies, vec, b, e, vals);
    ListApart(cmd.l, out);
    ListApart(cmd.l, vec[e..]);
    Behind(cmd, vec, e);
    OnlyCopies(cmd.l, vec);
  }

  lemma OnlyCopies(l: CopyListParams, vec: seq<Cmd>)
    requires forall c :: c in l.copies ==> c in Repr(vec)
    ensures forall o :: o in Objs(List(l)) ==> o in Repr(vec) || o == l
  {
  }

  lemma Behind(cmd: Cmd, vec: seq<Cmd>, e: nat)
    requires e <= |vec| && forall k :: 0 <= k < |vec[e..]| ==> Objs(vec[e..][k]) !! Objs(cmd)
    ensures forall j :: e <= j < |vec| ==> Objs(vec[j]) !! Objs(cmd)
  {
    forall j | e <= j < |vec|
      ensures Objs(vec[j]) !! Objs(cmd)
    {
      assert vec[e..][j - e] == vec[j];
    }
  }

  method NewListObject(ghost out: seq<Cmd>, ghost later: seq<Cmd>, copies: seq<CopyParams>) returns (l: CopyListParams)
    requires 0 < |copies| <= U16_MAX && Distinct(copies)
    requires forall c :: c in copies ==> c !in Repr(out) && c !in Repr(later)
    modifies copies
    ensures View(out) == old(View(out)) && View(later) == old(View(later)) && fresh(l)
    ensures l.copies == copies && l.idx == U16_MAX && l.edited && l.numEdits == |copies|
    ensures forall s :: 0 <= s < |copies| ==> copies[s].V() == old(copies[s].V()).(idx := s)
  {
    hide V;
    ghost var view, view' := View(out), View(later);
    l := new CopyListParams(copies);
    forall k | 0 <= k < |out|
      ensures V(out[k]) == view[k]
    {
      assert forall o :: o in Objs(out[k]) ==> o in Repr(out);
    }
    forall k | 0 <= k < |later|
      ensures V(later[k]) == view'[k]
    {
      assert forall o :: o in Objs(later[k]) ==> o in Repr(later);
    }
  }

  method NewList(ghost out: seq<Cmd>, copies: seq<CopyParams>, ghost vec: seq<Cmd>, ghost b: nat, ghost e: nat, ghost vals: seq<CmdV>)
    returns (cmd: Cmd)
    requires Apart(vec) && CopyRun(vec, b, e) && |vec| <= U16_MAX && Waiting(vec, vals, b)
    requires |copies| == e - b >= 2
    requires forall k :: 0 <= k < e - b ==> copies[k] == vec[b + k].c
    requires forall c :: c in copies ==> c !in Repr(out) && c !in Repr(vec[e..])
    modifies copies
    ensures View(out) == old(View(out))
    ensures WellFormed(cmd) && IsBatch(cmd) && Leaves(cmd) == Flat(vec[b..e]) && NumOfSubcmds(cmd) == e - b && Waiting(vec, vals, e)
    ensures PlainLeaves(V(cmd)) == PlainFlat(vals[b..e])
    ensures Numbered(V(cmd), Index(V(cmd)))
    ensures cmd.List? && cmd.l.copies == copies && fresh(cmd.l)
    ensures cmd.l !in Repr(out) && cmd.l !in Repr(vec[e..])
  {
    hide PlainLeaves, PlainFlat, Numbered, Leaves, IsBatch, Apart, Uses;
    DistinctRun(copies, vec, b, e);
    RunValues(copies, vec, b, e, vals);
    var l := NewListObject(out, vec[e..], copies);
    cmd := List(l);
    ListOfRun(cmd, vec, b, e);
    forall j | e <= j < |vec|
      ensures V(vec[j]) == vals[j]
    {
      assert vec[j] == vec[e..][j - e] && View(vec[e..])[j - e] == old(V(vec[j]));
    }
    ListOfValues(V(cmd), vals[b..e]);
  }

  lemma DistinctRun(copies: seq<CopyParams>, vec: seq<Cmd>, b: nat, e: nat)
    requires Apart(vec) && CopyRun(vec, b, e) && |copies| == e - b
    requires forall k :: 0 <= k < e - b ==> copies[k] == vec[b + k].c
    ensures Distinct(copies)
  {
    forall s, t | 0 <= s < t < |copies|
      ensures copies[s] != copies[t]
    {
      assert Objs(vec[b + s]) !! Objs(vec[b + t]);
    }
  }

  lemma RunValues(copies: seq<CopyParams>, vec: seq<Cmd>, b: nat, e: nat, vals: seq<CmdV>)
    requires CopyRun(vec, b, e) && |copies| == e - b && Waiting(vec, vals, b)
    requires forall k :: 0 <= k < e - b ==> copies[k] == vec[b + k].c
    ensures |vals[b..e]| == |copies| && forall k :: 0 <= k < e - b ==> vals[b..e][k] == CopyCmd(copies[k].V())
  {
    forall k | 0 <= k < e - b
      ensures vals[b..e][k] == CopyCmd(copies[k].V())
    {
      assert V(vec[b + k]) == vals[b + k];
    }
  }

  lemma ListOfRun(cmd: Cmd, vec: seq<Cmd>, b: nat, e: nat)
    requires CopyRun(vec, b, e) && cmd.List? && |cmd.l.copies| == e - b && 2 <= e - b <= U16_MAX
    requires forall k :: 0 <= k < e - b ==> cmd.l.copies[k] == vec[b + k].c
    ensures Leaves(cmd) == Flat(vec[b..e]) && IsBatch(cmd) && NumOfSubcmds(cmd) == e - b
  {
    forall k | 0 <= k < e - b
      ensures Leaves(cmd)[k] == vec[b..e][k]
      ensures !cmd.l.copies[k].copy.d2d && cmd.l.copies[k].copy.c2h == vec[b].c.copy.c2h
    {
      assert Batchable(vec[b + k]);
    }
    assert cmd.l.copies[0] == vec[b + 0].c;
    FlatOfCopies(vec[b..e]);
  }

  lemma {:induction false} FlatOfCopies(vec: seq<Cmd>)
    requires forall k :: 0 <= k < |vec| ==> !vec[k].List?
    ensures Flat(vec) == vec
  {
    if vec != [] {
      FlatOfCopies(vec[..|vec| - 1]);
    }
  }

  // A full list made of the copies `vals`.
  lemma ListOfValues(v: CmdV, vals: seq<CmdV>)
    requires v.ListCmd? && v.edited && v.numEdits == |v.copies| == |vals| > 0
    requires forall k :: 0 <= k < |vals| ==> vals[k].CopyCmd? && v.copies[k] == vals[k].copy.(idx := k)
    ensures PlainLeaves(v) == PlainFlat(vals) && Numbered(v, Index(v))
  {
    PlainFlatCopies(vals);
  }

  lemma ListApart(l: CopyListParams, out: seq<Cmd>)
    requires l !in Repr(out) && forall c :: c in l.copies ==> c !in Repr(out)
    ensures forall k :: 0 <= k < |out| ==> Objs(out[k]) !! Objs(List(l))
  {
    forall k | 0 <= k < |out|
      ensures Objs(out[k]) !! Objs(List(l))
    {
      assert Objs(out[k]) <= Repr(out);
    }
  }

  // The chosen copies are objects of neither the emitted nor the later commands.
  lemma ChosenDisjoint(copies: seq<CopyParams>, out: seq<Cmd>, vec: seq<Cmd>, b: nat, e: nat)
    requires Apart(vec) && CopyRun(vec, b, e) && Uses(out, vec, b) && |copies| == e - b
    requires forall k :: 0 <= k < e - b ==> copies[k] == vec[b + k].c
    ensures forall k, c :: 0 <= k < |out| && c in copies ==> c !in Objs(out[k])
    ensures forall j, c :: e <= j < |vec| && c in copies ==> c !in Objs(vec[j])
    ensures forall c :: c in copies ==> c in Repr(vec) && c !in Repr(out) && c !in Repr(vec[e..])
  {
  }

  method EmitOne(out: seq<Cmd>, vec: seq<Cmd>, i: nat, ghost vals: seq<CmdV>) returns (out': seq<Cmd>)
    requires Emitted(out, vec, vals, i) && Uses(out, vec, i) && i < |vec| <= U16_MAX
    requires Apart(vec) && Waiting(vec, vals, i) && IsBatch(vec[i]) && Full(vals[i])
    modifies Objs(vec[i])
    ensures Emitted(out', vec, vals, i + 1) && Uses(out', vec, i + 1) && Waiting(vec, vals, i + 1)
    ensures Sizes(out') == Sizes(out) + [NumOfSubcmds(vec[i])]
    ensures forall o :: o in Repr(out') ==> o in Repr(out) || o in Repr(vec)
  {
    hide Emitted, Uses, Waiting, Apart, PlainFlat, PlainLeaves, WellFormed;
    SingleEntry(out, vec, vals, i);
    out' := Emit(out, vec[i], vec, vals, i, i + 1);
  }

  lemma SingleEntry(out: seq<Cmd>, vec: seq<Cmd>, vals: seq<CmdV>, i: nat)
    requires i < |vec| && Uses(out, vec, i) && Apart(vec) && Waiting(vec, vals, i) && Full(vals[i])
    ensures WellFormed(vec[i]) && Leaves(vec[i]) == Flat(vec[i..i + 1])
    ensures PlainLeaves(V(vec[i])) == PlainFlat(vals[i..i + 1]) && Numbered(V(vec[i]), Index(V(vec[i])))
    ensures forall k :: 0 <= k < |out| ==> Objs(out[k]) !! Objs(vec[i])
    ensures forall j :: i + 1 <= j < |vec| ==> Objs(vec[j]) !! Objs(vec[i])
    ensures Waiting(vec, vals, i + 1)
  {
    hide PlainFlat;
    FlatCons(vec[i], []);
    assert [vec[i]] + [] == [vec[i]] && Leaves(vec[i]) + [] == Leaves(vec[i]);
    assert vec[i..i + 1] == [vec[i]] && vals[i..i + 1] == [vals[i]];
    PlainFlatSingle(vals[i]);
  }

  lemma EmittedNothing(vec: seq<Cmd>)
    ensures Emitted([], vec, View(vec), 0) && Uses([], vec, 0) && Waiting(vec, View(vec), 0)
  {
  }

  lemma EmittedEverything(out: seq<Cmd>, vec: seq<Cmd>, vals: seq<CmdV>)
    requires Emitted(out, vec, vals, |vec|)
    ensures |out| <= |vec| && Apart(out) && Flat(out) == Flat(vec) && PlainFlat(View(out)) == PlainFlat(vals)
    ensures forall i :: 0 <= i < |out| ==> IsBatch(out[i]) && Numbered(V(out[i]), i)
  {
    assert vec[..|vec|] == vec && vals[..|vec|] == vals;
  }

  /** The entries made so far, of these sizes, are those for the first `b` commands. */
  ghost predicate Grouped(sizes: seq<nat>, vec: seq<Cmd>, b: nat) {
    b <= |vec| && Groups(vec, 0) == sizes + Groups(vec, b)
  }

  lemma {:induction false} GroupedNothing(vec: seq<Cmd>)
    ensures Sizes([]) == [] && Grouped(Sizes([]), vec, 0)
  {
    assert [] + Groups(vec, 0) == Groups(vec, 0);
  }

  lemma {:induction false} GroupedOne(sizes: seq<nat>, vec: seq<Cmd>, b: nat)
    requires Grouped(sizes, vec, b) && b < |vec| && !Batchable(vec[b])
    ensures Grouped(sizes + [NumOfSubcmds(vec[b])], vec, b + 1)
  {
    var one := [NumOfSubcmds(vec[b])];
    assert sizes + (one + Groups(vec, b + 1)) == sizes + one + Groups(vec, b + 1);
  }

  lemma {:induction false} GroupedRun(sizes: seq<nat>, vec: seq<Cmd>, b: nat, e: nat)
    requires Grouped(sizes, vec, b) && b < |vec| && Batchable(vec[b]) && e == RunEnd(vec, b, b + 1)
    ensures if e == |vec| then Grouped(sizes + [e - b], vec, e) else Grouped(sizes + [e - b] + [NumOfSubcmds(vec[e])], vec, e + 1)
  {
    hide RunEnd;
    if e == |vec| {
      assert sizes + [e - b] + [] == sizes + [e - b];
    } else {
      var one := [NumOfSubcmds(vec[e])];
      assert GroupsBehind(vec, e) == one + Groups(vec, e + 1);
      assert sizes + ([e - b] + (one + Groups(vec, e + 1))) == sizes + [e - b] + one + Groups(vec, e + 1);
    }
  }

  lemma {:induction false} GroupedEverything(sizes: seq<nat>, vec: seq<Cmd>)
    requires Grouped(sizes, vec, |vec|)
    ensures sizes == Groups(vec, 0)
  {
  }

  /** The run that starts at `b` goes up to `i` at least. */
  predicate InRun(vec: seq<Cmd>, b: nat, i: nat) {
    CopyRun(vec, b, i) && RunEnd(vec, b, b + 1) == RunEnd(vec, b, i)
  }

  lemma {:induction false} RunGoesOn(vec: seq<Cmd>, b: nat, i: nat)
    requires b <= i < |vec| && Batchable(vec[b]) && (b < i ==> InRun(vec, b, i))
    requires Batchable(vec[i]) && vec[i].c.copy.c2h == vec[b].c.copy.c2h && i - b < U16_MAX
    ensures InRun(vec, b, i + 1) && (i + 1 == |vec| ==> RunEnd(vec, b, b + 1) == i + 1)
  {
  }

  lemma {:induction false} RunStops(vec: seq<Cmd>, b: nat, i: nat)
    requires b < i < |vec| && Batchable(vec[b]) && InRun(vec, b, i)
    requires !Batchable(vec[i]) || vec[i].c.copy.c2h != vec[b].c.copy.c2h || i - b >= U16_MAX
    ensures RunEnd(vec, b, b + 1) == i
  {
  }

  // How far the rewriting has come.
  ghost predicate Progress(out: seq<Cmd>, vec: seq<Cmd>, vals: seq<CmdV>, b: nat)
    reads Repr(out), Repr(vec)
  {
    b <= |vec| && Emitted(out, vec, vals, b) && Uses(out, vec, b) && Waiting(vec, vals, b) && Grouped(Sizes(out), vec, b)
  }

  lemma NoProgress(vec: seq<Cmd>)
    ensures Progress([], vec, View(vec), 0)
  {
    EmittedNothing(vec);
    GroupedNothing(vec);
  }

  lemma AllProgress(out: seq<Cmd>, vec: seq<Cmd>, vals: seq<CmdV>)
    requires Progress(out, vec, vals, |vec|)
    ensures |out| <= |vec| && Apart(out) && Flat(out) == Flat(vec) && PlainFlat(View(out)) == PlainFlat(vals)
    ensures forall i :: 0 <= i < |out| ==> IsBatch(out[i]) && Numbered(V(out[i]), i)
    ensures Sizes(out) == Groups(vec, 0)
  {
    hide Emitted, PlainFlat, Grouped;
    GroupedEverything(Sizes(out), vec);
    EmittedEverything(out, vec, vals);
  }

  // A command that is in no run.
  method PassOne(out: seq<Cmd>, vec: seq<Cmd>, i: nat, ghost vals: seq<CmdV>) returns (out': seq<Cmd>)
    requires i < |vec| <= U16_MAX && Progress(out, vec, vals, i) && Apart(vec) && !Batchable(vec[i])
    requires AllBatches(vec) && AllFull(vals) && |vals| == |vec|
    modifies Objs(vec[i])
    ensures Progress(out', vec, vals, i + 1)
    ensures forall o :: o in Repr(out') ==> o in Repr(out) || o in Repr(vec)
  {
    hide Emitted, Uses, Waiting, Apart, Groups, Sizes, Grouped;
    GroupedOne(Sizes(out), vec, i);
    out' := EmitOne(out, vec, i, vals);
  }

  // The run that ends before command `e`, and the command that ended it.
  method PassRun(out: seq<Cmd>, vec: seq<Cmd>, b: nat, e: nat, ghost vals: seq<CmdV>) returns (out': seq<Cmd>)
    requires b < e <= |vec| <= U16_MAX && Batchable(vec[b]) && InRun(vec, b, e) && Progress(out, vec, vals, b) && Apart(vec)
    requires e == RunEnd(vec, b, b + 1) && AllBatches(vec) && AllFull(vals) && |vals| == |vec|
    modifies Repr(vec)
    ensures Progress(out', vec, vals, if e < |vec| then e + 1 else e)
    ensures forall o :: o in Repr(out') ==> o in Repr(out) || o in Repr(vec) || fresh(o)
  {
    hide Emitted, Uses, Waiting, Apart, Groups, Sizes, Grouped, RunEnd;
    GroupedRun(Sizes(out), vec, b, e);
    out' := EmitBatch(out, vec, b, e, vals);
    if e < |vec| {
      out' := EmitOne(out', vec, e, vals);
    }
  }

  /** The rewritten vector flattens to the same as the given one, with every command's
      parameters and marks, and is cut as `Groups` says; entries and the copies of
      each list are numbered by position. Lists that are there already stay, if
      everything in them is still to be sent. The 16-bit counters of the code suffice. */
  method OptimizeBatchCopies(vec: seq<Cmd>) returns (out: seq<Cmd>)
    requires |vec| <= U16_MAX && Apart(vec) && AllBatches(vec) && AllFull(View(vec))
    modifies Repr(vec)
    ensures |out| <= |vec| && Apart(out)
    ensures Flat(out) == Flat(vec)
    ensures PlainFlat(View(out)) == PlainFlat(old(View(vec)))
    ensures forall i :: 0 <= i < |out| ==> IsBatch(out[i]) && Numbered(V(out[i]), i)
    ensures Sizes(out) == Groups(vec, 0)
    ensures forall o :: o in Repr(out) ==> o in Repr(vec) || fresh(o)
  {
    hide Progress, Apart, Groups, Sizes, RunEnd, CopyRun, InRun, AllBatches, AllFull, ConcatMap, IsBatch, Numbered;
    ghost var vals := View(vec);
    NoProgress(vec);
    out := [];
    var first: Option<Cmd> := None;
    var batchStart: u16 := 0;
    var i: u16 := 0;
    while i < |vec|
      invariant 0 <= i <= |vec|
      invariant first.Some? ==> batchStart < i < |vec| && first.value == vec[batchStart] && Batchable(first.value)
      invariant first.Some? ==> InRun(vec, batchStart, i)
      invariant Progress(out, vec, vals, if first.Some? then batchStart else i)
      invariant forall o :: o in Repr(out) ==> o in Repr(vec) || fresh(o)
    {
      var breakBatch := true;
      if Batchable(vec[i]) {
        if first.None? {
          batchStart := i;
          first := Some(vec[i]);
          breakBatch := false;
        } else if vec[i].c.copy.c2h == first.value.c.copy.c2h && i - batchStart < 0xffff {
          breakBatch := false;
        }
      }
      if first.None? {
        out := PassOne(out, vec, i, vals);
      } else {
        if breakBatch {
          RunStops(vec, batchStart, i);
        } else {
          RunGoesOn(vec, batchStart, i);
        }
        if breakBatch || i == |vec| - 1 {
          out := PassRun(out, vec, batchStart, if breakBatch then i else i + 1, vals);
          first := None;
        }
      }
      i := i + 1;
    }
    AllProgress(out, vec, vals);
  }
}
