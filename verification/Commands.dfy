/** The entries of a command list: single copies, infer requests and copy lists,
    with the operations the list calls on them whatever their kind. */
module Commands {
  import opened Bytes
  import opened Options
  import opened CardDecoder
  import opened CommandValues
  import opened CopyCommands
  import opened SchedParams

  datatype Cmd = Copy(c: CopyParams) | Infer(q: InferReqParams) | List(l: CopyListParams)

  predicate WellFormed(cmd: Cmd) {
    cmd.List? ==> 0 < |cmd.l.copies| <= U16_MAX && Distinct(cmd.l.copies)
  }

  predicate IsParams(o: object) {
    o is CopyParams || o is InferReqParams || o is CopyListParams
  }

  ghost function Objs(cmd: Cmd): (objs: set<object>)
    ensures cmd.List? ==> forall c :: c in cmd.l.copies ==> c in objs
    ensures forall o :: o in objs ==> IsParams(o)
  {
    match cmd
    case Copy(c) => {c}
    case Infer(q) => {q}
    case List(l) => {l} + (set c: CopyParams | c in l.copies :: c as object)
  }

  function V(cmd: Cmd): (v: CmdV)
    reads Objs(cmd)
    ensures v.ListCmd? <==> cmd.List?
    ensures SubCount(v) == NumOfSubcmds(cmd)
  {
    match cmd
    case Copy(c) => CopyCmd(c.V())
    case Infer(q) => q.V()
    case List(l) => l.V()
  }

  function NumOfSubcmds(cmd: Cmd): nat {
    if cmd.List? then |cmd.l.copies| else 1
  }

  /** The commands as the user appended them. */
  function Leaves(cmd: Cmd): (s: seq<Cmd>)
    ensures |s| == NumOfSubcmds(cmd)
  {
    if cmd.List? then seq(|cmd.l.copies|, s requires 0 <= s < |cmd.l.copies| => Copy(cmd.l.copies[s])) else [cmd]
  }

  function Flat(vec: seq<Cmd>): seq<Cmd> {
    ConcatMap(Leaves, vec)
  }

  /** A command that `pack` may be called on: settled, or a copy list that is
      being resumed on a later page. */
  predicate Packable(v: CmdV) {
    v.ListCmd? && v.numEdits == 0 ==> !v.edited && EditedCopies(v.copies) == 0
  }

  /** Writes what is left of a command, or as many whole records as fit. */
  method Pack(cmd: Cmd, buf: array<byte>, p: nat, size: nat) returns (ok: bool, q: nat, ghost recs: seq<Record>)
    requires WellFormed(cmd) && p + size <= buf.Length && Packable(V(cmd))
    modifies Objs(cmd), buf
    ensures p <= q <= p + size && Written(buf[..], old(buf[..]), p, q, recs)
    ensures Records(old(V(cmd))) == recs + Records(V(cmd))
    ensures Clear(V(cmd)) == Clear(old(V(cmd))) && Packable(V(cmd))
    ensures ok ==> V(cmd) == Clear(old(V(cmd))) && Records(V(cmd)) == []
    ensures !ok ==> recs != [] || size < COPY_REC_SIZE
    ensures !ok ==> NoRoom(V(cmd), p + size - q)
  {
    hide Written;
    ClearSettles(V(cmd));
    match cmd
    case Copy(c) => ok, q, recs := c.Pack(buf, p, size);
    case Infer(r) => ok, q, recs := r.Pack(buf, p, size);
    case List(l) =>
      ok, q, recs := l.Pack(buf, p, size);
  }

  method ClearEdits(cmd: Cmd)
    requires WellFormed(cmd) && Packable(V(cmd))
    modifies Objs(cmd)
    ensures V(cmd) == Clear(old(V(cmd)))
  {
    match cmd
    case Copy(c) => c.edited := false;
    case Infer(r) => r.edited := false;
    case List(l) =>
      if l.numEdits == 0 {
        NoneEditedWhenZero(l.CopyVs());
      }
      l.ClearEdits();
  }

  function WithIndex(v: CmdV, idx: u16): CmdV {
    match v
    case CopyCmd(c) => CopyCmd(c.(idx := idx))
    case InferCmd(_, content, edited) => InferCmd(idx, content, edited)
    case ListCmd(_, edited, numEdits, copies) => ListCmd(idx, edited, numEdits, copies)
  }

  lemma WithIndexKeeps(v: CmdV, idx: u16)
    ensures Index(WithIndex(v, idx)) == idx && IsEdited(WithIndex(v, idx)) == IsEdited(v)
    ensures WithIndex(v, idx).ListCmd? == v.ListCmd?
  {
  }

  method SetIndex(cmd: Cmd, idx: u16)
    modifies Objs(cmd)
    ensures V(cmd) == WithIndex(old(V(cmd)), idx)
  {
    match cmd
    case Copy(c) => c.idx := idx;
    case Infer(r) => r.idx := idx;
    case List(l) =>
      l.idx := idx;
      assert l.CopyVs() == old(l.CopyVs());
  }

  /** `v` with its subcommand `s` marked edited. */
  function Mark(v: CmdV, s: nat): CmdV
    requires s < SubCount(v) && (v.ListCmd? ==> v.numEdits < U16_MAX || v.copies[s].edited)
  {
    match v
    case CopyCmd(c) => CopyCmd(c.(edited := true))
    case InferCmd(idx, content, _) => InferCmd(idx, content, true)
    case ListCmd(idx, edited, numEdits, copies) =>
      if copies[s].edited then v
      else ListCmd(idx, true, numEdits + 1, copies[s := copies[s].(edited := true)])
  }

  lemma RoomToMark(v: CmdV, s: nat)
    requires Settled(v) && s < SubCount(v) && SubCount(v) <= U16_MAX
    ensures v.ListCmd? ==> v.numEdits < U16_MAX || v.copies[s].edited
    ensures v.ListCmd? ==> v.numEdits < |v.copies| || v.copies[s].edited
  {
    if v.ListCmd? && !v.copies[s].edited {
      EditedCopiesUpdate(v.copies, s, v.copies[s].(edited := true));
    }
  }

  /** Marking keeps the counters of a copy list in step with its copies. */
  lemma MarkSettles(v: CmdV, s: nat)
    requires Settled(v) && s < SubCount(v) && SubCount(v) <= U16_MAX
    ensures (v.ListCmd? ==> v.numEdits < U16_MAX || v.copies[s].edited)
    ensures Settled(Mark(v, s)) && IsEdited(Mark(v, s)) && Index(Mark(v, s)) == Index(v)
    ensures SubCount(Mark(v, s)) == SubCount(v) && SubEdited(Mark(v, s), s)
    ensures Mark(v, s).ListCmd? == v.ListCmd?
  {
    RoomToMark(v, s);
    if v.ListCmd? {
      if v.copies[s].edited {
        EditedCopiesPositive(v.copies, s);
      } else {
        EditedCopiesUpdate(v.copies, s, v.copies[s].(edited := true));
      }
    }
  }

  /** get_cmd_for_overwrite on one entry: None past its subcommands. */
  method GetCmdForOverwrite(cmd: Cmd, s: nat) returns (r: Option<Cmd>)
    requires WellFormed(cmd) && Settled(V(cmd))
    modifies Objs(cmd)
    ensures r.None? <==> s >= NumOfSubcmds(cmd)
    ensures r.None? ==> V(cmd) == old(V(cmd))
    ensures r.Some? ==> r.value == Leaves(cmd)[s]
    ensures r.Some? ==> (old(V(cmd)).ListCmd? ==> old(V(cmd)).numEdits < U16_MAX || old(V(cmd)).copies[s].edited)
    ensures r.Some? ==> V(cmd) == Mark(old(V(cmd)), s)
  {
    if s < NumOfSubcmds(cmd) {
      RoomToMark(V(cmd), s);
    }
    match cmd
    case Copy(c) =>
      if s > 0 {
        return None;
      }
      c.edited := true;
      return Some(cmd);
    case Infer(q) =>
      if s > 0 {
        return None;
      }
      q.edited := true;
      return Some(cmd);
    case List(l) =>
      if s >= |l.copies| {
        return None;
      }
      ghost var vs := l.CopyVs();
      if !l.copies[s].edited {
        l.numEdits := l.numEdits + 1;
        l.edited := true;
      }
      l.copies[s].edited := true;
      assert l.CopyVs() == vs[s := vs[s].(edited := true)];
      return Some(Copy(l.copies[s]));
  }

  /** `v` with other parameters for its subcommand `s`. */
  function WithContent(v: CmdV, s: nat, content: CopyContent): CmdV
    requires s < SubCount(v) && !v.InferCmd?
  {
    if v.CopyCmd? then CopyCmd(v.copy.(content := content))
    else ListCmd(v.idx, v.edited, v.numEdits, v.copies[s := v.copies[s].(content := content)])
  }

  lemma WithContentKeepsMarks(v: CmdV, s: nat, content: CopyContent)
    requires s < SubCount(v) && !v.InferCmd?
    ensures IsEdited(WithContent(v, s, content)) == IsEdited(v)
    ensures WithContent(v, s, content).ListCmd? == v.ListCmd?
  {
  }

  method SetContent(ghost cmd: Cmd, ghost s: nat, c: CopyParams, priority: u8, size: u64) returns (ghost content: CopyContent)
    requires WellFormed(cmd) && s < NumOfSubcmds(cmd) && Leaves(cmd)[s] == Copy(c)
    modifies Objs(cmd)
    ensures c.V() == old(c.V()).(content := content)
    ensures content == CopyContent(c.copy.id, priority, Min(size, c.copy.maxSize))
    ensures V(cmd) == WithContent(old(V(cmd)), s, content)
  {
    ghost var v := V(cmd);
    c.Overwrite(priority, size);
    content := c.V().content;
    if cmd.List? {
      assert cmd.l.CopyVs() == v.copies[s := v.copies[s].(content := content)];
    }
  }
}
