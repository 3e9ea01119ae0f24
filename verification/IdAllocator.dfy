/** The allocator of protocol ids: a map of free ranges (nnpiIDA). */
module IdAllocator {
  import opened Bytes

  datatype Range = Range(lo: u32, hi: u32)

  const U32_MAX: u32 := 0xffff_ffff

  // The map's entries in the order of their keys `lo`.
  ghost predicate Disjoint(rs: seq<Range>) {
    && (forall i :: 0 <= i < |rs| ==> rs[i].lo <= rs[i].hi)
    && (forall i, j :: 0 <= i < j < |rs| ==> rs[i].hi < rs[j].lo)
  }

  ghost predicate Has(rs: seq<Range>, id: int) {
    exists i :: 0 <= i < |rs| && rs[i].lo <= id <= rs[i].hi
  }

  /** The ranges are disjoint and hold exactly the ids up to `max` not in use. */
  ghost predicate Represents(rs: seq<Range>, max: u32, used: set<u32>) {
    && Disjoint(rs)
    && forall id: int :: Has(rs, id) <==> 0 <= id <= max && id !in used
  }

  function Size(rs: seq<Range>): int {
    if rs == [] then 0 else Size(rs[..|rs| - 1]) + rs[|rs| - 1].hi - rs[|rs| - 1].lo + 1
  }

  // Where a new key goes.
  function Place(rs: seq<Range>, lo: u32): (k: nat)
    ensures k <= |rs|
    ensures k > 0 ==> rs[k - 1].lo <= lo
    ensures k < |rs| ==> lo < rs[k].lo
  {
    if rs == [] || lo < rs[0].lo then 0 else 1 + Place(rs[1..], lo)
  }

  /** Sets the entry with key `r.lo`. */
  function SetEntry(rs: seq<Range>, r: Range): seq<Range> {
    var k := Place(rs, r.lo);
    if k > 0 && rs[k - 1].lo == r.lo then rs[k - 1 := r] else rs[..k] + [r] + rs[k..]
  }

  /** The search loop of `free`, from entry `i` on. */
  function FreeFrom(rs: seq<Range>, id: u32, i: nat): seq<Range>
    requires i <= |rs|
    decreases |rs| - i
  {
    if i == |rs| then SetEntry(rs, Range(id, id))
    else if rs[i].lo == (id + 1) % 0x1_0000_0000 then SetEntry(rs[..i] + rs[i + 1..], Range(id, rs[i].hi))
    else if rs[i].hi == (id - 1) % 0x1_0000_0000 then rs[i := Range(rs[i].lo, id)]
    else FreeFrom(rs, id, i + 1)
  }

  /** The neighbour that `free` looks for is found on the far side of the 32-bit
      wrap. This needs an allocator for all 2^32 ids. */
  predicate Wraps(rs: seq<Range>, id: u32) {
    rs != [] && if id == U32_MAX then rs[0].lo == 0
                else id == 0 && rs[|rs| - 1].hi == U32_MAX && rs[0].lo != 1
  }

  // ----- Ranges side by side -----

  lemma HasElement(rs: seq<Range>, i: nat, id: int)
    requires i < |rs| && rs[i].lo <= id <= rs[i].hi
    ensures Has(rs, id)
  {
  }

  lemma HasConcat(a: seq<Range>, b: seq<Range>)
    ensures forall x: int :: Has(a + b, x) <==> Has(a, x) || Has(b, x)
  {
    forall x: int
      ensures Has(a + b, x) <==> Has(a, x) || Has(b, x)
    {
      if Has(a + b, x) {
        var i :| 0 <= i < |a + b| && (a + b)[i].lo <= x <= (a + b)[i].hi;
        if i < |a| {
          HasElement(a, i, x);
        } else {
          HasElement(b, i - |a|, x);
        }
      }
      if Has(a, x) {
        var i :| 0 <= i < |a| && a[i].lo <= x <= a[i].hi;
        HasElement(a + b, i, x);
      }
      if Has(b, x) {
        var i :| 0 <= i < |b| && b[i].lo <= x <= b[i].hi;
        HasElement(a + b, |a| + i, x);
      }
    }
  }

  lemma {:induction false} SizeConcat(a: seq<Range>, b: seq<Range>)
    ensures Size(a + b) == Size(a) + Size(b)
  {
    if b == [] {
      assert a + b == a;
    } else {
      var n := |b| - 1;
      SizeConcat(a, b[..n]);
      assert (a + b)[..|a| + n] == a + b[..n];
    }
  }

  lemma DisjointConcat(a: seq<Range>, b: seq<Range>)
    ensures Disjoint(a + b) <==>
      Disjoint(a) && Disjoint(b) && (a != [] && b != [] ==> a[|a| - 1].hi < b[0].lo)
  {
    var c := a + b;
    if Disjoint(c) {
      assert forall i :: 0 <= i < |a| ==> a[i] == c[i];
      assert forall i :: 0 <= i < |b| ==> b[i] == c[|a| + i];
    }
    if Disjoint(a) && Disjoint(b) && (a != [] && b != [] ==> a[|a| - 1].hi < b[0].lo) {
      forall i, j | 0 <= i < j < |c|
        ensures c[i].hi < c[j].lo
      {
        if i < |a| <= j {
          assert a[i].hi <= a[|a| - 1].hi && b[0].lo <= b[j - |a|].lo;
        }
      }
    }
  }

  lemma One(r: Range)
    ensures Size([r]) == r.hi - r.lo + 1 && (Disjoint([r]) <==> r.lo <= r.hi)
    ensures forall x: int :: Has([r], x) <==> r.lo <= x <= r.hi
  {
  }

  /** The ranges of `a`, then `r`, then those of `b`. */
  lemma Three(a: seq<Range>, r: Range, b: seq<Range>)
    ensures Size(a + [r] + b) == Size(a) + Size(b) + r.hi - r.lo + 1
    ensures forall x: int :: Has(a + [r] + b, x) <==> Has(a, x) || Has(b, x) || r.lo <= x <= r.hi
    ensures Disjoint(a + [r] + b) <==>
      && Disjoint(a) && Disjoint(b) && r.lo <= r.hi
      && (a != [] ==> a[|a| - 1].hi < r.lo) && (b != [] ==> r.hi < b[0].lo)
  {
    hide Has, Size, Disjoint;
    One(r);
    SizeConcat(a, [r]);
    SizeConcat(a + [r], b);
    HasConcat(a, [r]);
    HasConcat(a + [r], b);
    DisjointConcat(a, [r]);
    DisjointConcat(a + [r], b);
  }

  // ----- free -----

  /** What `free` is meant to do. */
  ghost predicate Freed(rs: seq<Range>, rs': seq<Range>, id: u32) {
    && Disjoint(rs')
    && (forall x: int :: Has(rs', x) <==> Has(rs, x) || x == id)
    && Size(rs') == Size(rs) + 1
  }

  // What an id that no entry holds says about the first and the last one.
  lemma Ends(rs: seq<Range>, id: u32)
    requires Disjoint(rs) && !Has(rs, id) && rs != []
    ensures rs[0].lo != id && rs[|rs| - 1].hi != id
    ensures rs[0].lo <= rs[0].hi && rs[|rs| - 1].lo <= rs[|rs| - 1].hi
    ensures rs[|rs| - 1].lo <= id ==> rs[|rs| - 1].hi < id
    ensures rs[0].lo <= id ==> rs[0].hi < id
  {
  }

  // An entry next to the new id is extended by it.
  lemma Extended(a: seq<Range>, o: Range, b: seq<Range>, id: u32, r: Range)
    requires Disjoint(a + [o] + b) && !Has(a + [o] + b, id)
    requires (r == Range(o.lo, id) && o.hi == id - 1) || (r == Range(id, o.hi) && o.lo == id + 1)
    ensures Freed(a + [o] + b, a + [r] + b, id)
  {
    hide Has, Size, Disjoint;
    Three(a, o, b);
    Three(a, r, b);
    if a != [] {
      Ends(a, id);
    }
    if b != [] {
      Ends(b, id);
    }
  }

  lemma PlaceIs(rs: seq<Range>, lo: u32, k: nat)
    requires Disjoint(rs) && k <= |rs|
    requires k > 0 ==> rs[k - 1].lo <= lo
    requires k < |rs| ==> lo < rs[k].lo
    ensures Place(rs, lo) == k
  {
  }

  // Setting an entry between `a` and `b`.
  lemma SetBetween(a: seq<Range>, b: seq<Range>, r: Range)
    requires Disjoint(a + b)
    requires a != [] ==> a[|a| - 1].lo < r.lo
    requires b != [] ==> r.lo < b[0].lo
    ensures SetEntry(a + b, r) == a + [r] + b
  {
    var c := a + b;
    assert a != [] ==> c[|a| - 1] == a[|a| - 1];
    assert b != [] ==> c[|a|] == b[0];
    PlaceIs(c, r.lo, |a|);
    assert c[..|a|] == a && c[|a|..] == b;
  }

  // The entry after the new id is replaced by one that starts with it.
  lemma FreeBefore(a: seq<Range>, o: Range, b: seq<Range>, id: u32)
    requires Disjoint(a + [o] + b) && !Has(a + [o] + b, id) && o.lo == id + 1
    ensures SetEntry(a + b, Range(id, o.hi)) == a + [Range(id, o.hi)] + b
  {
    hide Has, Size, Disjoint, SetEntry;
    Three(a, o, b);
    DisjointConcat(a, b);
    if a != [] {
      Ends(a, id);
    }
    if b != [] {
      Ends(b, id);
    }
    SetBetween(a, b, Range(id, o.hi));
  }

  lemma FreeAlone(a: seq<Range>, b: seq<Range>, id: u32)
    requires Disjoint(a + b) && !Has(a + b, id)
    requires |a| == Place(a + b, id)
    ensures Freed(a + b, SetEntry(a + b, Range(id, id)), id)
  {
    hide Has, Size, Disjoint, SetEntry, Place;
    HasConcat(a, b);
    SizeConcat(a, b);
    DisjointConcat(a, b);
    Three(a, Range(id, id), b);
    if a != [] {
      assert (a + b)[|a| - 1] == a[|a| - 1];
      Ends(a, id);
    }
    if b != [] {
      assert (a + b)[|a|] == b[0];
      Ends(b, id);
    }
    SetBetween(a, b, Range(id, id));
  }

  lemma Split(rs: seq<Range>, i: nat, r: Range)
    requires i < |rs|
    ensures rs == rs[..i] + [rs[i]] + rs[i + 1..] && rs[i := r] == rs[..i] + [r] + rs[i + 1..]
  {
  }

  lemma {:induction false} FreeWorksFrom(rs: seq<Range>, id: u32, i: nat)
    requires Disjoint(rs) && !Has(rs, id) && i <= |rs| && !Wraps(rs, id)
    requires i > 0 && id == 0 ==> rs[0].lo != 1
    ensures Freed(rs, FreeFrom(rs, id, i), id)
    decreases |rs| - i
  {
    hide Has, Size, Disjoint, SetEntry, Freed, Place;
    if i == |rs| {
      var k := Place(rs, id);
      assert rs[..k] + rs[k..] == rs;
      FreeAlone(rs[..k], rs[k..], id);
    } else if rs[i].lo == (id + 1) % 0x1_0000_0000 {
      WrapCase(rs, id, i);
      Split(rs, i, rs[i]);
      FreeBefore(rs[..i], rs[i], rs[i + 1..], id);
      Extended(rs[..i], rs[i], rs[i + 1..], id, Range(id, rs[i].hi));
    } else if rs[i].hi == (id - 1) % 0x1_0000_0000 {
      WrapCase(rs, id, i);
      Split(rs, i, Range(rs[i].lo, id));
      Extended(rs[..i], rs[i], rs[i + 1..], id, Range(rs[i].lo, id));
    } else {
      FreeWorksFrom(rs, id, i + 1);
    }
  }

  lemma WrapCase(rs: seq<Range>, id: u32, i: nat)
    requires Disjoint(rs) && !Has(rs, id) && i < |rs| && !Wraps(rs, id)
    requires id == 0 ==> rs[0].lo != 1 || i == 0
    ensures rs[i].lo == (id + 1) % 0x1_0000_0000 ==> rs[i].lo == id + 1
    ensures rs[i].lo != (id + 1) % 0x1_0000_0000 && rs[i].hi == (id - 1) % 0x1_0000_0000 ==> rs[i].hi == id - 1
  {
  }

  lemma {:induction false} FreeZeroWraps(rs: seq<Range>, i: nat)
    requires Disjoint(rs) && !Has(rs, 0) && Wraps(rs, 0) && i < |rs|
    ensures !Disjoint(FreeFrom(rs, 0, i))
    decreases |rs| - i
  {
    hide SetEntry, Place, Disjoint, Has;
    NoZero(rs, i);
    if i < |rs| - 1 {
      FreeZeroWraps(rs, i + 1);
    } else {
      var r := Range(rs[i].lo, 0);
      assert rs[i := r][i] == r;
      BadEntry(rs[i := r], r);
    }
  }

  lemma NoZero(rs: seq<Range>, i: nat)
    requires Disjoint(rs) && !Has(rs, 0) && Wraps(rs, 0) && i < |rs|
    ensures rs[i].lo > 1 && (i < |rs| - 1 ==> rs[i].hi < U32_MAX)
  {
  }

  lemma FreeMaxWraps(rs: seq<Range>)
    requires Disjoint(rs) && !Has(rs, U32_MAX) && Wraps(rs, U32_MAX)
    ensures !Disjoint(FreeFrom(rs, U32_MAX, 0))
  {
    Ends(rs, U32_MAX);
    assert rs[0].hi < U32_MAX;
    hide SetEntry, Place, Has, Disjoint;
    var r := Range(U32_MAX, rs[0].hi);
    var rest := rs[..0] + rs[1..];
    assert FreeFrom(rs, U32_MAX, 0) == SetEntry(rest, r);
    EntrySet(rest, r);
    BadEntry(SetEntry(rest, r), r);
  }

  lemma BadEntry(rs: seq<Range>, r: Range)
    requires r in rs && r.hi < r.lo
    ensures !Disjoint(rs)
  {
  }

  lemma EntrySet(rs: seq<Range>, r: Range)
    ensures r in SetEntry(rs, r)
  {
    var k := Place(rs, r.lo);
    if k > 0 && rs[k - 1].lo == r.lo {
      assert SetEntry(rs, r)[k - 1] == r;
    } else {
      assert SetEntry(rs, r)[k] == r;
    }
  }

  /** `free` gives back exactly the id unless a neighbour is found across the wrap:
      then the map is corrupted. */
  lemma FreeIff(rs: seq<Range>, max: u32, used: set<u32>, id: u32)
    requires Represents(rs, max, used) && id in used && id <= max
    ensures Represents(FreeFrom(rs, id, 0), max, used - {id}) <==> !Wraps(rs, id)
    ensures !Wraps(rs, id) ==> Size(FreeFrom(rs, id, 0)) == Size(rs) + 1
  {
    hide FreeFrom, Size, Disjoint, Has;
    if !Wraps(rs, id) {
      FreeWorksFrom(rs, id, 0);
    } else if id == U32_MAX {
      FreeMaxWraps(rs);
    } else {
      FreeZeroWraps(rs, 0);
    }
  }

  /** Both ways to corrupt the map of an allocator of all ids: giving back the first
      id while the last is free, or the last while the first is. */
  lemma FreeCorrupts()
    ensures var rs := [Range(2, U32_MAX)];
            Represents(rs, U32_MAX, {0, 1}) && FreeFrom(rs, 0, 0) == [Range(2, 0)] && !Disjoint(FreeFrom(rs, 0, 0))
    ensures var rs := [Range(0, U32_MAX - 1)];
            && Represents(rs, U32_MAX, {U32_MAX}) && FreeFrom(rs, U32_MAX, 0) == [Range(U32_MAX, U32_MAX - 1)]
            && !Disjoint(FreeFrom(rs, U32_MAX, 0))
  {
    OneRange(2, U32_MAX, {0, 1});
    OneRange(0, U32_MAX - 1, {U32_MAX});
    var rs := [Range(0, U32_MAX - 1)];
    assert rs[..0] + rs[1..] == [];
    assert Place([], U32_MAX) == 0;
    assert [][..0] + [Range(U32_MAX, U32_MAX - 1)] + [][0..] == [Range(U32_MAX, U32_MAX - 1)];
    BadEntry([Range(2, 0)], Range(2, 0));
    BadEntry([Range(U32_MAX, U32_MAX - 1)], Range(U32_MAX, U32_MAX - 1));
  }

  lemma OneRange(lo: u32, hi: u32, used: set<u32>)
    requires lo <= hi && forall x: u32 :: lo <= x <= hi <==> x !in used
    ensures Represents([Range(lo, hi)], U32_MAX, used)
  {
    forall id: int
      ensures Has([Range(lo, hi)], id) <==> lo <= id <= hi
    {
      if lo <= id <= hi {
        HasElement([Range(lo, hi)], 0, id);
      }
    }
  }

  lemma NeverWraps(rs: seq<Range>, max: u32, used: set<u32>, id: u32)
    requires Represents(rs, max, used) && id <= max < U32_MAX
    ensures !Wraps(rs, id)
  {
    if rs != [] {
      HasElement(rs, |rs| - 1, rs[|rs| - 1].hi);
    }
  }

  // ----- alloc -----

  function AllocFrom(rs: seq<Range>): seq<Range>
    requires rs != []
  {
    if rs[0].lo < rs[0].hi then SetEntry(rs, Range(rs[0].lo + 1, rs[0].hi))[1..] else rs[1..]
  }

  // An entry in front of others.
  lemma InFront(r: Range, b: seq<Range>)
    ensures Size([r] + b) == Size(b) + r.hi - r.lo + 1
    ensures forall x: int :: Has([r] + b, x) <==> Has(b, x) || r.lo <= x <= r.hi
    ensures Disjoint([r] + b) <==> Disjoint(b) && r.lo <= r.hi && (b != [] ==> r.hi < b[0].lo)
  {
    hide Has, Size, Disjoint;
    Three([], r, b);
    NoneAtAll();
    assert [] + [r] + b == [r] + b;
  }

  lemma NoneAtAll()
    ensures Size([]) == 0 && Disjoint([]) && forall x: int :: !Has([], x)
  {
  }

  // The first entry loses its first id.
  lemma AllocHas(rs: seq<Range>)
    requires Disjoint(rs) && rs != []
    ensures Disjoint(AllocFrom(rs)) && Size(AllocFrom(rs)) == Size(rs) - 1
    ensures forall x: int :: Has(AllocFrom(rs), x) <==> Has(rs, x) && x != rs[0].lo
  {
    hide Has, Size, Disjoint, SetEntry;
    var b := rs[1..];
    assert rs == [rs[0]] + b;
    InFront(rs[0], b);
    LeastHas(rs);
    if rs[0].lo < rs[0].hi {
      var r := Range(rs[0].lo + 1, rs[0].hi);
      SetSecond(rs, r);
      InFront(r, b);
    }
  }

  lemma SetSecond(rs: seq<Range>, r: Range)
    requires Disjoint(rs) && rs != [] && rs[0].lo < rs[0].hi && r.lo == rs[0].lo + 1
    ensures SetEntry(rs, r)[1..] == [r] + rs[1..]
  {
  }

  /** `alloc` takes the least free id. */
  lemma AllocWorks(rs: seq<Range>, max: u32, used: set<u32>)
    requires Represents(rs, max, used) && rs != []
    ensures var id := rs[0].lo;
            && id <= max && id !in used && (forall x: u32 :: x < id ==> x in used)
            && Represents(AllocFrom(rs), max, used + {id}) && Size(AllocFrom(rs)) == Size(rs) - 1
  {
    hide AllocFrom, Size;
    var id := rs[0].lo;
    HasElement(rs, 0, id);
    LeastHas(rs);
    AllocHas(rs);
  }

  lemma NothingFree(max: u32, used: set<u32>)
    requires Represents([], max, used)
    ensures forall x: u32 :: x <= max ==> x in used
  {
  }

  lemma LeastHas(rs: seq<Range>)
    requires Disjoint(rs) && rs != []
    ensures forall x: int :: Has(rs, x) ==> rs[0].lo <= x
    ensures forall x: int :: Has(rs[1..], x) ==> rs[0].hi < x
  {
  }

  /** Ids up to `max`; `used` are those handed out. */
  class IdAllocator {
    const max: u32
    var free: seq<Range>
    var numAlloc: nat
    ghost var used: set<u32>

    ghost predicate Valid()
      reads this
    {
      && Represents(free, max, used) && (forall id :: id in used ==> id <= max)
      && numAlloc == |used| && numAlloc + Size(free) == max + 1
    }

    constructor (max: u32)
      ensures Valid() && this.max == max && used == {}
    {
      this.max, free, numAlloc, used := max, [Range(0, max)], 0, {};
      new;
      One(Range(0, max));
    }

    /** Hands out the least id that is not in use; fails only if all are. */
    method Alloc() returns (ok: bool, id: u32)
      requires Valid()
      modifies this
      ensures Valid()
      ensures ok == (exists x: u32 :: x <= max && x !in old(used))
      ensures ok ==> id <= max && id !in old(used) && forall x: u32 :: x < id ==> x in old(used)
      ensures used == if ok then old(used) + {id} else old(used)
    {
      hide Represents, Size, Has;
      if |free| < 1 {
        NothingFree(max, used);
        return false, 0;
      }
      AllocWorks(free, max, used);
      ok, id := true, free[0].lo;
      var entries := free;
      if free[0].lo < free[0].hi {
        entries := SetEntry(entries, Range(id + 1, free[0].hi));
      }
      free := entries[1..];
      numAlloc := numAlloc + 1;
      used := used + {id};
    }

    /** Takes an id back. With fewer than 2^32 ids nothing wraps. */
    method Free(id: u32)
      requires Valid() && id in used
      modifies this
      ensures used == old(used) - {id}
      ensures Valid() <==> !old(Wraps(free, id))
      ensures max < U32_MAX ==> Valid()
    {
      hide Represents, Size, SetEntry, Wraps;
      FreeIff(free, max, used, id);
      if max < U32_MAX {
        NeverWraps(free, max, used, id);
      }
      ghost var was := free;
      used := used - {id};
      numAlloc := numAlloc - 1;
      var i := 0;
      while i < |free|
        invariant i <= |free| && free == was && FreeFrom(was, id, i) == FreeFrom(was, id, 0)
      {
        if free[i].lo == (id + 1) % 0x1_0000_0000 {
          free := SetEntry(free[..i] + free[i + 1..], Range(id, free[i].hi));
          return;
        } else if free[i].hi == (id - 1) % 0x1_0000_0000 {
          free := free[i := Range(free[i].lo, id)];
          return;
        }
        i := i + 1;
      }
      free := SetEntry(free, Range(id, id));
    }
  }
}
