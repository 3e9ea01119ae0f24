/** Fixed-width integers, byte strings and little-endian encoding.

    Every integer field of the driver is given its own width, so that each
    increment or narrowing in the model carries the obligation not to wrap. */
module Bytes {
  type byte = x: int | 0 <= x < 0x100
  type u8 = x: int | 0 <= x < 0x100
  type u16 = x: int | 0 <= x < 0x1_0000
  type u32 = x: int | 0 <= x < 0x1_0000_0000
  type u64 = x: int | 0 <= x < 0x1_0000_0000_0000_0000

  const PAGE_SIZE: nat := 4096
  const U16_MAX: nat := 0xffff
  const TWO_64: nat := 0x1_0000_0000_0000_0000

  function Min(a: int, b: int): int {
    if a <= b then a else b
  }

  function Bit(b: bool): byte {
    if b then 1 else 0
  }

  function U16(x: u16): (s: seq<byte>)
    ensures |s| == 2
  {
    [x % 0x100, x / 0x100]
  }

  function U32(x: u32): (s: seq<byte>)
    ensures |s| == 4
  {
    U16(x % 0x1_0000) + U16(x / 0x1_0000)
  }

  function U64(x: u64): (s: seq<byte>)
    ensures |s| == 8
  {
    U32(x % 0x1_0000_0000) + U32(x / 0x1_0000_0000)
  }

  // The readers look only at the first bytes of `s`.
  function GetU16(s: seq<byte>): u16
    requires |s| >= 2
  {
    var lo: int, hi: int := s[0], s[1];
    lo + 0x100 * hi
  }

  function GetU32(s: seq<byte>): u32
    requires |s| >= 4
  {
    GetU16(s) + 0x1_0000 * GetU16(s[2..])
  }

  function GetU64(s: seq<byte>): u64
    requires |s| >= 8
  {
    GetU32(s) + 0x1_0000_0000 * GetU32(s[4..])
  }

  /** The number that bytes stand for, the lowest first. */
  function Little(s: seq<byte>): nat {
    if s == [] then 0 else s[0] + 0x100 * Little(s[1..])
  }

  lemma Little2(s: seq<byte>)
    requires |s| == 2
    ensures Little(s) == s[0] as int + 0x100 * (s[1] as int)
  {
    assert Little(s[1..]) == s[1];
  }

  // Two bytes more stand for 2^16 times as much each.
  lemma LittleAfter2(a: seq<byte>, b: seq<byte>)
    requires |a| == 2
    ensures Little(a + b) == Little(a) + 0x1_0000 * Little(b)
  {
    assert (a + b)[1..][1..] == b;
    assert (a + b)[1..][0] == a[1];
    Little2(a);
  }

  lemma LittleEndian16(x: u16)
    ensures Little(U16(x)) == x
  {
    Little2(U16(x));
  }

  lemma LittleEndian32(x: u32)
    ensures Little(U32(x)) == x
  {
    hide U16, Little;
    LittleAfter2(U16(x % 0x1_0000), U16(x / 0x1_0000));
    LittleEndian16(x % 0x1_0000);
    LittleEndian16(x / 0x1_0000);
  }

  lemma LittleEndian64(x: u64)
    ensures Little(U64(x)) == x
  {
    hide U16, Little;
    var lo, hi := x % 0x1_0000_0000, x / 0x1_0000_0000;
    var a, b := U16(lo % 0x1_0000), U16(lo / 0x1_0000);
    LittleAfter2(b, U32(hi));
    LittleAfter2(a, b + U32(hi));
    assert U64(x) == a + (b + U32(hi));
    LittleEndian16(lo % 0x1_0000);
    LittleEndian16(lo / 0x1_0000);
    LittleEndian32(hi);
  }

  lemma U32RoundTrip(x: u32, rest: seq<byte>)
    ensures GetU32(U32(x) + rest) == x
  {
  }

  /** `s` with the bytes from position `p` on overwritten by `bs`. */
  function Splice<T>(s: seq<T>, p: nat, bs: seq<T>): (r: seq<T>)
    requires p + |bs| <= |s|
    ensures |r| == |s|
  {
    s[..p] + bs + s[p + |bs|..]
  }

  lemma SpliceNothing<T>(s: seq<T>, p: nat)
    requires p <= |s|
    ensures Splice(s, p, []) == s
  {
  }

  lemma SpliceAppend<T>(s: seq<T>, p: nat, a: seq<T>, b: seq<T>)
    requires p + |a| + |b| <= |s|
    ensures Splice(Splice(s, p, a), p + |a|, b) == Splice(s, p, a + b)
  {
  }

  lemma Reassociate<T>(a: seq<T>, b: seq<T>, c: seq<T>)
    ensures a + (b + c) == a + b + c
  {
  }

  lemma FrontOfSum<T>(a: seq<T>, b: seq<T>, n: nat)
    requires |a| <= n <= |a| + |b|
    ensures (a + b)[..|a|] == a && (a + b)[..n] == a + b[..n - |a|]
  {
  }

  /** The last `n` elements. */
  function Last<T>(s: seq<T>, n: nat): (r: seq<T>)
    requires n <= |s|
    ensures |r| == n
  {
    s[|s| - n..]
  }

  lemma LastThenAppend<T>(a: seq<T>, b: seq<T>, n: nat, m: nat)
    requires m <= n <= |a|
    ensures Last(a, n)[m..] + b == Last(a + b, n - m + |b|)
  {
  }

  lemma DropThenAppend<T>(a: seq<T>, b: seq<T>, n: nat, m: nat)
    requires n + m <= |a|
    ensures a[n..][m..] + b == (a + b)[n + m..]
  {
  }

  /** memcpy of `bs` to offset `p` of a buffer. */
  method Store<T>(buf: array<T>, p: nat, bs: seq<T>)
    requires p + |bs| <= buf.Length
    modifies buf
    ensures buf[..] == Splice(old(buf[..]), p, bs)
  {
    for i := 0 to |bs|
      invariant forall k :: 0 <= k < buf.Length ==>
        buf[k] == if p <= k < p + i then bs[k - p] else old(buf[k])
    {
      buf[p + i] := bs[i];
    }
  }

  /** A typed store through a moving pointer: `ptr += |bs|`. */
  method Put(buf: array<byte>, p: nat, bs: seq<byte>, ghost base: seq<byte>, ghost start: nat, ghost done: seq<byte>)
    returns (q: nat, ghost done': seq<byte>)
    requires p + |bs| <= buf.Length == |base|
    requires p == start + |done|
    requires buf[..] == Splice(base, start, done)
    modifies buf
    ensures q == p + |bs| && done' == done + bs && q == start + |done'|
    ensures buf[..] == Splice(base, start, done')
  {
    Store(buf, p, bs);
    SpliceAppend(base, start, done, bs);
    q := p + |bs|;
    done' := done + bs;
  }

  function Flatten<T>(ss: seq<seq<T>>): seq<T> {
    if ss == [] then [] else Flatten(ss[..|ss| - 1]) + ss[|ss| - 1]
  }

  lemma FlattenSnoc<T>(ss: seq<seq<T>>, s: seq<T>)
    ensures Flatten(ss + [s]) == Flatten(ss) + s
  {
  }

  /** The concatenation of `f` over `ts`. */
  function ConcatMap<T, U>(f: T -> seq<U>, ts: seq<T>): seq<U> {
    if ts == [] then [] else ConcatMap(f, ts[..|ts| - 1]) + f(ts[|ts| - 1])
  }

  lemma ConcatMapSnoc<T, U>(f: T -> seq<U>, ts: seq<T>, t: T)
    ensures ConcatMap(f, ts + [t]) == ConcatMap(f, ts) + f(t)
  {
  }

  lemma {:induction false} ConcatMapConcat<T, U>(f: T -> seq<U>, a: seq<T>, b: seq<T>)
    ensures ConcatMap(f, a + b) == ConcatMap(f, a) + ConcatMap(f, b)
  {
    if b == [] {
      assert a + b == a;
    } else {
      hide ConcatMap;
      var n := |b| - 1;
      ConcatMapConcat(f, a, b[..n]);
      assert b == b[..n] + [b[n]];
      Reassociate(a, b[..n], [b[n]]);
      ConcatMapSnoc(f, a + b[..n], b[n]);
      ConcatMapSnoc(f, b[..n], b[n]);
      Reassociate(ConcatMap(f, a), ConcatMap(f, b[..n]), f(b[n]));
    }
  }

  lemma ConcatMapCons<T, U>(f: T -> seq<U>, t: T, ts: seq<T>)
    ensures ConcatMap(f, [t] + ts) == f(t) + ConcatMap(f, ts)
  {
    ConcatMapConcat(f, [t], ts);
    assert ConcatMap(f, [t]) == ConcatMap(f, []) + f(t) by {
      assert [t][..0] == [];
    }
  }
}
