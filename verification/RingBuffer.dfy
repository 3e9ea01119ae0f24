/** Circular reading and writing of a sequence, and whole numbers of units. */
module Circular {
  import opened Bytes

  function Wrap(p: nat, size: nat): nat {
    if p < size then p else p - size
  }

  /** The `n` elements of `s` from position `start`, going round the end. */
  function Around<T>(s: seq<T>, start: nat, n: nat): (w: seq<T>)
    requires start < |s| && n <= |s|
    ensures |w| == n
    ensures forall k :: 0 <= k < n ==> w[k] == s[Wrap(start + k, |s|)]
  {
    seq(n, k requires 0 <= k < n => s[Wrap(start + k, |s|)])
  }

  /** `s` with `bs` written from position `start`, going round the end. */
  function SpliceAround<T>(s: seq<T>, start: nat, bs: seq<T>): (r: seq<T>)
    requires start < |s| && |bs| <= |s|
    ensures |r| == |s|
  {
    var cont := Min(|bs|, |s| - start);
    Splice(Splice(s, start, bs[..cont]), 0, bs[cont..])
  }

  lemma AroundSplit<T>(s: seq<T>, start: nat, a: nat, b: nat)
    requires start < |s| && a + b <= |s|
    ensures Around(s, start, a + b) == Around(s, start, a) + Around(s, Wrap(start + a, |s|), b)
  {
  }

  lemma AroundNothing<T>(s: seq<T>, start: nat)
    requires start < |s|
    ensures Around(s, start, 0) == []
  {
  }

  // What is written is read back, and `n` elements before it stay.
  lemma SpliceAroundReads<T>(s: seq<T>, start: nat, n: nat, bs: seq<T>)
    requires start < |s| && n + |bs| <= |s|
    ensures var r := SpliceAround(s, Wrap(start + n, |s|), bs);
            Around(r, start, n) == Around(s, start, n) && Around(r, Wrap(start + n, |s|), |bs|) == bs
  {
  }

  // The contiguous pieces of a circular read.
  lemma AroundPieces<T>(s: seq<T>, start: nat, n: nat)
    requires start < |s| && n <= |s|
    ensures var c := Min(n, |s| - start);
            Around(s, start, n) == s[start..start + c] + s[..n - c]
  {
  }

  /** `n` is a whole number of units. */
  predicate Whole(n: nat, unit: nat)
    requires 0 < unit
  {
    if n < unit then n == 0 else Whole(n - unit, unit)
  }

  lemma {:induction false} WholeSum(a: nat, b: nat, unit: nat)
    requires 0 < unit && Whole(a, unit) && Whole(b, unit)
    ensures Whole(a + b, unit)
  {
    if a >= unit {
      WholeSum(a - unit, b, unit);
    }
  }

  lemma {:induction false} WholeDifference(a: nat, b: nat, unit: nat)
    requires 0 < unit && b <= a && Whole(a, unit) && Whole(b, unit)
    ensures Whole(a - b, unit)
  {
    if b >= unit {
      WholeDifference(a - unit, b - unit, unit);
    }
  }

  lemma NothingWhole(n: nat, unit: nat)
    requires 0 < unit
    ensures Whole(0, unit) && Whole(unit, unit)
    ensures Whole(n, unit) && n > 0 ==> n >= unit
  {
  }

  lemma WholeWrap(pos: nat, n: nat, size: nat, unit: nat)
    requires 0 < unit && Whole(size, unit) && Whole(pos, unit) && Whole(n, unit)
    ensures Whole(Wrap(pos + n, size), unit)
  {
    WholeSum(pos, n, unit);
    if pos + n >= size {
      WholeDifference(pos + n, size, unit);
    }
  }

  // The code's remainder is one wrap.
  lemma ModIsWrap(p: nat, size: nat)
    requires p < 2 * size
    ensures p % size == Wrap(p, size)
  {
  }
}

/** The byte ring shared with the card (nnpiRingBuffer).

    A ring is moved in multiples of `unit`: 1 for a plain byte FIFO, and one
    page for the command and response rings, whose size is two pages. Waiting on
    the condition variable is an arbitrary amount of progress by the other side
    until the guard holds; `locked` is the ring's mutex. */
module RingBuffer {
  import opened Bytes
  import opened Circular

  class Ring {
    const size: nat
    const unit: nat
    const buf: array<byte>
    var head: nat
    var tail: nat
    var isFull: bool
    var invalid: bool
    var locked: bool

    ghost predicate Valid()
      reads this
    {
      && 0 < unit <= size && Whole(size, unit)
      && buf.Length == size
      && head < size && Whole(head, unit)
      && tail < size && Whole(tail, unit)
      && (isFull ==> head == tail)
    }

    constructor (size: nat, unit: nat)
      requires 0 < unit <= size && Whole(size, unit)
      ensures Valid() && fresh(buf) && this.size == size && this.unit == unit
      ensures Contents() == [] && !invalid && !locked
    {
      this.size, this.unit := size, unit;
      buf := new byte[size];
      head, tail := 0, 0;
      isFull, invalid, locked := false, false, false;
    }

    function FreeBytes(): (n: nat)
      requires Valid()
      reads this
      ensures n + AvailBytes() == size
    {
      if isFull then 0
      else if tail >= head then head + size - tail
      else head - tail
    }

    function AvailBytes(): (n: nat)
      requires Valid()
      reads this
      ensures tail == Wrap(head + n, size)
    {
      if isFull then size
      else if head > tail then tail + size - head
      else tail - head
    }

    /** The queue this ring stands for, oldest byte first. */
    ghost function Contents(): (s: seq<byte>)
      requires Valid()
      reads this, buf
      ensures |s| == AvailBytes()
    {
      Around(buf[..], head, AvailBytes())
    }

    lemma WholeBytes()
      requires Valid()
      ensures Whole(AvailBytes(), unit) && Whole(FreeBytes(), unit)
    {
      if isFull {
      } else if head > tail {
        WholeSum(tail, size, unit);
        WholeDifference(tail + size, head, unit);
      } else {
        WholeDifference(tail, head, unit);
      }
      WholeDifference(size, AvailBytes(), unit);
    }

    method Advance(p: nat, n: nat) returns (q: nat)
      requires p < size && n <= size
      ensures q == Wrap(p + n, size) < size
    {
      ModIsWrap(p + n, size);
      q := (p + n) % size;
    }

    method MoveHead(n: nat)
      requires Valid() && n <= AvailBytes() && Whole(n, unit)
      modifies this`head, this`isFull
      ensures Valid() && Contents() == old(Contents())[n..]
      ensures FreeBytes() == old(FreeBytes()) + n
    {
      hide Around, Whole;
      if n > 0 {
        WholeWrap(head, n, size, unit);
        AroundSplit(buf[..], head, n, AvailBytes() - n);
        head := Advance(head, n);
        isFull := false;
      }
    }

    method MoveTail(n: nat)
      requires Valid() && n <= FreeBytes() && Whole(n, unit)
      modifies this`tail, this`isFull
      ensures Valid() && AvailBytes() == old(AvailBytes()) + n
      ensures Contents() == old(Contents()) + Around(buf[..], old(tail), n)
    {
      hide Around, Whole;
      AroundSplit(buf[..], head, AvailBytes(), n);
      AroundNothing(buf[..], tail);
      if n > 0 {
        WholeWrap(tail, n, size, unit);
        tail := Advance(tail, n);
        if tail == head {
          isFull := true;
        }
      }
    }

    /** The card reports that it has consumed `n` bytes. */
    method UpdateHead(n: nat)
      requires Valid() && !locked && n <= AvailBytes() && Whole(n, unit)
      modifies this`head, this`isFull
      ensures Valid() && Contents() == old(Contents())[n..]
    {
      MoveHead(n);
    }

    /** The card has written `bs` behind the tail of a response ring. */
    method Produce(bs: seq<byte>)
      requires Valid() && !locked && |bs| <= FreeBytes() && Whole(|bs|, unit)
      modifies this`tail, this`isFull, buf
      ensures Valid() && Contents() == old(Contents()) + bs
    {
      StoreAround(bs);
      MoveTail(|bs|);
    }

    // Both memcpys of `push`: up to the end of the buffer, then from its start.
    method StoreAround(bs: seq<byte>)
      requires Valid() && |bs| <= FreeBytes()
      modifies buf
      ensures Contents() == old(Contents()) && Around(buf[..], tail, |bs|) == bs
    {
      hide Around, Splice;
      ghost var was := buf[..];
      var cont := Min(|bs|, size - tail);
      Store(buf, tail, bs[..cont]);
      if cont < |bs| {
        Store(buf, 0, bs[cont..]);
      } else {
        assert bs[cont..] == [];
        SpliceNothing(buf[..], 0);
      }
      assert buf[..] == SpliceAround(was, tail, bs);
      SpliceAroundReads(was, head, AvailBytes(), bs);
    }

    /** Waits until `n` bytes are free (the card may consume any number of
        units meanwhile), the channel dies or a limit of the wait is reached. On
        success the mutex is held and `cont` of the requested bytes start at
        offset `off`. When exactly one unit is requested it is always contiguous. */
    method LockFreeSpace(n: nat, timed: bool) returns (ok: bool, off: nat, cont: nat, ghost consumed: nat)
      requires Valid() && !locked && n <= size
      modifies this`head, this`isFull, this`invalid, this`locked
      ensures Valid() && locked == ok && (old(invalid) ==> invalid)
      ensures ok <==> !invalid && n <= FreeBytes()
      ensures n <= FreeBytes() || invalid || timed
      ensures consumed <= old(AvailBytes()) && Contents() == old(Contents())[consumed..]
      ensures ok ==> off == tail && n <= FreeBytes() && cont == Min(n, size - tail)
      ensures ok && n == unit ==> cont == n && off + n <= size
      ensures !ok ==> cont == 0
    {
      hide Around, Whole;
      if * {
        invalid := true;
      }
      WholeBytes();
      NothingWhole(size - tail, unit);
      var k: nat :| k <= AvailBytes() && Whole(k, unit) && (n <= FreeBytes() + k || invalid || timed);
      consumed := k;
      MoveHead(k);
      if invalid || FreeBytes() < n {
        return false, 0, 0, consumed;
      }
      locked := true;
      ok, off, cont := true, tail, Min(n, size - tail);
      WholeDifference(size, tail, unit);
    }

    method UnlockFreeSpace(n: nat)
      requires Valid() && locked && n <= FreeBytes() && Whole(n, unit)
      modifies this`tail, this`isFull, this`locked
      ensures Valid() && !locked
      ensures Contents() == old(Contents()) + Around(buf[..], old(tail), n)
    {
      MoveTail(n);
      locked := false;
    }

    /** Waits until `min` bytes are there or a limit of the wait is reached; the card may write any bytes `more`
        meanwhile. `cont` is cut at the end of the buffer, but not at `min`. */
    method LockAvailSpace(min: nat, timed: bool) returns (ok: bool, off: nat, avail: nat, cont: nat, ghost more: seq<byte>)
      requires Valid() && !locked && min <= size && Whole(min, unit)
      modifies this`tail, this`isFull, this`locked, buf
      ensures Valid() && locked == ok
      ensures ok <==> min <= AvailBytes()
      ensures ok || timed
      ensures Contents() == old(Contents()) + more
      ensures off == head && avail == AvailBytes() && cont == Min(avail, size - head)
    {
      hide Around, Whole;
      WholeBytes();
      NothingWhole(0, unit);
      var wanted: nat := 0;
      if AvailBytes() < min {
        WholeDifference(min, AvailBytes(), unit);
        wanted := min - AvailBytes();
      }
      ghost var enough: seq<byte> := seq(wanted, _ => 0);
      assert wanted <= |enough| <= FreeBytes() && Whole(|enough|, unit);
      var bs: seq<byte> :| (wanted <= |bs| || timed) && |bs| <= FreeBytes() && Whole(|bs|, unit);
      more := bs;
      Produce(bs);
      ok := AvailBytes() >= min;
      locked := ok;
      off, avail, cont := head, AvailBytes(), Min(AvailBytes(), size - head);
    }

    // With n == 0 the code returns without releasing the mutex.
    method UnlockAvailSpace(n: nat)
      requires Valid() && locked && n <= AvailBytes() && Whole(n, unit)
      modifies this`head, this`isFull, this`locked
      ensures Valid() && locked == (n == 0)
      ensures Contents() == old(Contents())[n..]
    {
      MoveHead(n);
      if n > 0 {
        locked := false;
      }
    }

    /** Appends `bs`, unless the ring dies while waiting for room. */
    method Push(bs: seq<byte>) returns (ok: bool, ghost consumed: nat)
      requires Valid() && !locked && |bs| <= size && Whole(|bs|, unit)
      modifies this, buf
      ensures Valid() && !locked && consumed <= old(AvailBytes()) && ok == !invalid && (old(invalid) ==> invalid)
      ensures Contents() == old(Contents())[consumed..] + if ok then bs else []
    {
      var off, cont;
      ok, off, cont, consumed := LockFreeSpace(|bs|, false);
      if ok {
        StoreAround(bs);
        UnlockFreeSpace(|bs|);
      }
    }

    // Both memcpys of `pop`. The first is not cut at `n`.
    method CopyFront(dst: array<byte>, n: nat, cont: nat) returns (ghost stored: nat)
      requires Valid() && n <= AvailBytes() && cont == Min(AvailBytes(), size - head)
      requires dst != buf && dst.Length >= size
      modifies dst
      ensures stored == Max(n, cont) <= AvailBytes()
      ensures dst[..] == Splice(old(dst[..]), 0, Contents()[..stored])
    {
      hide Around, Splice, Contents;
      ghost var was := dst[..];
      FrontPieces(n, cont);
      Store(dst, 0, buf[head..head + cont]);
      stored := cont;
      if cont < n {
        SpliceAppend(was, 0, buf[head..head + cont], buf[..n - cont]);
        Store(dst, cont, buf[..n - cont]);
        stored := n;
      }
    }

    // The front of the queue, up to `n` bytes or to the end of the buffer.
    lemma FrontPieces(n: nat, cont: nat)
      requires Valid() && n <= AvailBytes() && cont == Min(AvailBytes(), size - head)
      ensures Contents()[..cont] == buf[head..head + cont]
      ensures n > cont ==> Contents()[..n] == buf[head..head + cont] + buf[..n - cont]
    {
      hide Around;
      var all := buf[..];
      AroundPieces(all, head, AvailBytes());
      var first, rest := all[head..head + cont], all[..AvailBytes() - cont];
      assert first == buf[head..head + cont];
      FrontOfSum(first, rest, Max(n, cont));
      if n > cont {
        assert buf[..n - cont] == rest[..n - cont];
      }
    }

    /** Takes `n` bytes off the front into `dst`. All contiguous available bytes
        are stored there, so `dst` needs room for them and is overwritten past
        `n` exactly when they are more than `n`. For no bytes the ring stays
        locked. */
    method Pop(dst: array<byte>, n: nat) returns (ghost queue: seq<byte>, ghost stored: nat)
      requires Valid() && !locked && n <= size && Whole(n, unit)
      requires dst != buf && dst.Length >= size
      modifies this, buf, dst
      ensures Valid() && locked == (n == 0)
      ensures old(Contents()) <= queue && n <= |queue| <= size
      ensures stored == Max(n, Min(|queue|, size - old(head)))
      ensures dst[..] == Splice(old(dst[..]), 0, queue[..stored])
      ensures Contents() == queue[n..]
    {
      var ok, off, avail, cont;
      ghost var more;
      ok, off, avail, cont, more := LockAvailSpace(n, false);
      queue := Contents();
      stored := CopyFront(dst, n, cont);
      UnlockAvailSpace(n);
    }
  }

  function Max(a: int, b: int): int {
    if a >= b then a else b
  }
}
