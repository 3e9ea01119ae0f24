/** One page after another through a ring of whole pages: the page at the tail is
    filled, announced by a message, and then queued for the card. */
module PageRing {
  import opened Bytes
  import opened Channel
  import opened Circular
  import opened RingBuffer

  ghost predicate RingReady(ring: Ring)
    reads ring
  {
    ring.Valid() && !ring.locked && ring.unit == PAGE_SIZE
  }

  /** A page may be written at `off`: it lies behind all bytes still queued. */
  ghost predicate PageAt(ring: Ring, off: nat)
    reads ring
  {
    && ring.Valid() && ring.locked && ring.unit == PAGE_SIZE
    && off == ring.tail && off + PAGE_SIZE <= ring.buf.Length && PAGE_SIZE <= ring.FreeBytes()
  }

  /** From `was` to `now` nothing outside the page at `off` has changed. */
  ghost predicate OnlyPage(was: seq<byte>, now: seq<byte>, off: nat) {
    && |now| == |was| && off + PAGE_SIZE <= |was|
    && now[..off] == was[..off] && now[off + PAGE_SIZE..] == was[off + PAGE_SIZE..]
  }

  lemma SpliceWithin<T>(was: seq<T>, now: seq<T>, from: nat, to: nat, p: nat, bs: seq<T>)
    requires from <= p && p + |bs| <= to <= |was| && now == Splice(was, p, bs)
    ensures now[..from] == was[..from] && now[to..] == was[to..]
  {
  }

  lemma NothingStored(was: seq<byte>, off: nat)
    requires off + PAGE_SIZE <= |was|
    ensures OnlyPage(was, was, off)
  {
  }

  lemma StoredOnPage(was: seq<byte>, now: seq<byte>, off: nat, p: nat, bs: seq<byte>)
    requires off <= p && p + |bs| <= off + PAGE_SIZE <= |was| && now == Splice(was, p, bs)
    ensures OnlyPage(was, now, off)
  {
    SpliceWithin(was, now, off, off + PAGE_SIZE, p, bs);
  }

  lemma OnlyPageTwice(a: seq<byte>, b: seq<byte>, c: seq<byte>, off: nat)
    ensures OnlyPage(a, b, off) && OnlyPage(b, c, off) ==> OnlyPage(a, c, off)
  {
  }

  lemma Within<T>(s: seq<T>, off: nat, n: nat, m: nat)
    requires m <= n && off + n <= |s|
    ensures s[off..off + n][..m] == s[off..off + m]
  {
  }

  /** A free page is always contiguous, so the code's case for a shorter piece
      cannot occur. The card may consume queued bytes meanwhile. */
  method LockPage(ring: Ring) returns (ok: bool, off: nat, ghost consumed: nat)
    requires RingReady(ring)
    modifies ring
    ensures if ok then PageAt(ring, off) else RingReady(ring)
    ensures ok == !ring.invalid && (old(ring.invalid) ==> ring.invalid)
    ensures consumed <= |old(ring.Contents())| && ring.Contents() == old(ring.Contents())[consumed..]
  {
    var cont;
    ok, off, cont, consumed := ring.LockFreeSpace(PAGE_SIZE, false);
    assert ok ==> cont == PAGE_SIZE;
  }

  lemma QueueKept(was: seq<byte>, now: seq<byte>, head: nat, n: nat, off: nat)
    requires OnlyPage(was, now, off) && head < |was| && n + PAGE_SIZE <= |was| && off == Wrap(head + n, |was|)
    ensures Around(now, head, n) == Around(was, head, n)
  {
    forall k | 0 <= k < n
      ensures Around(now, head, n)[k] == Around(was, head, n)[k]
    {
      var p := Wrap(head + k, |was|);
      assert p < off || p >= off + PAGE_SIZE;
      assert p < off ==> now[..off][p] == was[..off][p];
      assert p >= off + PAGE_SIZE ==> now[off + PAGE_SIZE..][p - off - PAGE_SIZE] == was[off + PAGE_SIZE..][p - off - PAGE_SIZE];
    }
  }

  /** Filling the page leaves the queue as it is. */
  lemma FillKeepsQueue(ring: Ring, was: seq<byte>, off: nat)
    requires PageAt(ring, off) && OnlyPage(was, ring.buf[..], off)
    ensures ring.Contents() == Around(was, ring.head, ring.AvailBytes())
  {
    QueueKept(was, ring.buf[..], ring.head, ring.AvailBytes(), off);
  }

  /** The page is queued if and only if the message was accepted. */
  method Announce<M>(chan: Chan<M>, ring: Ring, off: nat, msg: M) returns (ok: bool)
    requires PageAt(ring, off)
    modifies chan, ring
    ensures RingReady(ring)
    ensures chan.log == old(chan.log) + if ok then [msg] else []
    ensures chan.failures == old(chan.failures) + (if ok then 0 else 1) && chan.refusals == old(chan.refusals)
    ensures ring.invalid == old(ring.invalid)
    ensures ring.Contents() == old(ring.Contents()) + if ok then ring.buf[off..off + PAGE_SIZE] else []
  {
    ok := chan.Write(msg);
    AroundPieces(ring.buf[..], off, PAGE_SIZE);
    AroundPieces(ring.buf[..], off, 0);
    assert ring.buf[..][off..off + PAGE_SIZE] == ring.buf[off..off + PAGE_SIZE];
    ring.UnlockFreeSpace(if ok then PAGE_SIZE else 0);
  }
}
