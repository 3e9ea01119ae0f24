/** Sync-point markers: 16-bit sequence numbers with a wrap flag, compared across
    the wrap (SyncPoint and the marker operations of nnpiInfContext). */
module SyncPoints {
  import opened Bytes
  import opened Channel

  /** The marker that stands for the unbounded sequence number `n`. */
  datatype Point = Point(val: u16, wrap: bool) {
    function Marker(): (m: nat) {
      if wrap then val + 0x1_0000 else val
    }
  }

  const MARKERS: nat := 0x2_0000

  function At(n: nat): Point {
    Point(n % 0x1_0000, (n / 0x1_0000) % 2 == 1)
  }

  predicate Less(a: Point, b: Point) {
    if a.wrap == b.wrap then a.val < b.val else a.val > b.val
  }

  function OfMarker(marker: u32): Point {
    Point(marker % 0x1_0000, (marker / 0x1_0000) % 2 == 1)
  }

  function Inc(p: Point): Point {
    var val := (p.val + 1) % 0x1_0000;
    Point(val, if val == 0 then !p.wrap else p.wrap)
  }

  function Set(p: Point, val: u16): Point {
    Point(val, if val < p.val then !p.wrap else p.wrap)
  }

  lemma MarkerOfAt(n: nat)
    ensures At(n).Marker() == n % MARKERS && OfMarker(n % MARKERS) == At(n)
  {
  }

  /** A point is smaller when the other is 1 to 65535 ahead of it, going round
      all 2^17 markers. */
  lemma LessIff(a: Point, b: Point)
    ensures Less(a, b) <==> 1 <= (b.Marker() - a.Marker()) % MARKERS <= 0xffff
  {
  }

  lemma IncIsNext(n: nat)
    ensures Inc(At(n)) == At(n + 1)
  {
  }

  lemma SetOfMarkers(a: Point, b: Point)
    ensures Set(a, b.val) == b <==> (b.Marker() - a.Marker()) % MARKERS <= 0xffff
  {
  }

  /** A completion is taken for the right number exactly when it is 0 to 65535
      ahead, going round the markers. */
  lemma SetIff(n: nat, m: nat)
    requires n <= m
    ensures Set(At(n), At(m).val) == At(m) <==> (m - n) % MARKERS <= 0xffff
  {
    hide At, Set;
    SetOfMarkers(At(n), At(m));
    MarkerOfAt(n);
    MarkerOfAt(m);
    ModDifference(m, n);
  }

  /** The comparison against unbounded numbers. */
  lemma LessOfNumbers(done: nat, m: nat)
    ensures Less(At(done), At(m)) <==> 1 <= (m - done) % MARKERS <= 0xffff
  {
    LessIff(At(done), At(m));
    MarkerOfAt(done);
    MarkerOfAt(m);
    ModDifference(m, done);
  }

  lemma ModDifference(m: nat, done: nat)
    ensures (m % MARKERS - done % MARKERS) % MARKERS == (m - done) % MARKERS
  {
  }

  /** The comparison says whether `m` is still ahead of `done`. */
  predicate Exact(done: nat, m: nat) {
    Less(At(done), At(m)) <==> done < m
  }

  /** [-65536, 65535] is the largest window of distances around zero in which the
      comparison is always right. */
  lemma WindowIff(lo: int, hi: int)
    requires lo <= 0 <= hi
    ensures (forall done: nat, m: nat :: lo <= m - done <= hi ==> Exact(done, m)) <==> -0x1_0000 <= lo && hi <= 0xffff
  {
    if -0x1_0000 <= lo && hi <= 0xffff {
      forall done: nat, m: nat | lo <= m - done <= hi
        ensures Exact(done, m)
      {
        LessOfNumbers(done, m);
      }
    } else if hi > 0xffff {
      LessOfNumbers(0, 0x1_0000);
      assert !Exact(0, 0x1_0000);
    } else {
      LessOfNumbers(0x1_0001, 0);
      assert !Exact(0x1_0001, 0);
    }
  }

  class SyncPoint {
    var val: u16
    var wrap: bool

    constructor ()
      ensures P() == At(0)
    {
      val, wrap := 0, false;
    }

    function P(): Point
      reads this
    {
      Point(val, wrap)
    }

    method Increment() returns (v: u16)
      modifies this
      ensures P() == Inc(old(P())) && v == P().val
    {
      val := (val + 1) % 0x1_0000;
      if val == 0 {
        wrap := !wrap;
      }
      v := val;
    }

    method Assign(v: u16)
      modifies this
      ensures P() == Set(old(P()), v)
    {
      if v < val {
        wrap := !wrap;
      }
      val := v;
    }
  }

  datatype WaitResult = NoError | ContextBroken | BrokenMarker | TimedOut

  /** The markers of a context. `issued` and `done` count without wrapping. */
  class Markers {
    const point: SyncPoint
    const last: SyncPoint
    var failed: set<u16>
    ghost var issued: nat
    ghost var done: nat

    constructor ()
      ensures Valid() && fresh(point) && fresh(last) && issued == done == 0 && failed == {}
    {
      point := new SyncPoint();
      last := new SyncPoint();
      failed, issued, done := {}, 0, 0;
    }

    ghost predicate Valid()
      reads this, point, last
    {
      point != last && point.P() == At(issued) && last.P() == At(done)
    }

    // A failed write has used up the number.
    method CreateMarker(chan: Chan<u16>) returns (ok: bool, marker: u32)
      requires Valid()
      modifies this, point, chan
      ensures Valid() && issued == old(issued) + 1 && done == old(done) && failed == old(failed)
      ensures chan.log == old(chan.log) + if ok then [At(issued).val] else []
      ensures ok ==> marker == issued % MARKERS
      ensures ok <==> chan.failures == old(chan.failures)
    {
      IncIsNext(issued);
      var v := point.Increment();
      issued := issued + 1;
      ok := chan.Write(v);
      MarkerOfAt(issued);
      marker := if ok then point.P().Marker() else 0;
    }

    /** The card reports that it has reached number `m`, at most 65535 further. */
    method SyncDone(seqNr: u16, ghost m: nat)
      requires Valid() && done <= m <= done + 0xffff && seqNr == At(m).val
      modifies this`done, last
      ensures Valid() && done == m
    {
      SetIff(done, m);
      last.Assign(seqNr);
      done := m;
    }

    method SyncFailed(seqNr: u16)
      requires Valid()
      modifies this`failed
      ensures Valid() && failed == old(failed) + {seqNr}
    {
      failed := failed + {seqNr};
    }

    /** What waitMarker waits for. */
    predicate Reached(marker: u32, broken: bool, aborted: bool)
      reads this, last
    {
      var sp := OfMarker(marker);
      !Less(last.P(), sp) || sp.val in failed || (broken && !aborted)
    }

    /** waitMarker when its wait is over, or its time is. Within the window it times
        out exactly if the marker has neither been reached nor failed and the context
        is not broken, or is aborted; and it reports success exactly if the marker
        has been reached, has not failed, and the context is not broken. */
    method WaitMarker(marker: u32, broken: bool, aborted: bool, timed: bool, ghost m: nat) returns (ret: WaitResult)
      requires Valid() && marker == m % MARKERS && -0x1_0000 <= m - done <= 0xffff
      requires Reached(marker, broken, aborted) || timed
      modifies this`failed
      ensures Valid()
      ensures ret == TimedOut <==> m > done && At(m).val !in old(failed) && (broken ==> aborted)
      ensures ret == ContextBroken <==> broken && ret != TimedOut
      ensures ret == BrokenMarker <==> !broken && At(m).val in old(failed)
      ensures ret == NoError <==> !broken && At(m).val !in old(failed) && m <= done
      ensures failed == if ret == BrokenMarker then old(failed) - {At(m).val} else old(failed)
    {
      MarkerOfAt(m);
      WindowIff(-0x1_0000, 0xffff);
      assert Exact(done, m);
      var sp := OfMarker(marker);
      ret := NoError;
      if !Reached(marker, broken, aborted) {
        ret := TimedOut;
      } else if broken {
        ret := ContextBroken;
      } else if sp.val in failed {
        failed := failed - {sp.val};
        ret := BrokenMarker;
      }
    }

    /** Within the window a wait is over exactly when the marker has been reached or
        has failed, or the context is broken without having been aborted. */
    lemma ReachedIff(m: nat)
      requires Valid() && -0x1_0000 <= m - done <= 0xffff
      ensures forall broken, aborted :: Reached(m % MARKERS, broken, aborted) <==>
        m <= done || m % 0x1_0000 in failed || (broken && !aborted)
    {
      MarkerOfAt(m);
      WindowIff(-0x1_0000, 0xffff);
      assert Exact(done, m);
    }
  }
}
