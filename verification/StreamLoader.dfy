/** Loading a device resource from a stream through two host blocks
    (nnpdrvDeviceResourceSubLoadFromStream).

    The card transfers the bytes of an outstanding copy one by one, in any order,
    any number of times, reading the host block as it is at that moment; it may
    report success once every byte has been transferred, or failure at any time.
    While the driver waits, the card takes any number of such steps. */
module StreamLoader {
  import opened Bytes
  import opened Channel
  import HostLock
  import opened HostResource
  import opened CopyCommands

  datatype Status = NoError | IoError | InvalidArgument | DeviceBusy | ContextBroken | OtherError

  const MAX_BLOCK_SIZE: nat := 0x10000

  /** A load in progress: `pos` bytes of `data` are scheduled to the device bytes
      from `offset` on; before, the device held `was` and `failures` failed copies
      were on record. */
  datatype Load = Load(data: seq<byte>, offset: nat, pos: nat, was: seq<byte>, failures: nat)

  /** What matters of a host block: its copy covers the `n` device bytes from
      `off`; while it is outstanding those in `got` have been transferred. */
  datatype BlockV = BlockV(scheduled: bool, locked: bool, broken: bool, off: nat, n: nat, got: set<nat>, buf: seq<byte>)

  const NO_BLOCK: BlockV := BlockV(false, false, false, 0, 0, {}, [])

  ghost predicate Covers(b: BlockV, p: nat) {
    b.off <= p < b.off + b.n
  }

  ghost predicate InFlight(b: BlockV, p: nat) {
    b.scheduled && Covers(b, p)
  }

  ghost predicate Failed(b: BlockV, p: nat) {
    !b.scheduled && b.broken && Covers(b, p)
  }

  /** An outstanding copy carries the stream's bytes, from an unchanged buffer. */
  ghost predicate Carries(b: BlockV, l: Load) {
    b.scheduled ==>
      && 0 < b.n && l.offset <= b.off && b.off + b.n <= l.offset + l.pos <= l.offset + |l.data|
      && b.n <= |b.buf| && b.buf[..b.n] == l.data[b.off - l.offset..b.off - l.offset + b.n]
  }

  ghost predicate Arrived(mem: seq<byte>, b: BlockV) {
    b.scheduled ==> forall k: nat :: k in b.got ==>
      k < b.n <= |b.buf| && b.off + k < |mem| && mem[b.off + k] == b.buf[k]
  }

  /** Bytes neither in flight nor bad have arrived, those outside the range are
      untouched, and a bad byte is in the last region of a broken block. */
  ghost predicate Inv(mem: seq<byte>, bad: set<nat>, b: BlockV, o: BlockV, l: Load) {
    && Carries(b, l) && Carries(o, l) && Arrived(mem, b) && Arrived(mem, o)
    && |mem| == |l.was| && l.pos <= |l.data| && (l.pos > 0 ==> l.offset + l.pos <= |mem|)
    && (forall p: nat :: InFlight(b, p) ==> !InFlight(o, p))
    && (forall p: nat :: p < |mem| && !(l.offset <= p < l.offset + l.pos) ==> mem[p] == l.was[p])
    && (forall p: nat :: l.offset <= p < l.offset + l.pos && !InFlight(b, p) && !InFlight(o, p) && p !in bad ==>
          mem[p] == l.data[p - l.offset])
    && (forall p: nat :: p in bad ==> Failed(b, p) || Failed(o, p))
  }

  ghost function Region(off: nat, n: nat): (r: set<nat>)
    ensures forall p: nat :: p in r <==> off <= p < off + n
  {
    if n == 0 then {} else Region(off, n - 1) + {off + n - 1}
  }

  lemma Swap(mem: seq<byte>, bad: set<nat>, b: BlockV, o: BlockV, l: Load)
    requires Inv(mem, bad, b, o, l)
    ensures Inv(mem, bad, o, b, l)
  {
  }

  // The driver may lock an idle block and fill its buffer.
  lemma IdleKeeps(mem: seq<byte>, bad: set<nat>, b: BlockV, b': BlockV, o: BlockV, l: Load)
    requires Inv(mem, bad, b, o, l) && !b.scheduled
    requires b' == b.(locked := b'.locked, buf := b'.buf)
    ensures Inv(mem, bad, b', o, l)
  {
  }

  lemma TransferKeeps(mem: seq<byte>, bad: set<nat>, b: BlockV, o: BlockV, l: Load, k: nat)
    requires Inv(mem, bad, b, o, l) && b.scheduled && k < b.n
    ensures b.off + k < |mem| && k < |b.buf|
    ensures Inv(mem[b.off + k := b.buf[k]], bad, b.(got := b.got + {k}), o, l)
  {
  }

  lemma SucceedKeeps(mem: seq<byte>, bad: set<nat>, b: BlockV, o: BlockV, l: Load)
    requires Inv(mem, bad, b, o, l) && b.scheduled
    requires forall k: nat :: k < b.n ==> k in b.got
    ensures Inv(mem, bad, b.(scheduled := false), o, l)
  {
    var b' := b.(scheduled := false);
    forall p: nat | InFlight(b, p)
      ensures mem[p] == l.data[p - l.offset]
    {
      var k := p - b.off;
      assert k in b.got && b.buf[..b.n][k] == l.data[p - l.offset];
    }
    forall p: nat | p in bad
      ensures Failed(b', p) || Failed(o, p)
    {
    }
  }

  lemma FailKeeps(mem: seq<byte>, bad: set<nat>, b: BlockV, o: BlockV, l: Load, left: seq<byte>)
    requires Inv(mem, bad, b, o, l) && b.scheduled && |left| == b.n
    ensures b.off + b.n <= |mem| && b.off in Region(b.off, b.n)
    ensures Inv(Splice(mem, b.off, left), bad + Region(b.off, b.n), b.(scheduled := false, broken := true), o, l)
  {
    var mem' := Splice(mem, b.off, left);
    var b' := b.(scheduled := false, broken := true);
    assert forall p: nat :: p < |mem| && !Covers(b, p) ==> mem'[p] == mem[p];
    assert forall p: nat :: Covers(b, p) ==> InFlight(b, p);
    if o.scheduled {
      forall i: nat | i in o.got
        ensures mem'[o.off + i] == o.buf[i]
      {
        assert InFlight(o, o.off + i);
      }
    }
  }

  /** The next `n` bytes of the stream are scheduled through an intact block. */
  lemma ScheduleKeeps(mem: seq<byte>, bad: set<nat>, b: BlockV, b': BlockV, o: BlockV, l: Load, n: nat)
    requires Inv(mem, bad, b, o, l) && !b.scheduled && !b.broken
    requires 0 < n && l.pos + n <= |l.data| && l.offset + l.pos + n <= |mem|
    requires n <= |b'.buf| && b'.buf[..n] == l.data[l.pos..l.pos + n]
    requires b' == BlockV(true, false, false, l.offset + l.pos, n, {}, b'.buf)
    ensures Inv(mem, bad, b', o, l.(pos := l.pos + n))
  {
    var l' := l.(pos := l.pos + n);
    assert forall p: nat :: InFlight(o, p) ==> p < l.offset + l.pos;
    forall p: nat | l.offset <= p < l.offset + l'.pos && !InFlight(b', p) && !InFlight(o, p) && p !in bad
      ensures mem[p] == l.data[p - l.offset]
    {
      assert !InFlight(b, p);
    }
  }

  /** The device resource; `bad` are the bytes of the load's failed copies. */
  class Device {
    var mem: seq<byte>
    ghost var bad: set<nat>

    constructor (mem: seq<byte>)
      ensures this.mem == mem && bad == {}
    {
      this.mem, bad := mem, {};
    }
  }

  /** A stream with its read callback. `plan(k)` is how many bytes the callback has
      ready at its read number `k`, or negative if it fails then; it never delivers
      more than it is asked for or than is left. */
  class Stream {
    const data: seq<byte>
    const plan: nat -> int
    var pos: nat
    var readNo: nat

    constructor (data: seq<byte>, plan: nat -> int)
      ensures this.data == data && this.plan == plan && pos == 0 && readNo == 0
    {
      this.data, this.plan, pos, readNo := data, plan, 0, 0;
    }

    method Read(dst: array<byte>, size: nat) returns (n: int)
      requires pos <= |data| && size <= dst.Length
      modifies this, dst
      ensures readNo == old(readNo) + 1 && old(pos) <= pos <= |data|
      ensures n == if plan(old(readNo)) < 0 then -1 else Taken(plan(old(readNo)), |data| - old(pos), size)
      ensures n >= 0 ==> pos == old(pos) + n && dst[..n] == data[old(pos)..pos]
    {
      var ready := plan(readNo);
      readNo := readNo + 1;
      if ready < 0 {
        return -1;
      }
      if pos >= |data| {
        return 0;
      }
      n := |data| - pos;
      if n > size {
        n := size;
      }
      if n > ready {
        n := ready;
      }
      if n > 0 {
        Store(dst, 0, data[pos..pos + n]);
        pos := pos + n;
      }
    }
  }

  /** The last read has failed. */
  predicate ReadFailed(stream: Stream)
    reads stream
  {
    stream.readNo > 0 && stream.plan(stream.readNo - 1) < 0
  }

  // ----- How much of a stream is read -----

  /** What a read delivers with `ready` bytes ready and `left` bytes left. */
  function Taken(ready: int, left: nat, size: nat): nat {
    if ready <= 0 then 0 else Min(ready, Min(left, size))
  }

  /** What the reads from number `k` on deliver until one does not fill its block. */
  function Delivered(plan: nat -> int, k: nat, left: nat, size: nat): nat
    requires size > 0
    decreases left
  {
    var n := Taken(plan(k), left, size);
    if n == size then size + Delivered(plan, k + 1, left - size, size) else n
  }

  /** With `left` bytes left at read number `k`, the `i`-th read from there on comes
      before the end of the data and delivers less than it could. */
  predicate Short(plan: nat -> int, k: nat, i: nat, left: nat, size: nat) {
    i * size < left && plan(k + i) < Min(size, left - i * size)
  }

  /** The documentation says that the stream ends when the callback returns 0 or
      less. It is read to its end if and only if no read before that is short: the
      loader takes the first read that does not fill a block for the last one. */
  lemma {:induction false} WholeStreamIff(plan: nat -> int, k: nat, left: nat, size: nat)
    requires size > 0
    ensures Delivered(plan, k, left, size) <= left
    ensures Delivered(plan, k, left, size) == left <==> forall i: nat :: !Short(plan, k, i, left, size)
    decreases left
  {
    FirstShort(plan, k, left, size);
    if Taken(plan(k), left, size) == size {
      WholeStreamIff(plan, k + 1, left - size, size);
      ShortLater(plan, k, k + 1, left, left - size, size);
    } else if Taken(plan(k), left, size) == left {
      NoneShort(plan, k, left, size);
    }
  }

  lemma FirstShort(plan: nat -> int, k: nat, left: nat, size: nat)
    ensures Short(plan, k, 0, left, size) <==> 0 < left && plan(k) < Min(size, left)
  {
    assert 0 * size == 0 && k + 0 == k;
  }

  lemma NoneShort(plan: nat -> int, k: nat, left: nat, size: nat)
    requires left < size && (left > 0 ==> plan(k) >= left)
    ensures forall i: nat :: !Short(plan, k, i, left, size)
  {
    forall i: nat
      ensures !Short(plan, k, i, left, size)
    {
      assert i > 0 ==> i * size >= size;
      FirstShort(plan, k, left, size);
    }
  }

  // The reads after a full one, seen from it.
  lemma ShortLater(plan: nat -> int, k: nat, next: nat, left: nat, rest: nat, size: nat)
    requires 0 < size <= left && plan(k) >= size && next == k + 1 && rest == left - size
    ensures (forall i: nat :: !Short(plan, next, i, rest, size)) <==> (forall i: nat :: !Short(plan, k, i, left, size))
  {
    forall i: nat | Short(plan, next, i, rest, size)
      ensures exists j: nat :: Short(plan, k, j, left, size)
    {
      assert (i + 1) * size == i * size + size && next + i == k + (i + 1);
      assert Short(plan, k, i + 1, left, size);
    }
    forall i: nat | Short(plan, k, i, left, size)
      ensures exists j: nat :: Short(plan, next, j, rest, size)
    {
      assert i > 0;
      assert i * size == (i - 1) * size + size && k + i == next + (i - 1);
      assert Short(plan, next, i - 1, rest, size);
    }
  }

  lemma DeliveredNext(plan: nat -> int, k: nat, left: nat, size: nat)
    requires size > 0
    ensures var n := Taken(plan(k), left, size);
            && n <= left && n <= size
            && Delivered(plan, k, left, size) == n + if n == size then Delivered(plan, k + 1, left - n, size) else 0
  {
  }

  // The callback for a memory buffer.
  lemma {:induction false} EverythingReady(len: nat, size: nat)
    requires 0 < size < TWO_64 && len < TWO_64
    ensures Delivered(_ => TWO_64, 0, len, size) == len
  {
    WholeStreamIff(_ => TWO_64, 0, len, size);
  }

  /** A callback that delivers one byte at a time never fails and never returns 0
      before the end, and still only its first byte is loaded. */
  lemma OneByteAtATime(len: nat, size: nat)
    requires len > 1 && size > 1
    ensures Delivered(_ => 1, 0, len, size) == 1 < len && Short(_ => 1, 0, 0, len, size)
  {
  }

  /** A host block with its subresource copy. */
  class Block {
    const host: HostRes
    const buf: array<byte>
    const copy: CopyCommand
    var off: nat
    var n: nat
    var got: set<nat>

    constructor (size: nat, id: u16)
      ensures Sane() && fresh(Objs())
      ensures host.size == size && V() == BlockV(false, false, false, 0, 0, {}, buf[..])
    {
      host := new HostRes(false, size, false);
      buf := new byte[size];
      copy := new CopyCommand.Subres(id);
      off, n, got := 0, 0, {};
    }

    ghost function Objs(): set<object> {
      {this, host, buf, copy}
    }

    ghost function V(): BlockV
      reads this, host, copy, buf
    {
      BlockV(copy.scheduled, host.cpuLocked != 0, host.State().Broken(), off, n, got, buf[..])
    }

    /** The block's lock is held for its outstanding copy, or by the driver. */
    ghost predicate Sane()
      reads this, host, copy
    {
      && copy.Valid() && copy.isSubres && !copy.c2h && !copy.d2d
      && !host.lockless && !host.syncNeeded && buf.Length == host.size && host.failedOps >= 0
      && (copy.scheduled ==> copy.hostres == host && host.readers == 1 && host.cpuLocked == 0)
      && (!copy.scheduled ==> host.readers == host.cpuLocked && -1 <= host.readers <= 0)
    }
  }

  ghost function Objs(b: Block?): set<object> {
    if b == null then {} else b.Objs()
  }

  // What the card's steps change of a block.
  ghost function CardObjs(b: Block?): set<object> {
    if b == null then {} else {b, b.host, b.copy}
  }

  ghost function View(b: Block?): BlockV
    reads Objs(b)
  {
    if b == null then NO_BLOCK else b.V()
  }

  ghost predicate Loading(dev: Device, errors: FailedHosts, b: Block?, o: Block?, l: Load)
    reads dev, errors, Objs(b), Objs(o)
  {
    && Objs(b) !! Objs(o) && dev !in Objs(b) + Objs(o) && errors !in Objs(b) + Objs(o)
    && |errors.failed| >= l.failures && (dev.bad == {} <==> |errors.failed| == l.failures)
    && (b != null ==> b.Sane()) && (o != null ==> o.Sane())
    && (View(b).broken || View(o).broken ==> |errors.failed| > l.failures)
    && |dev.mem| == |l.was| && Inv(dev.mem, dev.bad, View(b), View(o), l)
  }

  // ----- The card -----

  /** What the card may do to a block: an idle block it leaves alone; the copy of
      another it may complete, a failure being put on record. */
  ghost predicate CardTouched(v: BlockV, v': BlockV) {
    && v'.off == v.off && v'.n == v.n && v'.buf == v.buf && v'.locked == v.locked
    && (!v.scheduled ==> v' == v)
    && (v.broken ==> v'.broken)
  }

  // One byte of an outstanding copy is transferred.
  method TransferByte(dev: Device, b: Block, k: nat, ghost errors: FailedHosts, ghost o: Block?, ghost l: Load)
    requires Loading(dev, errors, b, o, l) && b.copy.scheduled && k < b.n
    modifies dev, b
    ensures Loading(dev, errors, b, o, l) && b.copy.scheduled && b.got == old(b.got) + {k}
    ensures CardTouched(old(View(b)), View(b))
  {
    hide Inv;
    TransferKeeps(dev.mem, dev.bad, b.V(), View(o), l, k);
    dev.mem := dev.mem[b.off + k := b.buf[k]];
    b.got := b.got + {k};
  }

  // Success, possible when every byte has been transferred.
  method Succeed(dev: Device, b: Block, ghost errors: FailedHosts, ghost o: Block?, ghost l: Load)
    requires Loading(dev, errors, b, o, l) && b.copy.scheduled
    requires forall k: nat :: k < b.n ==> k in b.got
    modifies b.copy, b.host
    ensures Loading(dev, errors, b, o, l) && !b.copy.scheduled
    ensures CardTouched(old(View(b)), View(b)) && b.host.failedOps == old(b.host.failedOps)
  {
    hide Inv;
    SucceedKeeps(dev.mem, dev.bad, b.V(), View(o), l);
    b.copy.PostSchedule(null);
  }

  // Failure: the region is left in any state, and the failure is on record
  // before the lock is released.
  method Fail(dev: Device, b: Block, errors: FailedHosts, left: seq<byte>, ghost o: Block?, ghost l: Load)
    requires Loading(dev, errors, b, o, l) && b.copy.scheduled && |left| == b.n
    modifies dev, b.copy, b.host, errors
    ensures Loading(dev, errors, b, o, l) && !b.copy.scheduled
    ensures CardTouched(old(View(b)), View(b)) && b.host.failedOps == old(b.host.failedOps) + 1
    ensures |errors.failed| == old(|errors.failed|) + 1
  {
    hide Inv;
    FailKeeps(dev.mem, dev.bad, b.V(), View(o), l, left);
    dev.mem := Splice(dev.mem, b.off, left);
    dev.bad := dev.bad + Region(b.off, b.n);
    b.copy.PostSchedule(errors);
  }

  method CardStep(dev: Device, b: Block, errors: FailedHosts, ghost o: Block?, ghost l: Load)
    requires Loading(dev, errors, b, o, l)
    modifies dev, CardObjs(b), errors
    ensures Loading(dev, errors, b, o, l) && CardTouched(old(View(b)), View(b)) && |errors.failed| >= old(|errors.failed|)
  {
    if b.copy.scheduled {
      var k: nat := *;
      var left: seq<byte> := *;
      if
      case k < b.n => TransferByte(dev, b, k, errors, o, l);
      case forall i :: 0 <= i < b.n ==> i in b.got => Succeed(dev, b, errors, o, l);
      case |left| == b.n => Fail(dev, b, errors, left, o, l);
      case true =>
    }
  }

  // The card takes any number of steps on the two blocks.
  method CardRuns(dev: Device, b: Block?, o: Block?, errors: FailedHosts, ghost l: Load)
    requires Loading(dev, errors, b, o, l)
    modifies dev, CardObjs(b), CardObjs(o), errors
    ensures Loading(dev, errors, b, o, l) && |errors.failed| >= old(|errors.failed|)
    ensures CardTouched(old(View(b)), View(b)) && CardTouched(old(View(o)), View(o))
  {
    hide Inv;
    var steps: nat := *;
    while steps > 0
      invariant Loading(dev, errors, b, o, l) && |errors.failed| >= old(|errors.failed|)
      invariant CardTouched(old(View(b)), View(b)) && CardTouched(old(View(o)), View(o))
    {
      var first: bool := *;
      if first && b != null {
        CardStep(dev, b, errors, o, l);
      } else if !first && o != null {
        Swap(dev.mem, dev.bad, View(b), View(o), l);
        CardStep(dev, o, errors, b, l);
        Swap(dev.mem, dev.bad, View(o), View(b), l);
      }
      steps := steps - 1;
    }
  }

  // The copy of a block, if outstanding, is completed.
  method CardCompletes(dev: Device, b: Block, errors: FailedHosts, ghost o: Block?, ghost l: Load)
    requires Loading(dev, errors, b, o, l)
    modifies dev, CardObjs(b), errors
    ensures Loading(dev, errors, b, o, l) && !b.copy.scheduled && |errors.failed| >= old(|errors.failed|)
    ensures CardTouched(old(View(b)), View(b))
  {
    hide Inv;
    if b.copy.scheduled {
      for k := 0 to b.n
        invariant Loading(dev, errors, b, o, l) && b.copy.scheduled && CardTouched(old(View(b)), View(b))
        invariant errors.failed == old(errors.failed) && forall i: nat :: i < k ==> i in b.got
      {
        TransferByte(dev, b, k, errors, o, l);
      }
      var ok: bool := *;
      if ok {
        Succeed(dev, b, errors, o, l);
      } else {
        var left: seq<byte> := *;
        Fail(dev, b, errors, if |left| == b.n then left else seq(b.n, _ => 0), o, l);
      }
    }
  }

  /** Waits for the block's copy while the card runs, then takes the CPU lock;
      refused for a block that has become broken. */
  method WaitAndLock(dev: Device, b: Block, o: Block?, errors: FailedHosts, ghost l: Load) returns (ok: bool)
    requires Loading(dev, errors, b, o, l) && b.host.cpuLocked == 0
    modifies dev, CardObjs(b), CardObjs(o), errors
    ensures Loading(dev, errors, b, o, l) && !b.copy.scheduled && |errors.failed| >= old(|errors.failed|)
    ensures View(b).off == old(View(b).off) && View(b).n == old(View(b).n) && View(b).buf == old(View(b).buf)
    ensures CardTouched(old(View(o)), View(o))
    ensures ok == !b.host.State().Broken()
    ensures View(b).locked == ok
  {
    hide Inv;
    CardRuns(dev, b, o, errors, l);
    CardCompletes(dev, b, errors, o, l);
    ghost var h := b.host.State();
    ghost var v := View(b);
    var ret := b.host.LockCpuAccess(true, false, true);
    IdleKeeps(dev.mem, dev.bad, v, View(b), View(o), l);
    ok := ret == HostLock.LockResult.NoError;
  }

  function BlockSize(size: u64): (opt: nat)
    ensures 0 < opt <= MAX_BLOCK_SIZE
  {
    if size <= 0x1000 then 0x1000
    else if size <= 0x2000 then 0x2000
    else if size <= 0x4000 then 0x4000
    else if size <= 0x8000 then 0x8000
    else MAX_BLOCK_SIZE
  }

  /** The smallest power-of-two multiple of the page size that holds `size`
      bytes, but at most MAX_BLOCK_SIZE. */
  method CalcOptimalBlockSize(size: u64) returns (opt: u32)
    ensures opt == BlockSize(size)
    ensures opt >= size || opt == MAX_BLOCK_SIZE
    ensures opt == PAGE_SIZE || opt / 2 < size
  {
    opt := PAGE_SIZE;
    while opt < size && opt < MAX_BLOCK_SIZE
      invariant opt in {0x1000, 0x2000, 0x4000, 0x8000, 0x10000}
      invariant opt == PAGE_SIZE || opt / 2 < size
      decreases MAX_BLOCK_SIZE - opt
    {
      opt := opt * 2;
    }
  }

  /** The message that schedules a subresource copy; `copySize` is one less than
      the number of bytes. */
  datatype CopySubres = CopySubres(copyId: u16, copySize: u16, dstOffset: u64)

  /** The size check before a copy is sent, whose sum is a 64-bit one. */
  predicate PassesCheck(offset: u64, n: nat, size: nat) {
    (offset + n) % TWO_64 <= size
  }

  /** The check is right unless the sum wraps to something within the device, which
      for a device of at least one block it always does when it wraps. */
  lemma SizeCheckIff(offset: u64, n: nat, size: u64)
    requires 0 < n <= MAX_BLOCK_SIZE
    ensures (PassesCheck(offset, n, size) <==> offset + n <= size) <==>
            offset + n < TWO_64 || offset + n - TWO_64 > size
    ensures size >= MAX_BLOCK_SIZE ==>
      ((PassesCheck(offset, n, size) <==> offset + n <= size) <==> offset + n < TWO_64)
  {
  }

  /** For the last 64-bit offset the sum is 0, and one byte passes on any device. */
  lemma LastOffsetPasses(size: u64)
    ensures PassesCheck(TWO_64 - 1, 1, size) && TWO_64 - 1 + 1 > size
  {
  }

  lemma CheckIs(offset: u64, n: nat, size: nat)
    ensures PassesCheck(offset, n, size) <==> (offset + n) % TWO_64 <= size
  {
  }

  // scheduleCopySubres. The size field holds one less than the size.
  method SendSubres(chan: Chan<CopySubres>, id: u16, devOffset: u64, n: nat) returns (ret: Status)
    requires n > 0
    modifies chan
    ensures ret == (if chan.refusals > old(chan.refusals) then ContextBroken
                    else if n > 0x1_0000 then InvalidArgument
                    else if chan.failures > old(chan.failures) then IoError
                    else NoError)
    ensures chan.log == old(chan.log) + if ret == NoError then [CopySubres(id, n - 1, devOffset)] else []
    ensures chan.refusals >= old(chan.refusals) && chan.failures >= old(chan.failures)
  {
    var fit := chan.Fit();
    if !fit {
      return ContextBroken;
    }
    if n - 1 > 0xffff {
      return InvalidArgument;
    }
    var ok := chan.Write(CopySubres(id, n - 1, devOffset));
    ret := if ok then NoError else IoError;
  }

  /** Schedules the first `n` bytes of a filled block. */
  method ScheduleBlock(dev: Device, chan: Chan<CopySubres>, b: Block, n: nat, devOffset: u64, ghost errors: FailedHosts, ghost o: Block?, ghost l: Load)
    returns (ret: Status)
    requires Loading(dev, errors, b, o, l) && !View(b).scheduled && !View(b).locked && !View(b).broken
    requires chan !in Objs(b) + Objs(o) + {dev}
    requires 0 < n <= b.buf.Length <= MAX_BLOCK_SIZE
    requires l.pos + n <= |l.data| && b.buf[..n] == l.data[l.pos..l.pos + n]
    requires devOffset == l.offset + l.pos && |dev.mem| < TWO_64
    modifies chan, b, b.copy, b.host
    ensures ret == NoError && devOffset + n < TWO_64 ==> Loading(dev, errors, b, o, l.(pos := l.pos + n))
    ensures ret == NoError ==>
      && View(b).scheduled && b.off == devOffset && b.n == n
      && chan.log == old(chan.log) + [CopySubres(b.copy.id, n - 1, devOffset)]
    ensures ret != NoError ==> Loading(dev, errors, b, o, l) && chan.log == old(chan.log)
    ensures ret == (if chan.refusals > old(chan.refusals) then ContextBroken
                    else if !PassesCheck(devOffset, n, |dev.mem|) then InvalidArgument
                    else if chan.failures > old(chan.failures) then IoError
                    else NoError)
    ensures chan.refusals >= old(chan.refusals) && chan.failures >= old(chan.failures)
  {
    hide Inv, PassesCheck;
    CheckIs(devOffset, n, |dev.mem|);
    var fit := chan.Fit();
    if !fit {
      return ContextBroken;
    }
    if n > b.host.size || (devOffset + n) % TWO_64 > |dev.mem| {
      return InvalidArgument;
    }
    ghost var v := View(b);
    var ok := b.copy.PreScheduleOn(b.host);
    if !ok {
      return DeviceBusy;
    }
    ret := SendSubres(chan, b.copy.id, devOffset, n);
    if ret != NoError {
      b.copy.PostSchedule(null);
      return;
    }
    b.off, b.n, b.got := devOffset, n, {};
    if devOffset + n < TWO_64 {
      ScheduleKeeps(dev.mem, dev.bad, v, View(b), View(o), l, n);
    }
  }

  /** The lock the driver holds excludes an outstanding copy from the block. */
  method FillBlock(dev: Device, stream: Stream, b: Block, ghost errors: FailedHosts, ghost o: Block?, ghost l: Load) returns (n: int)
    requires Loading(dev, errors, b, o, l) && View(b).locked
    requires stream !in Objs(b) + Objs(o) && stream.pos <= |stream.data|
    modifies stream, b.buf
    ensures Loading(dev, errors, b, o, l) && !b.copy.scheduled
    ensures View(b) == old(View(b)).(buf := b.buf[..])
    ensures old(stream.pos) <= stream.pos <= |stream.data| && stream.readNo == old(stream.readNo) + 1
    ensures n >= 0 ==>
      && n <= b.buf.Length && stream.pos == old(stream.pos) + n
      && b.buf[..n] == stream.data[old(stream.pos)..stream.pos]
      && n == Taken(stream.plan(old(stream.readNo)), |stream.data| - old(stream.pos), b.buf.Length)
    ensures n < 0 <==> stream.plan(old(stream.readNo)) < 0
  {
    hide Inv;
    ghost var v := View(b);
    n := stream.Read(b.buf, b.buf.Length);
    IdleKeeps(dev.mem, dev.bad, v, View(b), View(o), l);
  }

  method UnlockBlock(dev: Device, b: Block, ghost errors: FailedHosts, ghost o: Block?, ghost l: Load) returns (ok: bool)
    requires Loading(dev, errors, b, o, l) && View(b).locked
    modifies b.host
    ensures Loading(dev, errors, b, o, l) && ok
    ensures View(b) == old(View(b)).(locked := false)
  {
    hide Inv;
    ghost var v := View(b);
    var ret := b.host.UnlockCpuAccess(true);
    IdleKeeps(dev.mem, dev.bad, v, View(b), View(o), l);
    ok := ret == HostLock.LockResult.NoError;
  }

  // Waits for the block and fills it from the stream.
  method Refill(dev: Device, stream: Stream, b: Block, o: Block?, errors: FailedHosts, ghost l: Load)
    returns (ret: Status, n: int)
    requires Loading(dev, errors, b, o, l) && !View(b).locked
    requires stream !in Objs(b) + Objs(o) && stream.pos <= |stream.data|
    modifies dev, stream, errors, Objs(b), CardObjs(o)
    ensures Loading(dev, errors, b, o, l) && CardTouched(old(View(o)), View(o))
    ensures old(stream.pos) <= stream.pos <= |stream.data|
    ensures View(b).off == old(View(b).off) && View(b).n == old(View(b).n)
    ensures ret != NoError ==>
      |errors.failed| > l.failures || (stream.readNo == old(stream.readNo) + 1 && stream.plan(old(stream.readNo)) < 0)
    ensures ret == NoError ==>
      && !View(b).scheduled && !View(b).locked && !View(b).broken
      && 0 <= n <= b.buf.Length && stream.pos == old(stream.pos) + n
      && b.buf[..n] == stream.data[old(stream.pos)..stream.pos] && stream.readNo == old(stream.readNo) + 1
      && n == Taken(stream.plan(old(stream.readNo)), |stream.data| - old(stream.pos), b.buf.Length)
  {
    hide Inv;
    n := -1;
    var ok := WaitAndLock(dev, b, o, errors, l);
    if !ok {
      ret := ContextBroken;
      return;
    }
    CardRuns(dev, b, o, errors, l);
    n := FillBlock(dev, stream, b, errors, o, l);
    CardRuns(dev, b, o, errors, l);
    var unlocked := UnlockBlock(dev, b, errors, o, l);
    CardRuns(dev, b, o, errors, l);
    ret := if n < 0 then IoError else if !unlocked then OtherError else NoError;
  }

  /** One round: waits for the block, fills it from the stream and schedules it.
      The card may run while it waits and after each of these operations. */
  method LoadBlock(dev: Device, chan: Chan<CopySubres>, stream: Stream, b: Block, o: Block?, errors: FailedHosts, devOffset: u64, ghost l: Load)
    returns (ret: Status, n: int)
    requires Loading(dev, errors, b, o, l) && !View(b).locked
    requires {chan, stream} !! Objs(b) + Objs(o)
    requires stream.data == l.data && stream.pos == l.pos <= |l.data| && devOffset == l.offset + l.pos
    requires 0 < b.buf.Length <= MAX_BLOCK_SIZE && devOffset + MAX_BLOCK_SIZE < TWO_64 && |l.was| < TWO_64
    modifies dev, chan, stream, errors, Objs(b), CardObjs(o)
    ensures old(stream.pos) <= stream.pos <= |stream.data|
    ensures CardTouched(old(View(o)), View(o))
    ensures ret == NoError ==>
      && 0 <= n <= b.buf.Length && stream.pos == old(stream.pos) + n
      && Loading(dev, errors, b, o, l.(pos := stream.pos)) && !View(b).locked
      && (if n > 0 then b.off == devOffset && b.n == n else b.off == old(b.off) && b.n == old(b.n))
      && stream.readNo == old(stream.readNo) + 1
      && n == Taken(stream.plan(old(stream.readNo)), |l.data| - l.pos, b.buf.Length)
    ensures ret != NoError ==> Loading(dev, errors, b, o, l)
    ensures chan.refusals >= old(chan.refusals) && chan.failures >= old(chan.failures)
    ensures ret == NoError ==> chan.refusals == old(chan.refusals) && chan.failures == old(chan.failures)
    ensures ret != NoError ==>
      || chan.refusals > old(chan.refusals) || chan.failures > old(chan.failures) || |errors.failed| > l.failures
      || ReadFailed(stream) || l.offset + stream.pos > |dev.mem|
  {
    hide Inv, CardTouched;
    ghost var o0 := View(o);
    ret, n := Refill(dev, stream, b, o, errors, l);
    ghost var o1 := View(o);
    if ret == NoError {
      ret := ScheduleFilled(dev, chan, b, n, devOffset, errors, o, l);
    } else {
      CardRuns(dev, b, o, errors, l);
    }
    TouchedTwice(o0, o1, View(o));
  }

  // Schedules what has been read, if anything. The card may run again.
  method ScheduleFilled(dev: Device, chan: Chan<CopySubres>, b: Block, n: nat, devOffset: u64, errors: FailedHosts, o: Block?, ghost l: Load)
    returns (ret: Status)
    requires Loading(dev, errors, b, o, l) && !View(b).scheduled && !View(b).locked && !View(b).broken
    requires chan !in Objs(b) + Objs(o) + {dev, errors}
    requires n <= b.buf.Length <= MAX_BLOCK_SIZE && l.pos + n <= |l.data| && b.buf[..n] == l.data[l.pos..l.pos + n]
    requires devOffset == l.offset + l.pos && devOffset + MAX_BLOCK_SIZE < TWO_64 && |dev.mem| < TWO_64
    modifies dev, chan, errors, Objs(b), CardObjs(o)
    ensures CardTouched(old(View(o)), View(o))
    ensures Loading(dev, errors, b, o, if ret == NoError then l.(pos := l.pos + n) else l)
    ensures ret == NoError ==> !View(b).locked
    ensures chan.refusals >= old(chan.refusals) && chan.failures >= old(chan.failures)
    ensures ret == NoError ==> chan.refusals == old(chan.refusals) && chan.failures == old(chan.failures)
    ensures ret != NoError ==>
      chan.refusals > old(chan.refusals) || chan.failures > old(chan.failures) || devOffset + n > |dev.mem|
    ensures ret == NoError ==> if n > 0 then b.off == devOffset && b.n == n else b.off == old(b.off) && b.n == old(b.n)
  {
    hide Inv, CardTouched, PassesCheck;
    CheckIs(devOffset, n, |dev.mem|);
    ret := NoError;
    if n > 0 {
      ret := ScheduleBlock(dev, chan, b, n, devOffset, errors, o, l);
    }
    ghost var v := View(b);
    CardRuns(dev, b, o, errors, if ret == NoError then l.(pos := l.pos + n) else l);
    TouchedKeeps(v, View(b));
  }

  lemma TouchedTwice(u: BlockV, v: BlockV, w: BlockV)
    requires CardTouched(u, v) && CardTouched(v, w)
    ensures CardTouched(u, w)
  {
  }

  lemma TouchedKeeps(v: BlockV, v': BlockV)
    requires CardTouched(v, v')
    ensures v'.off == v.off && v'.n == v.n && v'.locked == v.locked
  {
  }

  /** The end of the last region is the end of what was loaded, and the region
      before it ends where the last one begins. */
  ghost predicate LastRegions(b: BlockV, o: BlockV, l: Load, size: nat) {
    && b.n <= size && o.n <= size
    && (o.n > 0 ==> o.off + o.n == l.offset + l.pos)
    && (b.n > 0 ==> o.n > 0 && b.off + b.n == o.off)
  }

  /** The outcome of a load that reports success. Nothing is outstanding: what is
      not bad is the stream's data, and the bad bytes are in the last two blocks. */
  ghost predicate Loaded(mem: seq<byte>, bad: set<nat>, l: Load, size: nat) {
    && Outside(mem, l) && l.pos <= |l.data| && (l.pos > 0 ==> l.offset + l.pos <= |mem|)
    && (forall p: nat :: l.offset <= p < l.offset + l.pos && p !in bad ==> mem[p] == l.data[p - l.offset])
    && (forall p: nat :: p in bad ==> l.offset + l.pos - 2 * size <= p < l.offset + l.pos)
  }

  lemma AllArrived(mem: seq<byte>, bad: set<nat>, b: BlockV, o: BlockV, l: Load, size: nat)
    requires Inv(mem, bad, b, o, l) && LastRegions(b, o, l, size) && !b.scheduled && !o.scheduled
    ensures Loaded(mem, bad, l, size)
  {
  }

  // The final wait: its errors are ignored.
  method WaitForBlock(dev: Device, b: Block?, o: Block?, errors: FailedHosts, ghost l: Load)
    requires Loading(dev, errors, b, o, l) && !View(b).locked
    modifies dev, CardObjs(b), CardObjs(o), errors
    ensures Loading(dev, errors, b, o, l) && !View(b).scheduled && !View(b).locked && |errors.failed| >= old(|errors.failed|)
    ensures View(b).off == old(View(b).off) && View(b).n == old(View(b).n)
    ensures CardTouched(old(View(o)), View(o))
  {
    hide Inv;
    if b != null {
      var ok := WaitAndLock(dev, b, o, errors, l);
      if ok {
        ok := UnlockBlock(dev, b, errors, o, l);
      }
    }
  }

  /** Between two rounds; `b` is the block whose turn it is, `o` the other one. */
  ghost predicate Going(dev: Device, errors: FailedHosts, b: Block?, o: Block?, l: Load, size: nat)
    reads dev, errors, Objs(b), Objs(o)
  {
    && Loading(dev, errors, b, o, l) && !View(b).locked && !View(o).locked
    && LastRegions(View(b), View(o), l, size) && 0 < size <= MAX_BLOCK_SIZE
    && (b != null ==> b.buf.Length == size) && (o != null ==> o.buf.Length == size)
    && Outside(dev.mem, l) && l.pos <= |l.data| && (l.pos > 0 ==> l.offset + l.pos <= |dev.mem|)
  }

  /** The bytes outside the range are untouched. */
  ghost predicate Outside(mem: seq<byte>, l: Load) {
    && |mem| == |l.was|
    && forall p: nat :: p < |mem| && !(l.offset <= p < l.offset + l.pos) ==> mem[p] == l.was[p]
  }

  lemma Untouched(mem: seq<byte>, bad: set<nat>, b: BlockV, o: BlockV, l: Load)
    requires Inv(mem, bad, b, o, l)
    ensures Outside(mem, l) && l.pos <= |l.data| && (l.pos > 0 ==> l.offset + l.pos <= |mem|)
  {
  }

  // A block is created on its first turn; creating or mapping it may fail.
  method CurrentBlock(dev: Device, chan: Chan<CopySubres>, b: Block?, o: Block?, size: nat, ghost errors: FailedHosts, ghost l: Load)
    returns (ret: Status, b': Block?)
    requires Going(dev, errors, b, o, l, size) && chan !in Objs(b) + Objs(o)
    modifies chan`failures
    ensures ret == NoError <==> chan.failures == old(chan.failures)
    ensures chan.failures >= old(chan.failures)
    ensures Going(dev, errors, b, o, l, size)
    ensures ret == NoError ==> Going(dev, errors, b', o, l, size) && b' != null
    ensures ret == NoError ==> if b == null then fresh(Objs(b')) else b' == b
    ensures ret != NoError ==> b' == b
  {
    hide Going;
    b' := b;
    if b == null {
      var created := chan.Request();
      if !created {
        return IoError, b;
      }
      var mapped := chan.Request();
      if !mapped {
        return OtherError, b;
      }
      var id: u16 := *;
      b' := NewBlock(dev, o, size, id, errors, l);
    }
    ret := NoError;
  }

  method NewBlock(dev: Device, ghost o: Block?, size: nat, id: u16, ghost errors: FailedHosts, ghost l: Load) returns (b: Block)
    requires Going(dev, errors, null, o, l, size)
    ensures Going(dev, errors, b, o, l, size) && fresh(Objs(b))
  {
    hide Inv, Outside;
    ghost var v := View(o);
    b := new Block(size, id);
    IdleBlock(dev.mem, dev.bad, View(b), View(o), l);
  }

  lemma IdleBlock(mem: seq<byte>, bad: set<nat>, b: BlockV, o: BlockV, l: Load)
    requires Inv(mem, bad, NO_BLOCK, o, l) && !b.scheduled && b.n == 0
    ensures Inv(mem, bad, b, o, l)
  {
  }

  // A round that loaded something makes the block's region the last one.
  lemma TakeTurns(dev: Device, errors: FailedHosts, b: Block, o: Block?, v: BlockV, w: BlockV, n: nat, l: Load, size: nat)
    requires Loading(dev, errors, b, o, l.(pos := l.pos + n)) && LastRegions(v, w, l, size)
    requires !View(b).locked && !View(o).locked && View(o).off == w.off && View(o).n == w.n
    requires 0 < size <= MAX_BLOCK_SIZE && b.buf.Length == size && (o != null ==> o.buf.Length == size)
    requires n <= size && if n > 0 then b.off == l.offset + l.pos && b.n == n else b.off == v.off && b.n == v.n
    ensures n > 0 ==> Going(dev, errors, o, b, l.(pos := l.pos + n), size)
    ensures n == 0 ==> Going(dev, errors, b, o, l, size)
    ensures l.pos + n > 0 ==> l.offset + l.pos + n <= |dev.mem|
  {
    hide Inv;
    var l' := l.(pos := l.pos + n);
    Untouched(dev.mem, dev.bad, View(b), View(o), l');
    Swap(dev.mem, dev.bad, View(b), View(o), l');
  }

  // After a round that loaded something the blocks take turns.
  method Round(dev: Device, chan: Chan<CopySubres>, stream: Stream, b: Block?, o: Block?, size: nat, errors: FailedHosts, devOffset: u64, ghost l: Load)
    returns (ret: Status, n: int, b': Block?, o': Block?)
    requires Going(dev, errors, b, o, l, size)
    requires {chan, stream} !! Objs(b) + Objs(o)
    requires stream.data == l.data && stream.pos == l.pos && devOffset == l.offset + l.pos
    requires devOffset + MAX_BLOCK_SIZE < TWO_64 && |l.was| < TWO_64
    modifies dev, chan, stream, errors, Objs(b), Objs(o)
    ensures old(stream.pos) <= stream.pos <= |stream.data|
    ensures fresh(Objs(b') + Objs(o') - Objs(b) - Objs(o))
    ensures ret == NoError ==>
      && Going(dev, errors, b', o', l.(pos := stream.pos), size)
      && 0 <= n <= size && stream.pos == old(stream.pos) + n
      && (stream.pos > 0 ==> l.offset + stream.pos <= |dev.mem|)
      && stream.readNo == old(stream.readNo) + 1
      && n == Taken(stream.plan(old(stream.readNo)), |l.data| - l.pos, size)
    ensures Outside(dev.mem, l.(pos := stream.pos)) && |dev.mem| == |l.was|
    ensures chan.refusals >= old(chan.refusals) && chan.failures >= old(chan.failures)
    ensures ret == NoError ==> chan.refusals == old(chan.refusals) && chan.failures == old(chan.failures)
    ensures ret != NoError ==>
      || chan.refusals > old(chan.refusals) || chan.failures > old(chan.failures) || |errors.failed| > l.failures
      || ReadFailed(stream) || l.offset + stream.pos > |dev.mem|
  {
    hide Inv, Carries, Arrived, LastRegions;
    n, o' := -1, o;
    ret, b' := CurrentBlock(dev, chan, b, o, size, errors, l);
    ghost var v, w := View(b'), View(o);
    if ret != NoError {
      Untouched(dev.mem, dev.bad, View(b), View(o), l);
      return;
    }
    ret, n := LoadBlock(dev, chan, stream, b', o, errors, devOffset, l);
    if ret != NoError {
      Untouched(dev.mem, dev.bad, View(b'), View(o), l);
      return;
    }
    TakeTurns(dev, errors, b', o, v, w, n, l, size);
    if n > 0 {
      b', o' := o, b';
    }
  }

  // The errors of the final wait are ignored: it always reports success.
  method WaitForAll(dev: Device, b: Block?, o: Block?, size: nat, errors: FailedHosts, ghost l: Load) returns (ret: Status)
    requires Going(dev, errors, b, o, l, size)
    modifies dev, CardObjs(b), CardObjs(o), errors
    ensures Loaded(dev.mem, dev.bad, l, MAX_BLOCK_SIZE) && Outside(dev.mem, l) && |dev.mem| == |l.was|
    ensures |errors.failed| >= l.failures && (dev.bad == {} <==> |errors.failed| == l.failures)
    ensures ret == NoError && |errors.failed| >= old(|errors.failed|)
  {
    hide Inv, Carries, Arrived;
    Swap(dev.mem, dev.bad, View(b), View(o), l);
    WaitForBlock(dev, o, b, errors, l);
    Swap(dev.mem, dev.bad, View(o), View(b), l);
    WaitForBlock(dev, b, o, errors, l);
    AllArrived(dev.mem, dev.bad, View(b), View(o), l, size);
    ret := NoError;
  }

  /** The loop has ended with the last block's copy outstanding, and then the card
      fails it: the load is a success all the same, with bad bytes on the device. */
  method FailureUnnoticed(dev: Device, b: Block?, o: Block, size: nat, errors: FailedHosts, left: seq<byte>, ghost l: Load) returns (ret: Status)
    requires Going(dev, errors, b, o, l, size) && o.copy.scheduled && |left| == o.n
    modifies dev, CardObjs(b), CardObjs(o), errors
    ensures ret == NoError && dev.bad != {} && |errors.failed| > l.failures
  {
    hide Inv, Outside, LastRegions;
    FailInTurn(dev, b, o, size, errors, left, l);
    ret := WaitForAll(dev, b, o, size, errors, l);
  }

  method FailInTurn(dev: Device, ghost b: Block?, o: Block, ghost size: nat, errors: FailedHosts, left: seq<byte>, ghost l: Load)
    requires Going(dev, errors, b, o, l, size) && o.copy.scheduled && |left| == o.n
    modifies dev, CardObjs(o), errors
    ensures Going(dev, errors, b, o, l, size) && |errors.failed| > l.failures
  {
    hide Inv, Outside;
    Swap(dev.mem, dev.bad, View(b), View(o), l);
    Fail(dev, o, errors, left, b, l);
    Swap(dev.mem, dev.bad, View(o), View(b), l);
    StillGoing(dev, errors, b, o, l, size);
  }

  lemma StillGoing(dev: Device, errors: FailedHosts, b: Block?, o: Block, l: Load, size: nat)
    requires Loading(dev, errors, b, o, l)
    ensures Outside(dev.mem, l) && l.pos <= |l.data| && (l.pos > 0 ==> l.offset + l.pos <= |dev.mem|)
  {
  }

  /** The smallest case, on values: the only byte of a stream is scheduled, and its
      copy fails and leaves the device as it was. */
  lemma LastCopyFails()
    ensures var l := Load([1], 0, 0, [0], 0);
            var block := BlockV(true, false, false, 0, 1, {}, [1]);
            && Inv([0], {}, block.(scheduled := false, n := 0), NO_BLOCK, l)
            && Inv([0], {}, block, NO_BLOCK, l.(pos := 1))
            && Inv([0], Region(0, 1), block.(scheduled := false, broken := true), NO_BLOCK, l.(pos := 1))
            && Loaded([0], Region(0, 1), l.(pos := 1), MAX_BLOCK_SIZE) && [0][0] != l.data[0]
  {
    var l := Load([1], 0, 0, [0], 0);
    var block := BlockV(true, false, false, 0, 1, {}, [1]);
    var idle, failed := block.(scheduled := false, n := 0), block.(scheduled := false, broken := true);
    assert block.buf[..1] == l.data[0..1];
    NothingLoaded(idle, l);
    assert Splice([0], 0, [0]) == [0] && {} + Region(0, 1) == Region(0, 1);
    hide Inv, Loaded, Splice, Region;
    ScheduleKeeps([0], {}, idle, block, NO_BLOCK, l, 1);
    FailKeeps([0], {}, block, NO_BLOCK, l.(pos := 1), [0]);
    Swap([0], Region(0, 1), failed, NO_BLOCK, l.(pos := 1));
    AllArrived([0], Region(0, 1), NO_BLOCK, failed, l.(pos := 1), MAX_BLOCK_SIZE);
  }

  lemma NothingLoaded(idle: BlockV, l: Load)
    requires !idle.scheduled && l.pos == 0
    ensures Inv(l.was, {}, idle, NO_BLOCK, l)
  {
  }

  lemma Start(dev: Device, errors: FailedHosts, l: Load, size: nat)
    requires 0 < size <= MAX_BLOCK_SIZE
    requires dev.bad == {} && l.pos == 0 && l.was == dev.mem && l.failures == |errors.failed|
    ensures Going(dev, errors, null, null, l, size)
  {
  }

  /** The load. */
  method SubLoadFromStream(dev: Device, chan: Chan<CopySubres>, stream: Stream, offset: u64, errors: FailedHosts)
    returns (ret: Status)
    requires stream.pos == 0 == stream.readNo
    requires offset + MAX_BLOCK_SIZE < TWO_64 && |dev.mem| + MAX_BLOCK_SIZE < TWO_64
    modifies dev, chan, stream, errors
    ensures stream.pos <= |stream.data| && |dev.mem| == old(|dev.mem|)
    ensures Outside(dev.mem, Load(stream.data, offset, stream.pos, old(dev.mem), old(|errors.failed|)))
    ensures chan.refusals >= old(chan.refusals) && chan.failures >= old(chan.failures)
    ensures ret == NoError ==> chan.refusals == old(chan.refusals) && chan.failures == old(chan.failures)
    ensures ret != NoError ==>
      || chan.refusals > old(chan.refusals) || chan.failures > old(chan.failures) || |errors.failed| > old(|errors.failed|)
      || ReadFailed(stream) || offset + stream.pos > |dev.mem|
    ensures ret == NoError ==>
      && Loaded(dev.mem, dev.bad, Load(stream.data, offset, stream.pos, old(dev.mem), old(|errors.failed|)), MAX_BLOCK_SIZE)
      && |errors.failed| >= old(|errors.failed|)
      && (dev.bad == {} <==> |errors.failed| == old(|errors.failed|))
      && stream.pos == Delivered(stream.plan, 0, |stream.data|, BlockSize((old(|dev.mem|) - offset) % TWO_64))
  {
    hide Going, Loaded, Delivered, Outside;
    dev.bad := {};
    var size := CalcOptimalBlockSize((|dev.mem| - offset) % TWO_64);
    ghost var l := Load(stream.data, offset, 0, dev.mem, |errors.failed|);
    Start(dev, errors, l, size);
    var b, o;
    ret, b, o := LoadRounds(dev, chan, stream, size, errors, l, offset);
    if ret == NoError {
      ret := WaitForAll(dev, b, o, size, errors, l.(pos := stream.pos));
    }
  }

  // The loop of the load: rounds until a read does not fill its block.
  method LoadRounds(dev: Device, chan: Chan<CopySubres>, stream: Stream, size: nat, errors: FailedHosts, ghost l: Load, offset: u64)
    returns (ret: Status, b: Block?, o: Block?)
    requires Going(dev, errors, null, null, l, size) && 0 < size
    requires stream.pos == 0 == stream.readNo
    requires l.data == stream.data && l.offset == offset && l.pos == 0 && |l.was| == |dev.mem|
    requires offset + MAX_BLOCK_SIZE < TWO_64 && |dev.mem| + MAX_BLOCK_SIZE < TWO_64
    modifies dev, chan, stream, errors
    ensures stream.pos <= |stream.data| && |dev.mem| == |l.was| && fresh(Objs(b)) && fresh(Objs(o))
    ensures Outside(dev.mem, l.(pos := stream.pos))
    ensures chan.refusals >= old(chan.refusals) && chan.failures >= old(chan.failures)
    ensures ret == NoError ==> chan.refusals == old(chan.refusals) && chan.failures == old(chan.failures)
    ensures ret != NoError ==>
      || chan.refusals > old(chan.refusals) || chan.failures > old(chan.failures) || |errors.failed| > l.failures
      || ReadFailed(stream) || l.offset + stream.pos > |dev.mem|
    ensures ret == NoError ==>
      && Going(dev, errors, b, o, l.(pos := stream.pos), size)
      && stream.pos == Delivered(stream.plan, 0, |stream.data|, size)
  {
    hide Going, Delivered, Taken, Outside;
    b, o, ret := null, null, NoError;
    GoingOutside(dev, errors, l, size);
    var devOffset: u64 := offset;
    var n: int := size;
    while n == size
      invariant ret == NoError && Going(dev, errors, b, o, l.(pos := stream.pos), size)
      invariant chan.refusals == old(chan.refusals) && chan.failures == old(chan.failures)
      invariant fresh(Objs(b)) && fresh(Objs(o)) && Outside(dev.mem, l.(pos := stream.pos))
      invariant devOffset == offset + stream.pos && stream.pos <= |stream.data|
      invariant |dev.mem| == |l.was| && (stream.pos > 0 ==> devOffset <= |dev.mem|)
      invariant n <= size
      invariant Delivered(stream.plan, 0, |stream.data|, size) ==
        stream.pos + if n == size then Delivered(stream.plan, stream.readNo, |stream.data| - stream.pos, size) else 0
      decreases |stream.data| - stream.pos, n == size
    {
      DeliveredNext(stream.plan, stream.readNo, |stream.data| - stream.pos, size);
      ret, n, b, o := Round(dev, chan, stream, b, o, size, errors, devOffset, l.(pos := stream.pos));
      if ret != NoError {
        return;
      }
      devOffset := devOffset + n;
    }
  }

  lemma GoingOutside(dev: Device, errors: FailedHosts, l: Load, size: nat)
    requires Going(dev, errors, null, null, l, size)
    ensures Outside(dev.mem, l)
  {
  }

  /** Loads the first `dataSize` bytes of a buffer. Without a failed copy the
      device then differs exactly in holding them from `offset` on. */
  method SubLoad(dev: Device, chan: Chan<CopySubres>, offset: u64, data: array?<byte>, dataSize: u64, errors: FailedHosts)
    returns (ret: Status)
    requires data != null ==> dataSize <= data.Length
    requires offset + MAX_BLOCK_SIZE < TWO_64 && |dev.mem| + MAX_BLOCK_SIZE < TWO_64
    modifies dev, chan, errors
    ensures data == null ==> ret == InvalidArgument
    ensures data == null || dataSize == 0 ==> dev.mem == old(dev.mem) && chan.log == old(chan.log)
    ensures data != null && dataSize == 0 ==> ret == NoError
    ensures data != null && ret != NoError ==>
      || chan.refusals > old(chan.refusals) || chan.failures > old(chan.failures) || |errors.failed| > old(|errors.failed|)
      || offset + dataSize > |dev.mem|
    ensures |dev.mem| == old(|dev.mem|)
    ensures forall p: nat :: p < |dev.mem| && !(offset <= p < offset + dataSize) ==> dev.mem[p] == old(dev.mem)[p]
    ensures ret == NoError && dataSize > 0 ==> offset + dataSize <= |dev.mem|
    ensures ret == NoError && |errors.failed| == old(|errors.failed|) && dataSize > 0 ==>
      dev.mem == Splice(old(dev.mem), offset, data[..dataSize])
    ensures ret == NoError && dataSize > 0 ==>
      forall i :: 0 <= i < dataSize - 2 * MAX_BLOCK_SIZE ==> dev.mem[offset + i] == data[i]
  {
    hide Loaded, Outside, Delivered, BlockSize;
    if data == null {
      return InvalidArgument;
    }
    if dataSize == 0 {
      return NoError;
    }
    ghost var was := dev.mem;
    var stream := new Stream(data[..dataSize], _ => TWO_64);
    EverythingReady(dataSize, BlockSize((|dev.mem| - offset) % TWO_64));
    ret := SubLoadFromStream(dev, chan, stream, offset, errors);
    WholeLoaded(dev.mem, dev.bad, Load(stream.data, offset, stream.pos, was, old(|errors.failed|)), ret == NoError);
  }

  // What a load of the whole buffer comes to.
  lemma WholeLoaded(mem: seq<byte>, bad: set<nat>, l: Load, ok: bool)
    requires Outside(mem, l) && l.pos <= |l.data| && (ok ==> l.pos == |l.data| && Loaded(mem, bad, l, MAX_BLOCK_SIZE))
    ensures forall p: nat :: p < |mem| && !(l.offset <= p < l.offset + |l.data|) ==> mem[p] == l.was[p]
    ensures ok && l.data != [] ==> l.offset + |l.data| <= |mem|
    ensures ok && bad == {} && l.data != [] ==> mem == Splice(l.was, l.offset, l.data)
    ensures ok ==> forall i :: 0 <= i < |l.data| - 2 * MAX_BLOCK_SIZE ==> mem[l.offset + i] == l.data[i]
  {
    if ok {
      forall i | 0 <= i < |l.data| - 2 * MAX_BLOCK_SIZE
        ensures mem[l.offset + i] == l.data[i]
      {
        assert l.offset + i !in bad;
      }
      forall p: nat | p < |mem| && bad == {} && l.data != []
        ensures mem[p] == Splice(l.was, l.offset, l.data)[p]
      {
      }
    }
  }
}
