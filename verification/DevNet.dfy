/** Creating a network, or adding resources to it, across pages of the command
    ring (send_create_or_add in nnpiDevNet.cpp). */
module DevNet {
  import opened Bytes
  import opened Channel
  import opened Circular
  import opened PageRing
  import opened RingBuffer

  const MAX_RES: nat := 0x100_0000
  const MAX_DATA: nat := 0x1_0000_0000
  const IDS_PER_PAGE: nat := 2048

  type u24 = x: int | 0 <= x < 0x100_0000

  datatype Status = NoError | NotSupported | ContextBroken | IoError

  /** The header with its bit fields (h2c_ChanInferenceNetworkOp), and the page of
      the ring it is about. `size` is one less than the number of data bytes. */
  datatype NetMsg = NetMsg(netId: u16, create: bool, numRes: u24, size: u32, startResIdx: u24, chained: bool, page: seq<byte>)

  /** The ids as an array of 16-bit words. */
  function IdBytes(ids: seq<u16>): (s: seq<byte>)
    ensures |s| == 2 * |ids|
  {
    seq(2 * |ids|, k requires 0 <= k < 2 * |ids| => U16(ids[k / 2])[k % 2])
  }

  /** Everything the pages carry: the resource ids, then the configuration. */
  function Data(ids: seq<u16>, config: seq<byte>): (s: seq<byte>)
    ensures |s| == 2 * |ids| + |config|
  {
    IdBytes(ids) + config
  }

  lemma IdBytesSnoc(ids: seq<u16>, id: u16)
    ensures IdBytes(ids + [id]) == IdBytes(ids) + U16(id)
  {
  }

  /** The ids are little-endian words one behind another, and the configuration
      follows them. */
  lemma DataLayout(ids: seq<u16>, config: seq<byte>, k: nat)
    ensures Data(ids, config)[2 * |ids|..] == config
    ensures k < |ids| ==> Little(Data(ids, config)[2 * k..2 * k + 2]) == ids[k]
  {
    if k < |ids| {
      var s := Data(ids, config)[2 * k..2 * k + 2];
      assert s[0] == U16(ids[k])[0] && s[1] == U16(ids[k])[1];
      assert s == U16(ids[k]);
      LittleEndian16(ids[k]);
    }
  }

  // ----- The receiving side -----

  function Ids(s: seq<byte>, n: nat): (ids: seq<u16>)
    requires 2 * n <= |s|
    ensures |ids| == n
  {
    seq(n, k requires 0 <= k < n => GetU16(s[2 * k..]))
  }

  function Joined(msgs: seq<NetMsg>): seq<byte> {
    if msgs == [] then [] else Joined(msgs[..|msgs| - 1]) + msgs[|msgs| - 1].page
  }

  datatype Network = Incomplete | Network(netId: u16, create: bool, ids: seq<u16>, config: seq<byte>)

  /** What the first header says the joined pages are. */
  function Receive(msgs: seq<NetMsg>): Network {
    if msgs == [] then Incomplete
    else
      var total, n, all: seq<byte> := msgs[0].size + 1, msgs[0].numRes, Joined(msgs);
      if |all| < total || total < 2 * n then Incomplete
      else Network(msgs[0].netId, msgs[0].create, Ids(all[..2 * n], n), all[2 * n..total])
  }

  lemma IdsRoundTrip(ids: seq<u16>)
    ensures Ids(IdBytes(ids), |ids|) == ids
  {
  }

  // ----- The sending side -----

  /** Page `k` carries the `k`-th page's worth of the data. Its header has the
      number of resources, the size less one and the number of ids already sent,
      each cut to its field. */
  predicate IsPage(m: NetMsg, k: nat, netId: u16, create: bool, ids: seq<u16>, config: seq<byte>) {
    var data := Data(ids, config);
    && m.netId == netId && m.create == create && m.chained == (|data| > PAGE_SIZE)
    && m.numRes == |ids| % MAX_RES
    && m.size == (|data| - 1) % MAX_DATA
    && m.startResIdx == Min(IDS_PER_PAGE * k, |ids|) % MAX_RES
    && |m.page| == PAGE_SIZE
    && (PAGE_SIZE * k <= |data| ==>
          var end := Min(PAGE_SIZE * (k + 1), |data|);
          m.page[..end - PAGE_SIZE * k] == data[PAGE_SIZE * k..end])
  }

  predicate ArePages(msgs: seq<NetMsg>, netId: u16, create: bool, ids: seq<u16>, config: seq<byte>) {
    forall k :: 0 <= k < |msgs| ==> IsPage(msgs[k], k, netId, create, ids, config)
  }

  /** The number of pages: rounded up, and one for no data at all. */
  function PageCount(total: nat): (n: nat)
    ensures n > 0 && total <= PAGE_SIZE * n
    ensures n > 1 ==> PAGE_SIZE * (n - 1) < total
  {
    if total == 0 then 1 else (total - 1) / PAGE_SIZE + 1
  }

  lemma {:induction false} JoinedPages(msgs: seq<NetMsg>, netId: u16, create: bool, ids: seq<u16>, config: seq<byte>)
    requires ArePages(msgs, netId, create, ids, config)
    requires PAGE_SIZE * (|msgs| - 1) <= |Data(ids, config)|
    ensures |Joined(msgs)| == PAGE_SIZE * |msgs|
    ensures var end := Min(PAGE_SIZE * |msgs|, |Data(ids, config)|);
            Joined(msgs)[..end] == Data(ids, config)[..end]
  {
    if msgs != [] {
      var n := |msgs| - 1;
      var data := Data(ids, config);
      JoinedPages(msgs[..n], netId, create, ids, config);
      assert IsPage(msgs[n], n, netId, create, ids, config);
      var end := Min(PAGE_SIZE * (n + 1), |data|);
      var all := Joined(msgs[..n]) + msgs[n].page;
      assert all[..PAGE_SIZE * n] == data[..PAGE_SIZE * n];
      assert all[..end] == all[..PAGE_SIZE * n] + msgs[n].page[..end - PAGE_SIZE * n];
      assert data[..end] == data[..PAGE_SIZE * n] + data[PAGE_SIZE * n..end];
    }
  }

  /** The fields that the receiver does not need: the number of ids on earlier pages,
      and whether there are several pages. */
  lemma Headers(msgs: seq<NetMsg>, k: nat, netId: u16, create: bool, ids: seq<u16>, config: seq<byte>)
    requires ArePages(msgs, netId, create, ids, config) && k < |msgs| == PageCount(|Data(ids, config)|)
    ensures msgs[k].startResIdx == Min(|Joined(msgs[..k])| / 2, |ids|) % 0x100_0000
    ensures msgs[k].chained <==> |msgs| > 1
  {
    assert IsPage(msgs[k], k, netId, create, ids, config);
    JoinedPages(msgs[..k], netId, create, ids, config);
  }

  /** The round trip holds exactly for fewer than 2^24 resources and some data:
      other accepted inputs are announced with a wrapped header field. */
  lemma NetworkRoundTrip(msgs: seq<NetMsg>, netId: u16, create: bool, ids: seq<u16>, config: seq<byte>)
    requires |ids| <= MAX_RES && |Data(ids, config)| <= MAX_DATA
    requires ArePages(msgs, netId, create, ids, config) && |msgs| == PageCount(|Data(ids, config)|)
    ensures Receive(msgs) == Network(netId, create, ids, config) <==> |ids| < MAX_RES && |Data(ids, config)| > 0
  {
    hide IdBytes, Joined;
    var data, all := Data(ids, config), Joined(msgs);
    JoinedPages(msgs, netId, create, ids, config);
    assert IsPage(msgs[0], 0, netId, create, ids, config);
    var n := msgs[0].numRes;
    if |data| == 0 {
      assert msgs[0].size + 1 == MAX_DATA;
    } else if |ids| == MAX_RES {
      assert n == 0;
      assert |ids| != 0;
    } else {
      assert msgs[0].size + 1 == |data| && n == |ids|;
      assert all[..|data|] == data;
      assert all[..2 * n] == data[..2 * n] == IdBytes(ids);
      assert all[2 * n..|data|] == data[2 * n..] == config;
      IdsRoundTrip(ids);
    }
  }

  // The bytes put on one page are the next bytes of the data.
  lemma NextBytes(ids: seq<u16>, config: seq<byte>, sent: nat, n: nat, sentConf: nat, c: nat)
    requires sent + n <= |ids| && sentConf + c <= |config|
    requires sentConf + c > 0 ==> sent + n == |ids|
    requires sentConf > 0 ==> n == 0
    ensures IdBytes(ids[sent..sent + n]) + config[sentConf..sentConf + c] ==
            Data(ids, config)[2 * sent + sentConf..2 * (sent + n) + sentConf + c]
  {
  }

  method FillIds(buf: array<byte>, off: nat, ids: seq<u16>)
    requires off + 2 * |ids| <= buf.Length
    modifies buf
    ensures buf[off..off + 2 * |ids|] == IdBytes(ids)
    ensures buf[..off] == old(buf[..off]) && buf[off + 2 * |ids|..] == old(buf[off + 2 * |ids|..])
  {
    hide U16, IdBytes;
    for i := 0 to |ids|
      invariant buf[off..off + 2 * i] == IdBytes(ids[..i])
      invariant buf[..off] == old(buf[..off]) && buf[off + 2 * |ids|..] == old(buf[off + 2 * |ids|..])
    {
      ghost var was := buf[..];
      Store(buf, off + 2 * i, U16(ids[i]));
      assert ids[..i + 1] == ids[..i] + [ids[i]];
      IdBytesSnoc(ids[..i], ids[i]);
      SpliceExtends(was, buf[..], off, off + 2 * i, U16(ids[i]));
      SpliceWithin(was, buf[..], off, off + 2 * |ids|, off + 2 * i, U16(ids[i]));
    }
    assert ids[..|ids|] == ids;
  }

  lemma SpliceExtends<T>(was: seq<T>, now: seq<T>, off: nat, p: nat, bs: seq<T>)
    requires off <= p && p + |bs| <= |was| && now == Splice(was, p, bs)
    ensures now[off..p + |bs|] == was[off..p] + bs
  {
  }

  lemma TailOf<T>(was: seq<T>, now: seq<T>, p: nat, q: nat)
    requires p <= q <= |was| == |now| && now[p..] == was[p..]
    ensures now[q..] == was[q..]
  {
    assert now[q..] == now[p..][q - p..] && was[q..] == was[p..][q - p..];
  }

  /** The page at `off` starts with the next `n` ids and `c` configuration bytes. */
  ghost predicate PageHolds(buf: seq<byte>, off: nat, ids: seq<u16>, sent: nat, n: nat, config: seq<byte>, sentConf: nat, c: nat) {
    && sent + n <= |ids| && sentConf + c <= |config| && off + 2 * n + c <= |buf|
    && buf[off..off + 2 * n + c] == IdBytes(ids[sent..sent + n]) + config[sentConf..sentConf + c]
  }

  /** Writes the next ids, then as much of the configuration as there is room for. */
  method FillPage(buf: array<byte>, off: nat, ids: seq<u16>, sent: nat, config: seq<byte>, sentConf: nat)
    returns (n: nat, c: nat)
    requires off + PAGE_SIZE <= buf.Length && sent <= |ids| && sentConf <= |config|
    modifies buf
    ensures n == Min(IDS_PER_PAGE, |ids| - sent) && c == Min(PAGE_SIZE - 2 * n, |config| - sentConf)
    ensures PageHolds(buf[..], off, ids, sent, n, config, sentConf, c)
    ensures OnlyPage(old(buf[..]), buf[..], off)
  {
    hide IdBytes, OnlyPage;
    n := |ids| - sent;
    if n > IDS_PER_PAGE {
      n := IDS_PER_PAGE;
    }
    ghost var was := buf[..];
    FillIds(buf, off, ids[sent..sent + n]);
    ghost var mid := buf[..];
    FrontWithin(was, mid, off, 2 * n);
    c := FillConfig(buf, off, 2 * n, config, sentConf);
    OnlyPageTwice(was, mid, buf[..], off);
    assert buf[..][off..off + 2 * n + c] == buf[off..off + 2 * n + c];
  }

  // What room the ids leave is filled with configuration bytes.
  method FillConfig(buf: array<byte>, off: nat, used: nat, config: seq<byte>, sentConf: nat) returns (c: nat)
    requires off + PAGE_SIZE <= buf.Length && used <= PAGE_SIZE && sentConf <= |config|
    modifies buf
    ensures c == Min(PAGE_SIZE - used, |config| - sentConf)
    ensures buf[off..off + used + c] == old(buf[off..off + used]) + config[sentConf..sentConf + c]
    ensures OnlyPage(old(buf[..]), buf[..], off)
  {
    hide Splice, OnlyPage;
    var space := PAGE_SIZE - used;
    c := 0;
    ghost var was := buf[..];
    NothingStored(was, off);
    if space > 0 && sentConf < |config| {
      c := |config| - sentConf;
      if c > space {
        c := space;
      }
      Store(buf, off + used, config[sentConf..sentConf + c]);
      Written(was, buf[..], off, used, config[sentConf..sentConf + c]);
    }
    assert buf[..][off..off + used + c] == buf[off..off + used + c];
  }

  // A store behind the first `used` bytes of the page.
  lemma Written(was: seq<byte>, now: seq<byte>, off: nat, used: nat, bs: seq<byte>)
    requires used + |bs| <= PAGE_SIZE && off + PAGE_SIZE <= |was| && now == Splice(was, off + used, bs)
    ensures OnlyPage(was, now, off) && now[off..off + used + |bs|] == was[off..off + used] + bs
  {
    SpliceExtends(was, now, off, off + used, bs);
    StoredOnPage(was, now, off, off + used, bs);
  }

  lemma FrontWithin(was: seq<byte>, now: seq<byte>, off: nat, n: nat)
    requires n <= PAGE_SIZE && off + PAGE_SIZE <= |was| == |now|
    requires now[..off] == was[..off] && now[off + n..] == was[off + n..]
    ensures OnlyPage(was, now, off)
  {
    TailOf(was, now, off + n, off + PAGE_SIZE);
  }

  /** Sends the data page by page. An oversized request is refused; a failed write
      or a dead ring ends the transfer, leaving the pages sent so far; otherwise
      exactly the pages of the data are sent. Behind what was queued before, the
      ring has exactly the announced pages, from the first that the card has not
      consumed on. */
  method SendCreateOrAdd(chan: Chan<NetMsg>, ring: Ring, netId: u16, create: bool, ids: seq<u16>, config: seq<byte>)
    returns (ret: Status, ghost msgs: seq<NetMsg>, ghost consumed: nat)
    requires RingReady(ring) && |config| < MAX_DATA
    modifies chan, ring, ring.buf
    ensures RingReady(ring)
    ensures chan.log == old(chan.log) + msgs && ArePages(msgs, netId, create, ids, config)
    ensures consumed <= |old(ring.Contents()) + Joined(msgs)|
    ensures ring.Contents() == (old(ring.Contents()) + Joined(msgs))[consumed..]
    ensures ret == (if |ids| > 0x100_0000 || 2 * |ids| + |config| > 0x1_0000_0000 then NotSupported
                    else if chan.refusals > old(chan.refusals) then ContextBroken
                    else if chan.failures > old(chan.failures) || ring.invalid then IoError
                    else NoError)
    ensures chan.refusals >= old(chan.refusals) && chan.failures >= old(chan.failures)
    ensures ret == NotSupported || ret == ContextBroken ==> msgs == []
    ensures ret == NoError ==> |msgs| == PageCount(|Data(ids, config)|)
    ensures ret == IoError ==> |msgs| < PageCount(|Data(ids, config)|)
  {
    msgs, consumed := [], 0;
    if |ids| > MAX_RES {
      ret := NotSupported;
      return;
    }
    var total := 2 * |ids| + |config|;
    if total > MAX_DATA {
      ret := NotSupported;
      return;
    }
    var fit := chan.Fit();
    if !fit {
      ret := ContextBroken;
      return;
    }
    ret, msgs, consumed := SendPages(chan, ring, netId, create, ids, config);
  }

  /** `k` pages have been sent. */
  predicate Progress(ids: seq<u16>, config: seq<byte>, k: nat, sent: nat, sentConf: nat) {
    && sent == Min(IDS_PER_PAGE * k, |ids|) && sentConf <= |config|
    && 2 * sent + sentConf == Min(PAGE_SIZE * k, |Data(ids, config)|)
    && (sentConf > 0 ==> sent == |ids|)
  }

  lemma ProgressNext(ids: seq<u16>, config: seq<byte>, k: nat, sent: nat, n: nat, sentConf: nat, sentConf': nat)
    requires Progress(ids, config, k, sent, sentConf) && k < PageCount(|Data(ids, config)|)
    requires n == Min(IDS_PER_PAGE, |ids| - sent) && sentConf' <= |config|
    requires 2 * (sent + n) + sentConf' == Min(PAGE_SIZE * (k + 1), |Data(ids, config)|)
    requires sentConf' > 0 ==> sent + n == |ids|
    ensures Progress(ids, config, k + 1, sent + n, sentConf')
    ensures sent + n < |ids| || sentConf' < |config| <==> k + 1 < PageCount(|Data(ids, config)|)
  {
  }

  // The loop over the pages.
  method SendPages(chan: Chan<NetMsg>, ring: Ring, netId: u16, create: bool, ids: seq<u16>, config: seq<byte>)
    returns (ret: Status, ghost msgs: seq<NetMsg>, ghost consumed: nat)
    requires RingReady(ring) && |ids| <= MAX_RES && |Data(ids, config)| <= MAX_DATA
    modifies chan, ring, ring.buf
    ensures RingReady(ring) && (ret == NoError || ret == IoError)
    ensures ret == NoError <==> chan.failures == old(chan.failures) && !ring.invalid
    ensures chan.failures >= old(chan.failures) && chan.refusals == old(chan.refusals)
    ensures chan.log == old(chan.log) + msgs && ArePages(msgs, netId, create, ids, config)
    ensures consumed <= |old(ring.Contents()) + Joined(msgs)|
    ensures ring.Contents() == (old(ring.Contents()) + Joined(msgs))[consumed..]
    ensures ret == NoError ==> |msgs| == PageCount(|Data(ids, config)|)
    ensures ret == IoError ==> |msgs| < PageCount(|Data(ids, config)|)
  {
    hide IsPage, ArePages, Data, PageCount, Around, Progress, Joined, Ring.Valid, Ring.Contents, Ring.AvailBytes;
    msgs, consumed := [], 0;
    ghost var queue, log := ring.Contents(), chan.log;
    NothingSent(netId, create, ids, config, queue);
    var total := 2 * |ids| + |config|;
    var numRes: u24, size: u32, start: u24 := |ids| % MAX_RES, (total - 1) % MAX_DATA, 0;
    var sent: nat, sentConf: nat := 0, 0;
    ret := NoError;
    var more := true;
    while more
      invariant RingReady(ring) && ret == NoError && chan.failures == old(chan.failures) && chan.refusals == old(chan.refusals)
      invariant msgs != [] ==> !ring.invalid
      invariant Progress(ids, config, |msgs|, sent, sentConf) && start == sent % MAX_RES
      invariant sent <= |ids| && sentConf <= |config|
      invariant more == (|msgs| < PageCount(total)) && |msgs| <= PageCount(total)
      invariant consumed <= |queue + Joined(msgs)|
      invariant ring.Contents() == (queue + Joined(msgs))[consumed..]
      invariant chan.log == log + msgs && ArePages(msgs, netId, create, ids, config)
      decreases PageCount(total) - |msgs|
    {
      var n: nat, sentConf': nat;
      ghost var m: seq<NetMsg>, gone: nat;
      ret, m, n, sentConf', gone := SendPage(chan, ring, netId, create, numRes, size, start, ids, sent, config, sentConf, |msgs|);
      QueueGrows(queue, msgs, m, consumed, gone);
      assert log + msgs + m == log + (msgs + m);
      consumed := consumed + gone;
      if ret != NoError {
        assert msgs + m == msgs;
        return;
      }
      PagesNext(msgs, m, netId, create, ids, config);
      ProgressNext(ids, config, |msgs|, sent, n, sentConf, sentConf');
      msgs := msgs + m;
      sent, sentConf := sent + n, sentConf';
      start := (start + n) % MAX_RES;
      more := sent < |ids| || sentConf < |config|;
    }
  }

  lemma PagesNext(msgs: seq<NetMsg>, m: seq<NetMsg>, netId: u16, create: bool, ids: seq<u16>, config: seq<byte>)
    requires ArePages(msgs, netId, create, ids, config) && |m| == 1 && IsPage(m[0], |msgs|, netId, create, ids, config)
    ensures ArePages(msgs + m, netId, create, ids, config)
  {
  }

  lemma NothingSent(netId: u16, create: bool, ids: seq<u16>, config: seq<byte>, queue: seq<byte>)
    ensures ArePages([], netId, create, ids, config)
    ensures Progress(ids, config, 0, 0, 0) && Joined([]) == [] && (queue + Joined([]))[0..] == queue
  {
  }

  lemma JoinedMore(msgs: seq<NetMsg>, m: seq<NetMsg>)
    requires |m| <= 1
    ensures Joined(msgs + m) == Joined(msgs) + Joined(m)
  {
    if m == [] {
      assert msgs + m == msgs;
    } else {
      assert (msgs + m)[..|msgs|] == msgs && m[..0] == [];
    }
  }

  // Consuming some more and queueing the pages of `m`.
  lemma QueueGrows(queue: seq<byte>, msgs: seq<NetMsg>, m: seq<NetMsg>, consumed: nat, gone: nat)
    requires consumed <= |queue + Joined(msgs)| && gone <= |(queue + Joined(msgs))[consumed..]| && |m| <= 1
    ensures consumed + gone <= |queue + Joined(msgs + m)|
    ensures (queue + Joined(msgs))[consumed..][gone..] + Joined(m) == (queue + Joined(msgs + m))[consumed + gone..]
  {
    hide Joined;
    JoinedMore(msgs, m);
    DropThenAppend(queue + Joined(msgs), Joined(m), consumed, gone);
    assert queue + Joined(msgs) + Joined(m) == queue + (Joined(msgs) + Joined(m));
  }

  // Where a page ends in the data.
  lemma PageEnd(ids: seq<u16>, config: seq<byte>, k: nat, sent: nat, n: nat, sentConf: nat, c: nat)
    requires Progress(ids, config, k, sent, sentConf) && k < PageCount(|Data(ids, config)|)
    requires n == Min(IDS_PER_PAGE, |ids| - sent) && c == Min(PAGE_SIZE - 2 * n, |config| - sentConf)
    ensures 2 * (sent + n) + sentConf + c == Min(PAGE_SIZE * (k + 1), |Data(ids, config)|)
    ensures sentConf + c > 0 ==> sent + n == |ids|
    ensures sentConf > 0 ==> n == 0
    ensures 2 * sent + sentConf == Min(PAGE_SIZE * k, |Data(ids, config)|)
    ensures sent + n <= |ids| && sentConf + c <= |config| && sent == Min(IDS_PER_PAGE * k, |ids|)
  {
  }

  lemma MakesPage(m: NetMsg, k: nat, netId: u16, create: bool, ids: seq<u16>, config: seq<byte>, sent: nat, from: nat, to: nat)
    requires |Data(ids, config)| <= MAX_DATA
    requires from == Min(PAGE_SIZE * k, |Data(ids, config)|) && to == Min(PAGE_SIZE * (k + 1), |Data(ids, config)|)
    requires sent == Min(IDS_PER_PAGE * k, |ids|)
    requires |m.page| == PAGE_SIZE && m.page[..to - from] == Data(ids, config)[from..to]
    requires m == NetMsg(netId, create, |ids| % MAX_RES, (|Data(ids, config)| - 1) % MAX_DATA, sent % MAX_RES,
                         |Data(ids, config)| > PAGE_SIZE, m.page)
    ensures IsPage(m, k, netId, create, ids, config)
  {
    hide IdBytes, Data;
    Placed(m.page, Data(ids, config), k, from, to);
  }

  // The page as a whole, once it is filled.
  lemma FilledPage(buf: seq<byte>, off: nat, k: nat, netId: u16, create: bool, ids: seq<u16>, config: seq<byte>,
                   sent: nat, n: nat, sentConf: nat, c: nat, m: NetMsg)
    requires off + PAGE_SIZE <= |buf| && |Data(ids, config)| <= MAX_DATA
    requires Progress(ids, config, k, sent, sentConf) && k < PageCount(|Data(ids, config)|)
    requires n == Min(IDS_PER_PAGE, |ids| - sent) && c == Min(PAGE_SIZE - 2 * n, |config| - sentConf)
    requires PageHolds(buf, off, ids, sent, n, config, sentConf, c)
    requires m == NetMsg(netId, create, |ids| % MAX_RES, (|Data(ids, config)| - 1) % MAX_DATA, sent % MAX_RES,
                         |Data(ids, config)| > PAGE_SIZE, buf[off..off + PAGE_SIZE])
    ensures IsPage(m, k, netId, create, ids, config)
    ensures 2 * (sent + n) + sentConf + c == Min(PAGE_SIZE * (k + 1), |Data(ids, config)|)
    ensures sentConf + c > 0 ==> sent + n == |ids|
  {
    hide PageHolds, IsPage, Data, IdBytes;
    PageEnd(ids, config, k, sent, n, sentConf, c);
    HoldsNext(buf, off, ids, sent, n, config, sentConf, c);
    MakesPage(m, k, netId, create, ids, config, sent, 2 * sent + sentConf, 2 * (sent + n) + sentConf + c);
  }

  lemma HoldsNext(buf: seq<byte>, off: nat, ids: seq<u16>, sent: nat, n: nat, config: seq<byte>, sentConf: nat, c: nat)
    requires off + PAGE_SIZE <= |buf| && 2 * n + c <= PAGE_SIZE && PageHolds(buf, off, ids, sent, n, config, sentConf, c)
    requires sentConf + c > 0 ==> sent + n == |ids|
    requires sentConf > 0 ==> n == 0
    ensures buf[off..off + PAGE_SIZE][..2 * n + c] == Data(ids, config)[2 * sent + sentConf..2 * (sent + n) + sentConf + c]
  {
    hide Data, IdBytes;
    NextBytes(ids, config, sent, n, sentConf, c);
    Within(buf, off, PAGE_SIZE, 2 * n + c);
  }

  lemma Placed(page: seq<byte>, data: seq<byte>, k: nat, from: nat, to: nat)
    requires |page| == PAGE_SIZE && from == Min(PAGE_SIZE * k, |data|) && to == Min(PAGE_SIZE * (k + 1), |data|)
    requires page[..to - from] == data[from..to]
    ensures PAGE_SIZE * k <= |data| ==>
      var end := Min(PAGE_SIZE * (k + 1), |data|);
      page[..end - PAGE_SIZE * k] == data[PAGE_SIZE * k..end]
  {
  }

  lemma NoPages()
    ensures Joined([]) == []
  {
  }

  lemma OnePage(msg: NetMsg)
    ensures Joined([msg]) == msg.page
  {
    assert [msg][..0] == [];
  }

  // One round of the loop.
  method SendPage(chan: Chan<NetMsg>, ring: Ring, netId: u16, create: bool, numRes: u24, size: u32, start: u24,
                  ids: seq<u16>, sent: nat, config: seq<byte>, sentConf: nat, ghost k: nat)
    returns (ret: Status, ghost m: seq<NetMsg>, n: nat, sentConf': nat, ghost consumed: nat)
    requires RingReady(ring) && |ids| <= MAX_RES && |Data(ids, config)| <= MAX_DATA
    requires numRes == |ids| % MAX_RES && size == (|Data(ids, config)| - 1) % MAX_DATA
    requires Progress(ids, config, k, sent, sentConf) && start == sent % MAX_RES && sent <= |ids| && sentConf <= |config|
    requires k < PageCount(|Data(ids, config)|)
    modifies chan, ring, ring.buf
    ensures RingReady(ring) && (ret == NoError || ret == IoError)
    ensures ret == NoError <==> chan.failures == old(chan.failures) && !ring.invalid
    ensures chan.failures >= old(chan.failures) && chan.refusals == old(chan.refusals)
    ensures chan.log == old(chan.log) + m && |m| <= 1
    ensures consumed <= |old(ring.Contents())| && ring.Contents() == old(ring.Contents())[consumed..] + Joined(m)
    ensures ret == NoError ==>
      && |m| == 1 && IsPage(m[0], k, netId, create, ids, config)
      && n == Min(IDS_PER_PAGE, |ids| - sent) && sentConf <= sentConf' <= |config|
      && 2 * (sent + n) + sentConf' == Min(PAGE_SIZE * (k + 1), |Data(ids, config)|)
      && (sentConf' > 0 ==> sent + n == |ids|)
    ensures ret != NoError ==> m == []
  {
    hide IsPage, IdBytes, Around, OnlyPage, Progress, PageCount, Data, Joined, PageHolds;
    m, n, sentConf' := [], 0, sentConf;
    NoPages();
    var ok, off;
    ok, off, consumed := LockPage(ring);
    if !ok {
      ret := IoError;
      return;
    }
    ghost var was := ring.buf[..];
    var c;
    n, c := FillPage(ring.buf, off, ids, sent, config, sentConf);
    FillKeepsQueue(ring, was, off);
    var page := ring.buf[..][off..off + PAGE_SIZE];
    var msg := NetMsg(netId, create, numRes, size, start, 2 * |ids| + |config| > PAGE_SIZE, page);
    FilledPage(ring.buf[..], off, k, netId, create, ids, config, sent, n, sentConf, c, msg);
    ok := Announce(chan, ring, off, msg);
    if !ok {
      ret := IoError;
      return;
    }
    OnePage(msg);
    m, sentConf' := [msg], sentConf + c;
    ret := NoError;
  }
}
