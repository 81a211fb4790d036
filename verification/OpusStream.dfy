/** What a complete Ogg/Opus recording is: sections 4 and 5 of RFC 7845 over the pages of RFC 3533. */
module OpusStream {
  import opened Wrappers
  import opened Bits
  import opened OggLacing
  import opened OggPage

  const OPUS_HEAD: seq<byte> := [0x4f, 0x70, 0x75, 0x73, 0x48, 0x65, 0x61, 0x64]
  const OPUS_TAGS: seq<byte> := [0x4f, 0x70, 0x75, 0x73, 0x54, 0x61, 0x67, 0x73]

  const MAXIMUM_BYTES: nat := 0x80_0000
  const MAXIMUM_DURATION_MS: nat := 300_000
  const MAXIMUM_SAMPLES: nat := MAXIMUM_DURATION_MS * 48
  const U32: nat := 0x1_0000_0000
  const U64: nat := 0x1_0000_0000_0000_0000

  /** The content of one page; the granule is None when all its bits are set. */
  datatype Page = Page(continued: bool, bos: bool, eos: bool, granule: Option<nat>,
                       serial: nat, sequence: nat, segments: seq<Segment>)

  function DecodePage(p: seq<byte>): (page: Page)
    requires Framed(p)
  {
    Page(Continued(p), Bos(p), Eos(p), if Granule(p) == NO_GRANULE then None else Some(Granule(p)),
         Serial(p), Sequence(p), Segments(p))
  }

  /** `data` is exactly the well-formed pages `raw`, one after the other, whose contents are `pages`. */
  ghost predicate Chain(data: seq<byte>, raw: seq<seq<byte>>, pages: seq<Page>) {
    && Join(raw) == data && AllWellFormed(raw) && |raw| == |pages|
    && forall i :: 0 <= i < |raw| ==> Framed(raw[i]) && pages[i] == DecodePage(raw[i])
  }

  function AllSegments(pages: seq<Page>): (s: seq<Segment>) {
    if pages == [] then [] else AllSegments(pages[..|pages| - 1]) + pages[|pages| - 1].segments
  }

  function Packets(pages: seq<Page>): (s: Split) {
    SplitPackets(AllSegments(pages))
  }

  predicate ValidHead(packet: seq<byte>) {
    |packet| >= 19 && packet[..8] == OPUS_HEAD && packet[8] != 0 && packet[9] != 0
  }

  predicate ValidTags(packet: seq<byte>) {
    |packet| >= 16 && packet[..8] == OPUS_TAGS
  }

  /** The identification header, then the comment header, then audio packets that are not empty. */
  predicate PacketOk(k: nat, packet: seq<byte>) {
    if k == 0 then ValidHead(packet) else if k == 1 then ValidTags(packet) else packet != []
  }

  predicate PacketsOk(packets: seq<seq<byte>>) {
    forall k :: 0 <= k < |packets| ==> PacketOk(k, packets[k])
  }

  /** The pre-skip as far as the packets seen reveal it. */
  function PreSkip(packets: seq<seq<byte>>): (n: nat) {
    if packets != [] && ValidHead(packets[0]) then LittleEndian(packets[0][10..12]) else 0
  }

  function LastGranule(pages: seq<Page>): (g: Option<nat>) {
    if pages == [] then None
    else if pages[|pages| - 1].granule.Some? then pages[|pages| - 1].granule
    else LastGranule(pages[..|pages| - 1])
  }

  /** The grammar of an admitted recording. */
  ghost predicate ValidStream(pages: seq<Page>) {
    // one logical stream, numbered from zero, opened once and closed at most once, at the end
    && (forall i :: 0 <= i < |pages| ==>
          && pages[i].serial == pages[0].serial
          && pages[i].sequence == i % U32
          && (pages[i].bos <==> i == 0)
          && (pages[i].eos ==> i == |pages| - 1)
          && (pages[i].continued <==> OpenPacket(AllSegments(pages[..i]))))
    // granule positions never go back and stay within the limit
    && (forall i, j :: 0 <= i < j < |pages| && pages[i].granule.Some? && pages[j].granule.Some? ==>
          pages[i].granule.value <= pages[j].granule.value)
    && (forall i :: 0 <= i < |pages| && pages[i].granule.Some? ==>
          pages[i].granule.value <= PreSkip(Packets(pages[..i + 1]).packets) + MAXIMUM_SAMPLES)
    // both headers and some audio, all packets closed, and sound after the pre-skip
    && PacketsOk(Packets(pages).packets)
    && Finished(pages)
  }

  predicate Finished(pages: seq<Page>) {
    && !OpenPacket(AllSegments(pages))
    && |Packets(pages).packets| >= 3
    && LastGranule(pages).Some?
    && LastGranule(pages).value > PreSkip(Packets(pages).packets)
  }

  /** Samples at 48 kHz after the pre-skip, in milliseconds rounded up. */
  function DurationMs(pages: seq<Page>): (ms: nat)
    requires Finished(pages)
  {
    (LastGranule(pages).value - PreSkip(Packets(pages).packets) + 47) / 48
  }

  // ----- The same grammar, page by page -----

  ghost predicate OrderOk(hist: seq<Page>, p: Page) {
    && (p.bos <==> hist == [])
    && (forall i :: 0 <= i < |hist| ==> !hist[i].eos && hist[i].serial == p.serial)
    && p.sequence == |hist| % U32
    && (p.continued <==> OpenPacket(AllSegments(hist)))
  }

  ghost predicate GranuleOk(hist: seq<Page>, p: Page) {
    p.granule.Some? ==>
      && (forall i :: 0 <= i < |hist| && hist[i].granule.Some? ==> hist[i].granule.value <= p.granule.value)
      && p.granule.value <= PreSkip(Packets(hist + [p]).packets) + MAXIMUM_SAMPLES
  }

  /** Whether a page may follow the pages before it. */
  ghost predicate PageOk(hist: seq<Page>, p: Page) {
    OrderOk(hist, p) && PacketsOk(Packets(hist + [p]).packets) && GranuleOk(hist, p)
  }

  ghost predicate AllPagesOk(pages: seq<Page>) {
    forall k :: 0 <= k < |pages| ==> PageOk(pages[..k], pages[k])
  }

  lemma PageOkInStream(pages: seq<Page>, k: nat)
    requires ValidStream(pages) && k < |pages|
    ensures PageOk(pages[..k], pages[k])
  {
    hide OrderOk, GranuleOk, Packets, AllSegments, LastGranule, PacketOk, PreSkip, Finished;
    OrderInStream(pages, k);
    GranuleInStream(pages, k);
    assert pages[..k] + [pages[k]] == pages[..k + 1];
    PacketsPrefix(pages, k + 1);
  }

  lemma OrderInStream(pages: seq<Page>, k: nat)
    requires ValidStream(pages) && k < |pages|
    ensures OrderOk(pages[..k], pages[k])
  {
    hide Packets, AllSegments, LastGranule, PacketsOk, PreSkip, Finished;
  }

  lemma GranuleInStream(pages: seq<Page>, k: nat)
    requires ValidStream(pages) && k < |pages|
    ensures GranuleOk(pages[..k], pages[k])
  {
    hide Packets, AllSegments, LastGranule, PacketsOk, PreSkip, Finished;
    assert pages[..k] + [pages[k]] == pages[..k + 1];
  }

  lemma {:induction false} SegmentsAppend(a: seq<Page>, b: seq<Page>)
    ensures AllSegments(a + b) == AllSegments(a) + AllSegments(b)
    decreases |b|
  {
    if b == [] {
      assert a + b == a;
    } else {
      assert (a + b)[..|a + b| - 1] == a + b[..|b| - 1];
      SegmentsAppend(a, b[..|b| - 1]);
    }
  }

  lemma PacketsPrefix(pages: seq<Page>, k: nat)
    requires k <= |pages|
    ensures Packets(pages[..k]).packets <= Packets(pages).packets
  {
    hide AllSegments, SplitPackets;
    assert pages == pages[..k] + pages[k..];
    SegmentsAppend(pages[..k], pages[k..]);
    SplitPrefix(AllSegments(pages[..k]), AllSegments(pages[k..]));
  }

  /** The grammar holds exactly when every page may follow the ones before it and the end is complete. */
  lemma StreamPageByPage(pages: seq<Page>)
    ensures ValidStream(pages) <==> AllPagesOk(pages) && Finished(pages)
  {
    hide ValidStream, PageOk, Finished;
    if ValidStream(pages) {
      forall k | 0 <= k < |pages|
        ensures PageOk(pages[..k], pages[k])
      {
        PageOkInStream(pages, k);
      }
      StreamFinished(pages);
    }
    if AllPagesOk(pages) && Finished(pages) {
      StreamFromPages(pages);
    }
  }

  lemma StreamFinished(pages: seq<Page>)
    requires ValidStream(pages)
    ensures Finished(pages)
  {
  }

  lemma StreamFromPages(pages: seq<Page>)
    requires AllPagesOk(pages) && Finished(pages)
    ensures ValidStream(pages)
  {
    hide Packets, AllSegments, LastGranule, PacketOk, PreSkip, PageOk, Finished;
    forall i | 0 <= i < |pages|
      ensures && pages[i].serial == pages[0].serial && pages[i].sequence == i % U32
              && (pages[i].bos <==> i == 0) && (pages[i].eos ==> i == |pages| - 1)
              && (pages[i].continued <==> OpenPacket(AllSegments(pages[..i])))
    {
      OrderFromPages(pages, i);
    }
    forall i, j | 0 <= i < j < |pages| && pages[i].granule.Some? && pages[j].granule.Some?
      ensures pages[i].granule.value <= pages[j].granule.value
    {
      GranulesFromPages(pages, i, j);
    }
    forall i | 0 <= i < |pages| && pages[i].granule.Some?
      ensures pages[i].granule.value <= PreSkip(Packets(pages[..i + 1]).packets) + MAXIMUM_SAMPLES
    {
      LimitFromPages(pages, i);
    }
    PacketsFromPages(pages);
  }

  lemma OrderFromPages(pages: seq<Page>, i: nat)
    requires AllPagesOk(pages) && i < |pages|
    ensures && pages[i].serial == pages[0].serial && pages[i].sequence == i % U32
            && (pages[i].bos <==> i == 0) && (pages[i].eos ==> i == |pages| - 1)
            && (pages[i].continued <==> OpenPacket(AllSegments(pages[..i])))
  {
    hide Packets, AllSegments, PacketsOk, GranuleOk, OpenPacket;
    var n := |pages| - 1;
    assert PageOk(pages[..i], pages[i]) && PageOk(pages[..n], pages[n]);
    assert i > 0 ==> pages[..i][0] == pages[0];
    assert i < n ==> pages[..n][i] == pages[i];
  }

  lemma GranulesFromPages(pages: seq<Page>, i: nat, j: nat)
    requires AllPagesOk(pages) && i < j < |pages| && pages[i].granule.Some? && pages[j].granule.Some?
    ensures pages[i].granule.value <= pages[j].granule.value
  {
    hide Packets, AllSegments, PacketsOk, OrderOk, PreSkip;
    assert PageOk(pages[..j], pages[j]);
    assert pages[..j][i] == pages[i];
  }

  lemma LimitFromPages(pages: seq<Page>, i: nat)
    requires AllPagesOk(pages) && i < |pages| && pages[i].granule.Some?
    ensures pages[i].granule.value <= PreSkip(Packets(pages[..i + 1]).packets) + MAXIMUM_SAMPLES
  {
    hide Packets, AllSegments, PacketsOk, OrderOk, PreSkip;
    assert PageOk(pages[..i], pages[i]);
    assert pages[..i] + [pages[i]] == pages[..i + 1];
  }

  lemma PacketsFromPages(pages: seq<Page>)
    requires AllPagesOk(pages)
    ensures PacketsOk(Packets(pages).packets)
  {
    hide PacketsOk, OrderOk, GranuleOk, SplitPackets;
    if pages == [] {
      NoPackets();
    } else {
      var n := |pages| - 1;
      assert PageOk(pages[..n], pages[n]);
      assert pages[..n] + [pages[n]] == pages;
    }
  }

  lemma NoPackets()
    ensures Packets([]) == Split([], []) && PacketsOk(Packets([]).packets)
  {
  }

  // ----- Packets do not depend on where pages end -----

  function AllLacing(raw: seq<seq<byte>>): (l: seq<byte>)
    requires forall i :: 0 <= i < |raw| ==> Framed(raw[i])
  {
    if raw == [] then [] else AllLacing(raw[..|raw| - 1]) + Lacing(raw[|raw| - 1])
  }

  function AllBodies(raw: seq<seq<byte>>): (b: seq<byte>)
    requires forall i :: 0 <= i < |raw| ==> Framed(raw[i])
  {
    if raw == [] then [] else AllBodies(raw[..|raw| - 1]) + Body(raw[|raw| - 1])
  }

  /** Packets rebuilt page by page are those of all bodies laid end to end under all lacing values. */
  lemma {:induction false} PacketsIgnorePages(data: seq<byte>, raw: seq<seq<byte>>, pages: seq<Page>)
    requires Chain(data, raw, pages)
    ensures |AllBodies(raw)| == Sum(AllLacing(raw))
    ensures Packets(pages) == SplitPackets(Cut(AllLacing(raw), AllBodies(raw)))
    ensures AllSegments(pages) == Cut(AllLacing(raw), AllBodies(raw))
    decreases |raw|
  {
    hide SplitPackets, Cut, Sum, Join, WellFormedPage, Framed;
    if raw == [] {
      CutEmpty();
    } else {
      var n := |raw| - 1;
      PacketsIgnorePages(Join(raw[..n]), raw[..n], pages[..n]);
      FramedParts(raw[n]);
      CutAppend(AllLacing(raw[..n]), AllBodies(raw[..n]), Lacing(raw[n]), Body(raw[n]));
    }
  }

  lemma FramedParts(p: seq<byte>)
    requires Framed(p)
    ensures |Body(p)| == Sum(Lacing(p)) && Segments(p) == Cut(Lacing(p), Body(p))
  {
    hide Cut, Sum;
  }

  // ----- What an admitted recording is worth -----

  /** The duration is at least one millisecond and never exceeds the limit. */
  lemma DurationInRange(pages: seq<Page>)
    requires ValidStream(pages)
    ensures 1 <= DurationMs(pages) <= MAXIMUM_DURATION_MS
    ensures LastGranule(pages).value <= PreSkip(Packets(pages).packets) + MAXIMUM_SAMPLES
    ensures PreSkip(Packets(pages).packets) + MAXIMUM_SAMPLES < U64
  {
    hide Packets, AllSegments, LastGranule, PreSkip, ValidStream;
    StreamFinished(pages);
    StreamLimit(pages);
    PreSkipBound(Packets(pages).packets);
  }

  lemma StreamLimit(pages: seq<Page>)
    requires ValidStream(pages)
    ensures LastGranule(pages).Some?
    ensures LastGranule(pages).value <= PreSkip(Packets(pages).packets) + MAXIMUM_SAMPLES
  {
    hide Packets, AllSegments, LastGranule, PreSkip;
    var i := LastGranuleAt(pages);
    PreSkipGrows(pages, i + 1);
  }

  lemma {:induction false} LastGranuleAt(pages: seq<Page>) returns (i: nat)
    requires LastGranule(pages).Some?
    ensures i < |pages| && pages[i].granule == LastGranule(pages)
  {
    i := |pages| - 1;
    if pages[i].granule.None? {
      i := LastGranuleAt(pages[..i]);
    }
  }

  lemma PreSkipGrows(pages: seq<Page>, k: nat)
    requires k <= |pages|
    ensures PreSkip(Packets(pages[..k]).packets) <= PreSkip(Packets(pages).packets)
  {
    hide Packets, LittleEndian, ValidHead;
    PacketsPrefix(pages, k);
  }

  lemma PreSkipBound(packets: seq<seq<byte>>)
    ensures PreSkip(packets) < 0x1_0000
  {
    if packets != [] && ValidHead(packets[0]) {
      var b := packets[0][10..12];
      assert LittleEndian(b[1..]) == b[1] + 256 * LittleEndian(b[1..][1..]);
      assert b[1..][1..] == [];
    }
  }
}
