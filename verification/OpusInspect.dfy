/** The single-pass inspector: accepts exactly the recordings of the grammar in OpusStream. */
module OpusInspect {
  import opened Wrappers
  import opened Bits
  import opened OggCrc
  import opened OggLacing
  import opened OggPage
  import opened OpusStream

  /** The variables the loop carries from page to page. */
  datatype Scan = Scan(serial: nat, nextSequence: nat, packet: seq<byte>, packetCount: nat, preSkip: nat,
                       priorGranule: nat, lastGranule: nat, seenEOS: bool)

  function GranuleBits(g: Option<nat>): nat {
    if g.Some? then g.value else NO_GRANULE
  }

  /** The packet variables after the segments `done`. */
  ghost predicate ScansPackets(s: Scan, done: seq<Segment>) {
    && s.packet == SplitPackets(done).pending
    && s.packetCount == |SplitPackets(done).packets|
    && s.preSkip == PreSkip(SplitPackets(done).packets)
  }

  /** The loop variables after `pages`, none of which was out of place. */
  ghost predicate Scans(s: Scan, pages: seq<Page>) {
    && AllPagesOk(pages)
    && ScansPackets(s, AllSegments(pages))
    && s.nextSequence == |pages| % U32
    && (pages != [] ==> s.serial == pages[0].serial)
    && s.priorGranule == s.lastGranule == GranuleBits(LastGranule(pages))
    && (LastGranule(pages).Some? ==> LastGranule(pages).value != NO_GRANULE)
    && (s.seenEOS <==> pages != [] && pages[|pages| - 1].eos)
  }

  // ----- One segment -----

  method FinishPacket(s: Scan) returns (ok: bool, r: Scan)
    ensures ok <==> PacketOk(s.packetCount, s.packet)
    ensures ok ==> r == s.(packet := [], packetCount := s.packetCount + 1,
                           preSkip := if s.packetCount == 0 then LittleEndian(s.packet[10..12]) else s.preSkip)
  {
    hide LittleEndian;
    ok, r := false, s.(packetCount := s.packetCount + 1);
    if r.packetCount == 1 {
      if |s.packet| < 19 || s.packet[..8] != OPUS_HEAD || s.packet[8] == 0 || s.packet[9] == 0 {
        return;
      }
      r := r.(preSkip := LittleEndian(s.packet[10..12]));
    } else if r.packetCount == 2 {
      if |s.packet| < 16 || s.packet[..8] != OPUS_TAGS {
        return;
      }
    } else if |s.packet| == 0 {
      return;
    }
    ok, r := true, r.(packet := []);
  }

  lemma OkNext(packets: seq<seq<byte>>, packet: seq<byte>)
    requires PacketsOk(packets)
    ensures PacketsOk(packets + [packet]) <==> PacketOk(|packets|, packet)
    ensures PacketOk(|packets|, packet) ==>
      PreSkip(packets + [packet]) == if packets == [] then LittleEndian(packet[10..12]) else PreSkip(packets)
  {
    hide PacketOk, ValidHead, LittleEndian;
    var all := packets + [packet];
    assert all[|packets|] == packet;
    if packets != [] {
      assert all[0] == packets[0];
    } else {
      HeadOk(packet);
    }
  }

  lemma HeadOk(packet: seq<byte>)
    ensures PacketOk(0, packet) ==> ValidHead(packet) && |packet| >= 19
  {
  }

  method AddOne(s: Scan, segment: Segment, ghost done: seq<Segment>) returns (ok: bool, r: Scan)
    requires ScansPackets(s, done) && PacketsOk(SplitPackets(done).packets)
    ensures ok <==> PacketsOk(SplitPackets(done + [segment]).packets)
    ensures ok ==> ScansPackets(r, done + [segment])
    ensures ok ==> r == s.(packet := r.packet, packetCount := r.packetCount, preSkip := r.preSkip)
  {
    hide SplitPackets, PacketsOk, PacketOk, PreSkip, LittleEndian;
    SplitAppend(done, segment);
    r := s.(packet := s.packet + segment);
    ok := true;
    if |segment| < 255 {
      OkNext(SplitPackets(done).packets, r.packet);
      ok, r := FinishPacket(r);
    }
  }

  // ----- One page -----

  lemma {:induction false} CutAt(l: seq<byte>, b: seq<byte>, k: nat)
    requires |b| == Sum(l) && k < |l|
    ensures Sum(l[..k]) + l[k] <= |b|
    ensures Cut(l, b)[k] == b[Sum(l[..k])..Sum(l[..k]) + l[k]]
  {
    hide Cut, Sum;
    SumFirst(l);
    CutFirst(l, b, l[0], l[1..], b[l[0]..]);
    if k == 0 {
      CutEmpty();
      assert l[..0] == [];
    } else {
      var n := l[0];
      CutAt(l[1..], b[n..], k - 1);
      SumFirst(l[..k]);
      assert l[..k][1..] == l[1..][..k - 1];
      SliceOfSlice(b, n, Sum(l[1..][..k - 1]), Sum(l[1..][..k - 1]) + l[k]);
    }
  }

  lemma SliceOfSlice<T>(b: seq<T>, n: nat, i: nat, j: nat)
    requires n <= |b| && i <= j <= |b| - n
    ensures b[n..][i..j] == b[n + i..n + j]
  {
  }

  method ReadPackets(s: Scan, page: seq<byte>, ghost before: seq<Segment>) returns (ok: bool, r: Scan)
    requires Framed(page) && ScansPackets(s, before) && PacketsOk(SplitPackets(before).packets)
    ensures ok <==> PacketsOk(SplitPackets(before + Segments(page)).packets)
    ensures ok ==> ScansPackets(r, before + Segments(page))
    ensures ok ==> r == s.(packet := r.packet, packetCount := r.packetCount, preSkip := r.preSkip)
  {
    hide SplitPackets, PacketsOk, Cut, Sum, ScansPackets, PageLength;
    var n := SegmentCount(page);
    var lacing, body := page[27..27 + n], page[27 + n..];
    ghost var segs := Segments(page);
    FramedBody(page);
    CutEmpty();
    assert before + segs[..0] == before;
    r, ok := s, true;
    var bodyOffset: nat := 0;
    for k := 0 to n
      invariant bodyOffset == Sum(lacing[..k])
      invariant PacketsOk(SplitPackets(before + segs[..k]).packets)
      invariant ScansPackets(r, before + segs[..k])
      invariant r == s.(packet := r.packet, packetCount := r.packetCount, preSkip := r.preSkip)
    {
      CutAt(lacing, body, k);
      SumNext(lacing, k);
      assert before + segs[..k] + [segs[k]] == before + segs[..k + 1];
      ok, r := AddOne(r, body[bodyOffset..bodyOffset + lacing[k]], before + segs[..k]);
      if !ok {
        BadPacketStays(before, segs, k + 1);
        return;
      }
      bodyOffset := bodyOffset + lacing[k];
    }
    assert segs[..n] == segs;
    ok := true;
  }

  lemma FramedBody(page: seq<byte>)
    requires Framed(page)
    ensures |Body(page)| == Sum(Lacing(page)) && |Segments(page)| == SegmentCount(page)
  {
    hide Sum;
  }

  lemma BadPacketStays(before: seq<Segment>, segs: seq<Segment>, k: nat)
    requires k <= |segs| && !PacketsOk(SplitPackets(before + segs[..k]).packets)
    ensures !PacketsOk(SplitPackets(before + segs).packets)
  {
    hide SplitPackets, PacketOk;
    assert before + segs == (before + segs[..k]) + segs[k..];
    SplitPrefix(before + segs[..k], segs[k..]);
  }

  /** Order of pages, judged from the loop variables. */
  method CheckOrder(s: Scan, first: bool, page: seq<byte>, ghost pages: seq<Page>) returns (ok: bool)
    requires Framed(page) && Scans(s, pages) && (first <==> pages == [])
    ensures ok <==> OrderOk(pages, DecodePage(page))
  {
    hide PacketsOk, GranuleOk, SplitPackets, AllSegments, LastGranule, PreSkip, PageLength, Segments, LittleEndian;
    OpenIffPending(s, pages);
    if !first {
      EarlierPages(pages);
    } else {
      NoSegments();
    }
    ok := false;
    if s.seenEOS {
      assert pages[|pages| - 1].eos;
      return;
    }
    if first {
      ok := Bos(page) && !Continued(page) && Sequence(page) == 0;
    } else {
      assert pages[|pages| - 1].serial == s.serial;
      ok := !Bos(page) && Serial(page) == s.serial && Sequence(page) == s.nextSequence
            && Continued(page) == (|s.packet| > 0);
    }
  }

  lemma NoSegments()
    ensures AllSegments([]) == []
  {
  }

  /** A non-empty packet variable is an exact test for an open packet. */
  lemma OpenIffPending(s: Scan, pages: seq<Page>)
    requires ScansPackets(s, AllSegments(pages))
    ensures |s.packet| > 0 <==> OpenPacket(AllSegments(pages))
  {
    hide SplitPackets;
    OpenNonEmpty(AllSegments(pages));
  }

  lemma EarlierPages(pages: seq<Page>)
    requires AllPagesOk(pages) && pages != []
    ensures forall i :: 0 <= i < |pages| ==> pages[i].serial == pages[0].serial && (pages[i].eos ==> i == |pages| - 1)
  {
    hide AllPagesOk, AllSegments;
    forall i | 0 <= i < |pages|
      ensures pages[i].serial == pages[0].serial && (pages[i].eos ==> i == |pages| - 1)
    {
      OrderFromPages(pages, i);
    }
  }

  /** The last granule set is the largest so far. */
  lemma LastGranuleIsGreatest(pages: seq<Page>, i: nat)
    requires AllPagesOk(pages) && i < |pages| && pages[i].granule.Some?
    ensures LastGranule(pages).Some? && pages[i].granule.value <= LastGranule(pages).value
  {
    hide AllPagesOk;
    var j := LastSet(pages, i);
    if i < j {
      GranulesFromPages(pages, i, j);
    }
  }

  lemma {:induction false} LastSet(pages: seq<Page>, i: nat) returns (j: nat)
    requires i < |pages| && pages[i].granule.Some?
    ensures i <= j < |pages| && pages[j].granule.Some? && LastGranule(pages) == pages[j].granule
    decreases |pages|
  {
    j := |pages| - 1;
    if pages[j].granule.None? {
      assert pages[..j][i] == pages[i];
      j := LastSet(pages[..j], i);
    }
  }

  /** Granule order and limit, judged from the loop variables, with the sum taken in 64 bits. */
  method CheckGranule(s: Scan, granule: nat, ghost pages: seq<Page>, ghost p: Page) returns (ok: bool, r: Scan)
    requires AllPagesOk(pages)
    requires s.priorGranule == GranuleBits(LastGranule(pages)) && s.lastGranule == s.priorGranule
    requires LastGranule(pages).Some? ==> LastGranule(pages).value != NO_GRANULE
    requires s.preSkip == PreSkip(Packets(pages + [p]).packets)
    requires p.granule == if granule == NO_GRANULE then None else Some(granule)
    ensures ok <==> GranuleOk(pages, p)
    ensures ok ==> r == s.(priorGranule := r.priorGranule, lastGranule := r.priorGranule)
    ensures ok ==> r.priorGranule == GranuleBits(if p.granule.Some? then p.granule else LastGranule(pages))
  {
    hide AllPagesOk, Packets, PreSkip, LastGranule;
    ok, r := true, s;
    if granule != NO_GRANULE {
      PreSkipBound(Packets(pages + [p]).packets);
      OrderOfGranules(pages, granule);
      if s.priorGranule != NO_GRANULE && granule < s.priorGranule {
        return false, s;
      }
      r := s.(priorGranule := granule, lastGranule := granule);
      var maximumSamples := MAXIMUM_DURATION_MS * 48 % U64;
      ok := !(granule > (s.preSkip + maximumSamples) % U64);
    }
  }

  lemma OrderOfGranules(pages: seq<Page>, granule: nat)
    requires AllPagesOk(pages)
    ensures (LastGranule(pages).Some? ==> LastGranule(pages).value <= granule)
       <==> forall i :: 0 <= i < |pages| && pages[i].granule.Some? ==> pages[i].granule.value <= granule
  {
    hide AllPagesOk, LastGranule;
    forall i | 0 <= i < |pages| && pages[i].granule.Some?
      ensures LastGranule(pages).Some? && pages[i].granule.value <= LastGranule(pages).value
    {
      LastGranuleIsGreatest(pages, i);
    }
    if LastGranule(pages).Some? {
      var i := LastGranuleAt(pages);
    }
  }

  /** The loop body once a page has been read: `ok` exactly when the page may come next. */
  method AdmitPage(s: Scan, first: bool, page: seq<byte>, ghost pages: seq<Page>) returns (ok: bool, r: Scan)
    requires Framed(page) && Scans(s, pages) && (first <==> pages == [])
    ensures ok <==> PageOk(pages, DecodePage(page))
    ensures ok ==> Scans(r, pages + [DecodePage(page)])
  {
    hide Scans, AllPagesOk, SplitPackets, AllSegments, LastGranule, PreSkip, PacketsOk, GranuleOk, OrderOk,
      PageLength, Segments, LittleEndian;
    ghost var p := DecodePage(page);
    ok := CheckOrder(s, first, page, pages);
    if !ok {
      return false, s;
    }
    SegmentsNext(pages, p);
    r := s.(serial := if first then Serial(page) else s.serial, nextSequence := (Sequence(page) + 1) % U32);
    ScansStart(s, r, pages);
    ok, r := ReadPackets(r, page, AllSegments(pages));
    if !ok {
      return;
    }
    ok, r := CheckGranule(r, Granule(page), pages, p);
    if !ok {
      return;
    }
    r := r.(seenEOS := Eos(page));
    ScansNext(s, r, pages, p);
  }

  lemma ScansStart(s: Scan, r: Scan, pages: seq<Page>)
    requires Scans(s, pages) && r == s.(serial := r.serial, nextSequence := r.nextSequence)
    ensures ScansPackets(r, AllSegments(pages)) && PacketsOk(SplitPackets(AllSegments(pages)).packets)
    ensures AllPagesOk(pages) && r.priorGranule == r.lastGranule == GranuleBits(LastGranule(pages))
    ensures LastGranule(pages).Some? ==> LastGranule(pages).value != NO_GRANULE
  {
    hide AllPagesOk, SplitPackets, AllSegments, LastGranule, PreSkip, PacketsOk;
    PacketsFromPages(pages);
  }

  lemma SegmentsNext(pages: seq<Page>, p: Page)
    ensures AllSegments(pages + [p]) == AllSegments(pages) + p.segments
  {
    assert (pages + [p])[..|pages|] == pages;
  }

  lemma ScansNext(s: Scan, r: Scan, pages: seq<Page>, p: Page)
    requires Scans(s, pages) && PageOk(pages, p)
    requires ScansPackets(r, AllSegments(pages + [p]))
    requires r.serial == (if pages == [] then p.serial else s.serial) && r.nextSequence == (p.sequence + 1) % U32
    requires r.priorGranule == r.lastGranule == GranuleBits(if p.granule.Some? then p.granule else LastGranule(pages))
    requires p.granule.Some? ==> p.granule.value != NO_GRANULE
    requires r.seenEOS == p.eos
    ensures Scans(r, pages + [p])
  {
    hide AllSegments, ScansPackets;
    PagesNext(pages, p);
    assert (pages + [p])[..|pages|] == pages;
    SequenceNext(pages, p);
  }

  lemma SequenceNext(pages: seq<Page>, p: Page)
    requires PageOk(pages, p)
    ensures (p.sequence + 1) % U32 == |pages + [p]| % U32
  {
    hide AllSegments, PacketsOk, GranuleOk;
  }

  lemma PagesNext(pages: seq<Page>, p: Page)
    requires AllPagesOk(pages)
    ensures AllPagesOk(pages + [p]) <==> PageOk(pages, p)
  {
    hide PageOk;
    var all := pages + [p];
    forall k | 0 <= k < |pages|
      ensures PageOk(all[..k], all[k])
    {
      assert all[..k] == pages[..k];
    }
    assert all[..|pages|] == pages && all[|pages|] == p;
  }

  // ----- The whole recording -----

  datatype Verdict = Accepted(durationMs: nat) | Rejected

  /** `data` is an admitted recording, and this is how it is made up. */
  ghost predicate Recording(data: seq<byte>, raw: seq<seq<byte>>, pages: seq<Page>) {
    Chain(data, raw, pages) && ValidStream(pages)
  }

  /** Whatever was read so far begins every chain of the whole, and the next page is forced. */
  lemma NextPageForced(data: seq<byte>, offset: nat, raw: seq<seq<byte>>, pages: seq<Page>,
                       raw': seq<seq<byte>>, pages': seq<Page>)
    requires offset < |data| && Chain(data[..offset], raw, pages) && Chain(data, raw', pages')
    ensures |pages| < |pages'| && pages == pages'[..|pages|]
    ensures HasPage(data[offset..])
    ensures raw'[|pages|] == data[offset..][..PageLength(data[offset..])]
    ensures Framed(raw'[|pages|]) && pages'[|pages|] == DecodePage(raw'[|pages|])
  {
    hide WellFormedPage, HasPage, PageLength, DecodePage, Join;
    PagesUnique(raw, raw');
    var n := |raw|;
    assert raw' == raw + raw'[n..];
    JoinAppend(raw, raw'[n..]);
    JoinNone();
    JoinFirst(raw'[n..]);
    assert forall i :: 0 <= i < n ==> pages[i] == DecodePage(raw[i]) && raw[i] == raw'[i];
    var d := data[offset..];
    assert d == Join(raw'[n..]) by {
      assert data == data[..offset] + Join(raw'[n..]);
    }
    FirstPage(d, raw'[n]);
  }

  lemma NoPageNoRecording(data: seq<byte>, offset: nat, raw: seq<seq<byte>>, pages: seq<Page>)
    requires offset < |data| && Chain(data[..offset], raw, pages) && !HasPage(data[offset..])
    ensures !exists raw', pages' :: Recording(data, raw', pages')
  {
    hide Chain, HasPage, ValidStream;
    forall raw', pages' | Recording(data, raw', pages')
      ensures false
    {
      NextPageForced(data, offset, raw, pages, raw', pages');
    }
  }

  lemma BadPageNoRecording(data: seq<byte>, offset: nat, raw: seq<seq<byte>>, pages: seq<Page>, page: seq<byte>)
    requires offset < |data| && Chain(data[..offset], raw, pages)
    requires HasPage(data[offset..]) && page == data[offset..][..PageLength(data[offset..])]
    requires Framed(page) && !PageOk(pages, DecodePage(page))
    ensures !exists raw', pages' :: Recording(data, raw', pages')
  {
    hide Chain, PageLength, ValidStream, PageOk, DecodePage, PageCrc;
    forall raw', pages' | Recording(data, raw', pages')
      ensures false
    {
      NextPageForced(data, offset, raw, pages, raw', pages');
      PageOkInStream(pages', |pages|);
    }
  }

  lemma ChainNext(data: seq<byte>, offset: nat, raw: seq<seq<byte>>, pages: seq<Page>, page: seq<byte>)
    requires offset < |data| && Chain(data[..offset], raw, pages)
    requires WellFormedPage(page) && page <= data[offset..]
    ensures 27 <= |page| && offset + |page| <= |data|
    ensures Chain(data[..offset + |page|], raw + [page], pages + [DecodePage(page)])
  {
    hide DecodePage, Join, WellFormedPage, Framed;
    JoinOne(raw, page);
    PageIsFramed(page);
    FramedLong(page);
    assert data[..offset + |page|] == data[..offset] + page;
    assert AllWellFormed(raw + [page]);
  }

  lemma ChainStart()
    ensures Chain([], [], [])
  {
  }

  lemma ScansStartOfStream()
    ensures Scans(Scan(0, 0, [], 0, 0, NO_GRANULE, NO_GRANULE, false), [])
  {
    NoPackets();
  }

  /** Two chains of one byte string are the same chain. */
  lemma ChainUnique(data: seq<byte>, raw: seq<seq<byte>>, pages: seq<Page>, raw': seq<seq<byte>>, pages': seq<Page>)
    requires Chain(data, raw, pages) && Chain(data, raw', pages')
    ensures raw == raw' && pages == pages'
  {
    hide WellFormedPage, DecodePage, Join;
    PagesUnique(raw, raw');
    PagesUnique(raw', raw);
  }

  method InspectOggOpus(data: seq<byte>) returns (v: Verdict)
    ensures v.Accepted? <==> exists raw, pages :: Recording(data, raw, pages)
    ensures forall raw, pages :: Recording(data, raw, pages) ==> v == Accepted(DurationMs(pages))
  {
    hide Recording, Chain, Scans, HasPage, WellFormedPage, PageLength, PageOk, Framed, DecodePage, IsCrcTable, OggPoly;
    var table := BuildCrcTable(OggPoly());
    var crcTable := table[..];
    var offset := 0;
    var s := Scan(0, 0, [], 0, 0, NO_GRANULE, NO_GRANULE, false);
    ghost var raw: seq<seq<byte>>, pages: seq<Page> := [], [];
    ChainStart();
    ScansStartOfStream();
    assert data[..0] == [];
    while offset < |data|
      invariant 0 <= offset <= |data|
      invariant Chain(data[..offset], raw, pages) && Scans(s, pages)
      invariant offset == 0 <==> pages == []
      decreases |data| - offset
    {
      var ok, page := ReadPage(data, offset, crcTable);
      if !ok {
        NoPageNoRecording(data, offset, raw, pages);
        return Rejected;
      }
      FirstPage(data[offset..], page);
      PageIsFramed(page);
      ok, s := AdmitPage(s, offset == 0, page, pages);
      if !ok {
        BadPageNoRecording(data, offset, raw, pages, page);
        return Rejected;
      }
      ChainNext(data, offset, raw, pages, page);
      raw, pages := raw + [page], pages + [DecodePage(page)];
      offset := offset + |page|;
    }
    assert data[..offset] == data;
    v := Conclude(s, data, raw, pages);
  }

  lemma PageIsFramed(page: seq<byte>)
    requires WellFormedPage(page)
    ensures Framed(page)
  {
  }

  /** The checks and the arithmetic after the last page. */
  method Conclude(s: Scan, ghost data: seq<byte>, ghost raw: seq<seq<byte>>, ghost pages: seq<Page>) returns (v: Verdict)
    requires Chain(data, raw, pages) && Scans(s, pages)
    ensures v.Accepted? <==> exists raw', pages' :: Recording(data, raw', pages')
    ensures forall raw', pages' :: Recording(data, raw', pages') ==> v == Accepted(DurationMs(pages'))
  {
    hide Chain, ValidStream, AllPagesOk, SplitPackets, AllSegments, LastGranule, PreSkip;
    forall raw', pages' | Recording(data, raw', pages')
      ensures raw' == raw && pages' == pages && Finished(pages')
    {
      ChainUnique(data, raw, pages, raw', pages');
      StreamFinished(pages');
    }
    StreamPageByPage(pages);
    OpenIffPending(s, pages);
    if |s.packet| != 0 || s.packetCount < 3 || s.lastGranule == NO_GRANULE || s.lastGranule <= s.preSkip {
      return Rejected;
    }
    assert Recording(data, raw, pages);
    DurationInRange(pages);
    var samples := (s.lastGranule - s.preSkip) % U64;
    var durationMs := samples / 48;
    if samples % 48 != 0 {
      durationMs := (durationMs + 1) % U64;
    }
    if durationMs > 0x7FFF_FFFF_FFFF_FFFF {
      return Rejected;
    }
    v := Accepted(durationMs);
  }

  /** The size limits around the inspector; the last one can never be reached. */
  method InspectAudioBytes(decoded: seq<byte>) returns (v: Verdict)
    ensures v.Accepted? <==> 0 < |decoded| <= MAXIMUM_BYTES && exists raw, pages :: Recording(decoded, raw, pages)
    ensures v.Accepted? ==> 1 <= v.durationMs <= MAXIMUM_DURATION_MS
    ensures forall raw, pages :: v.Accepted? && Recording(decoded, raw, pages) ==> v.durationMs == DurationMs(pages)
  {
    if |decoded| == 0 || |decoded| > MAXIMUM_BYTES {
      return Rejected;
    }
    v := InspectOggOpus(decoded);
    hide Chain, ValidStream;
    if v.Accepted? {
      ghost var raw, pages :| Recording(decoded, raw, pages);
      DurationInRange(pages);
      if v.durationMs > MAXIMUM_DURATION_MS {
        return Rejected;
      }
    }
  }

  // ----- Damage -----

  predicate ChecksumKept(p: seq<byte>, q: seq<byte>)
    requires |p| == |q| >= 27
  {
    q[22] == p[22] && q[23] == p[23] && q[24] == p[24] && q[25] == p[25]
  }

  lemma ChecksumChanged(p: seq<byte>, q: seq<byte>)
    requires |p| == |q| >= 27 && ChecksumField(p) == ChecksumField(q)
    ensures ChecksumKept(p, q)
  {
    hide ByteBits;
    var a, b := ChecksumField(p), ChecksumField(q);
    assert ByteBits(p[25]) == a[..8] && ByteBits(p[24]) == a[8..16] && ByteBits(p[23]) == a[16..24] && ByteBits(p[22]) == a[24..];
    assert ByteBits(q[25]) == b[..8] && ByteBits(q[24]) == b[8..16] && ByteBits(q[23]) == b[16..24] && ByteBits(q[22]) == b[24..];
    ByteBitsInjective(p[22], q[22]);
    ByteBitsInjective(p[23], q[23]);
    ByteBitsInjective(p[24], q[24]);
    ByteBitsInjective(p[25], q[25]);
  }

  /** A page changed inside four consecutive bytes, all of them in the checksum field or none, is not well-formed. */
  lemma DamagedPage(p: seq<byte>, q: seq<byte>, k: nat, at: nat)
    requires WellFormedPage(p) && |q| == |p| && 27 <= |p| && k + 4 <= |p|
    requires forall i :: 0 <= i < |p| && !(k <= i < k + 4) ==> q[i] == p[i]
    requires ChecksumKept(p, q) || k == 22
    requires at < |p| && q[at] != p[at]
    ensures !WellFormedPage(q)
  {
    hide PageLength, PageCrc, OggPoly, ByteBits, ChecksumField;
    if ChecksumKept(p, q) {
      OggPolyIsOdd();
      PageBurstDetected(OggPoly(), p, q, k, at);
      SameField(p, q);
    } else {
      SameUnsealed(p, q);
      if ChecksumField(p) == ChecksumField(q) {
        ChecksumChanged(p, q);
      }
    }
  }

  lemma SameField(p: seq<byte>, q: seq<byte>)
    requires |p| == |q| >= 27 && ChecksumKept(p, q)
    ensures ChecksumField(p) == ChecksumField(q)
  {
  }

  lemma SameUnsealed(p: seq<byte>, q: seq<byte>)
    requires |p| == |q| && forall i :: 0 <= i < |p| && !(22 <= i < 26) ==> q[i] == p[i]
    ensures PageCrc(OggPoly(), p) == PageCrc(OggPoly(), q)
  {
    hide Crc, OggPoly;
    assert Unsealed(q) == Unsealed(p);
  }

  /** The segment table, with its length, says where the page ends. */
  predicate TableKept(p: seq<byte>, q: seq<byte>)
    requires |p| == |q| >= 27
  {
    |p| >= 27 + SegmentCount(p) && q[26..27 + SegmentCount(p)] == p[26..27 + SegmentCount(p)]
  }

  lemma SameLength(p: seq<byte>, q: seq<byte>, d: seq<byte>)
    requires Framed(p) && |p| == |q| && TableKept(p, q) && q <= d && HasHeader(d)
    ensures PageLength(d) == |q|
  {
    hide Sum;
    assert q[26] == q[26..27 + SegmentCount(p)][0] == p[26];
    assert q[27..27 + SegmentCount(p)] == q[26..27 + SegmentCount(p)][1..];
    assert p[27..27 + SegmentCount(p)] == p[26..27 + SegmentCount(p)][1..];
    assert d[27..27 + SegmentCount(d)] == q[27..27 + SegmentCount(q)];
  }

  /**
   * A recording damaged inside four consecutive bytes of one page, outside its segment table, is no recording under any
   * reading: headers, flags, numbers and body are all covered, and so is the checksum field when it alone is hit.
   */
  lemma DamagedRecordingRejected(data: seq<byte>, raw: seq<seq<byte>>, pages: seq<Page>, n: nat, q: seq<byte>, k: nat,
                                 at: nat, raw': seq<seq<byte>>, pages': seq<Page>)
    requires Chain(data, raw, pages) && n < |raw| && |q| == |raw[n]| && 27 <= |q| && k + 4 <= |q|
    requires forall i :: 0 <= i < |q| && !(k <= i < k + 4) ==> q[i] == raw[n][i]
    requires (ChecksumKept(raw[n], q) || k == 22) && TableKept(raw[n], q)
    requires at < |q| && q[at] != raw[n][at]
    ensures !Recording(Join(raw[n := q]), raw', pages')
  {
    hide WellFormedPage, PageLength, DecodePage, Join, HasPage, ValidStream, ChecksumKept, TableKept, Framed;
    var broken := raw[n := q];
    var d := Join(broken);
    DamagedPage(raw[n], q, k, at);
    if Recording(d, raw', pages') {
      var tail := broken[n..];
      assert broken == raw[..n] + tail && tail[0] == q;
      JoinAppend(raw[..n], tail);
      JoinFirst(tail);
      var offset := |Join(raw[..n])|;
      assert d[..offset] == Join(raw[..n]) && d[offset..] == Join(tail);
      NextPageForced(d, offset, raw[..n], pages[..n], raw', pages');
      PageTaken(d[offset..]);
      PageAtFront(d[offset..]);
      SameLength(raw[n], q, d[offset..]);
    }
  }

  lemma PageAtFront(d: seq<byte>)
    requires HasPage(d)
    ensures HasHeader(d)
  {
  }
}
