/** Writing pages: the inverse of the inspector's reading. */
module OggEncode {
  import opened Wrappers
  import opened Bits
  import opened OggCrc
  import opened OggLacing
  import opened OggPage
  import opened OpusStream
  import opened OpusInspect

  // ----- Sealing a page with its checksum -----

  function BitsByte(b: Bits): (x: byte)
    requires |b| == 8
    ensures ByteBits(x) == b
  {
    ByteOfBits(b);
    ToNat(b)
  }

  /** The page with `c` in bytes 22 to 25, least significant byte first. */
  function WriteField(p: seq<byte>, c: Word): (q: seq<byte>)
    requires |p| >= 27
    ensures |q| == |p|
    ensures forall i :: 0 <= i < |p| && !(22 <= i < 26) ==> q[i] == p[i]
  {
    var b0, b1, b2, b3 := BitsByte(c[24..32]), BitsByte(c[16..24]), BitsByte(c[8..16]), BitsByte(c[..8]);
    p[..22] + [b0, b1, b2, b3] + p[26..]
  }

  function Seal(p: seq<byte>): (q: seq<byte>)
    requires |p| >= 27
  {
    WriteField(p, PageCrc(OggPoly(), p))
  }

  lemma SealedField(p: seq<byte>)
    requires |p| >= 27
    ensures ChecksumField(Seal(p)) == PageCrc(OggPoly(), p)
  {
    hide PageCrc, ByteBits, OggPoly;
    var c := PageCrc(OggPoly(), p);
    assert c == c[..8] + c[8..16] + c[16..24] + c[24..32];
  }

  lemma SealedCrc(p: seq<byte>, q: seq<byte>)
    requires |p| == |q| && forall i :: 0 <= i < |p| && !(22 <= i < 26) ==> q[i] == p[i]
    ensures PageCrc(OggPoly(), q) == PageCrc(OggPoly(), p)
  {
    hide Crc, OggPoly;
    assert Unsealed(q) == Unsealed(p);
  }

  lemma SealedFramed(p: seq<byte>, q: seq<byte>)
    requires Framed(p) && |p| == |q| && forall i :: 0 <= i < |p| && !(22 <= i < 26) ==> q[i] == p[i]
    ensures Framed(q) && DecodePage(q) == DecodePage(p)
  {
    hide Sum, Cut, LittleEndian;
    assert q[..4] == p[..4] && q[6..14] == p[6..14] && q[14..18] == p[14..18] && q[18..22] == p[18..22];
    assert q[27..27 + SegmentCount(q)] == p[27..27 + SegmentCount(p)];
    assert q[27 + SegmentCount(q)..] == p[27 + SegmentCount(p)..];
  }

  /** Sealing makes a framed page well-formed and leaves its content alone. */
  lemma SealMakesWellFormed(p: seq<byte>)
    requires Framed(p) && p[5] < 8
    ensures WellFormedPage(Seal(p)) && Framed(Seal(p)) && DecodePage(Seal(p)) == DecodePage(p)
  {
    hide PageCrc, WriteField, DecodePage, ChecksumField, OggPoly, PageLength;
    SealedField(p);
    SealedCrc(p, Seal(p));
    SealedFramed(p, Seal(p));
  }

  // ----- Laying out a page -----

  function EncodeLittle(n: nat, width: nat): (b: seq<byte>)
    ensures |b| == width
    decreases width
  {
    if width == 0 then [] else [n % 256] + EncodeLittle(n / 256, width - 1)
  }

  function Pow256(width: nat): (p: nat) {
    if width == 0 then 1 else 256 * Pow256(width - 1)
  }

  lemma {:induction false} LittleRoundTrip(n: nat, width: nat)
    requires n < Pow256(width)
    ensures LittleEndian(EncodeLittle(n, width)) == n
    decreases width
  {
    if width > 0 {
      LittleRoundTrip(n / 256, width - 1);
      assert EncodeLittle(n, width)[1..] == EncodeLittle(n / 256, width - 1);
    }
  }

  function Sizes(segments: seq<Segment>): (l: seq<byte>)
    requires forall i :: 0 <= i < |segments| ==> |segments[i]| < 256
    ensures |l| == |segments|
  {
    if segments == [] then [] else [|segments[0]|] + Sizes(segments[1..])
  }

  lemma {:induction false} CutRoundTrip(segments: seq<Segment>)
    requires forall i :: 0 <= i < |segments| ==> |segments[i]| < 256
    ensures |Join(segments)| == Sum(Sizes(segments))
    ensures Cut(Sizes(segments), Join(segments)) == segments
  {
    if segments == [] {
      CutEmpty();
    } else {
      var l, b, n := Sizes(segments), Join(segments), |segments[0]|;
      CutRoundTrip(segments[1..]);
      assert b[..n] == segments[0] && b[n..] == Join(segments[1..]);
      assert l[1..] == Sizes(segments[1..]);
      hide Cut, Sum, Sizes, Join;
      CutFirst(l, b, n, l[1..], b[n..]);
    }
  }

  predicate Encodable(p: Page) {
    && (p.granule.Some? ==> p.granule.value < NO_GRANULE) && p.serial < U32 && p.sequence < U32
    && |p.segments| < 256 && forall i :: 0 <= i < |p.segments| ==> |p.segments[i]| < 256
  }

  function FlagByte(p: Page): (b: byte)
    ensures b < 8 && (b % 2 == 1 <==> p.continued) && (b / 2 % 2 == 1 <==> p.bos) && (b / 4 % 2 == 1 <==> p.eos)
  {
    (if p.continued then 1 else 0) + (if p.bos then 2 else 0) + (if p.eos then 4 else 0)
  }

  /** Everything before the segment table, with a zero checksum. */
  function EncodeHeader(p: Page): (h: seq<byte>)
    requires Encodable(p)
    ensures |h| == 27
  {
    var granule, serial, sequence :=
      EncodeLittle(GranuleBits(p.granule), 8), EncodeLittle(p.serial, 4), EncodeLittle(p.sequence, 4);
    CAPTURE + [0, FlagByte(p)] + granule + serial + sequence + [0, 0, 0, 0, |p.segments|]
  }

  function EncodePage(p: Page): (b: seq<byte>)
    requires Encodable(p)
    ensures |b| >= 27
  {
    EncodeHeader(p) + Sizes(p.segments) + Join(p.segments)
  }

  lemma HeaderFields(p: Page)
    requires Encodable(p)
    ensures var h := EncodeHeader(p);
      && h[..4] == CAPTURE && h[4] == 0 && h[5] == FlagByte(p) && h[26] == |p.segments|
      && h[6..14] == EncodeLittle(GranuleBits(p.granule), 8)
      && h[14..18] == EncodeLittle(p.serial, 4) && h[18..22] == EncodeLittle(p.sequence, 4)
  {
    hide EncodeLittle, FlagByte;
  }

  lemma EncodedLayout(p: Page)
    requires Encodable(p)
    ensures var b := EncodePage(p); var h := EncodeHeader(p); var n := |p.segments|;
      && |b| == 27 + n + |Join(p.segments)| && b[..27] == h
      && b[27..27 + n] == Sizes(p.segments) && b[27 + n..] == Join(p.segments)
  {
    hide EncodeHeader, Sizes, Join;
  }

  lemma EncodedFramed(p: Page)
    requires Encodable(p)
    ensures Framed(EncodePage(p)) && EncodePage(p)[5] == FlagByte(p)
    ensures Segments(EncodePage(p)) == p.segments
  {
    var b := EncodePage(p);
    hide EncodePage, EncodeHeader, Sizes, Join, FlagByte, Sum, Cut;
    EncodedLayout(p);
    HeaderFields(p);
    CutRoundTrip(p.segments);
    assert b[..4] == b[..27][..4] && b[4] == b[..27][4] && b[5] == b[..27][5] && b[26] == b[..27][26];
  }

  lemma EncodedNumbers(p: Page)
    requires Encodable(p)
    ensures var b := EncodePage(p);
      Granule(b) == GranuleBits(p.granule) && Serial(b) == p.serial && Sequence(b) == p.sequence
  {
    var b := EncodePage(p);
    hide EncodePage, EncodeHeader, Sizes, Join, FlagByte, EncodeLittle, LittleEndian;
    EncodedLayout(p);
    HeaderFields(p);
    assert b[6..14] == b[..27][6..14] && b[14..18] == b[..27][14..18] && b[18..22] == b[..27][18..22];
    Powers();
    LittleRoundTrip(GranuleBits(p.granule), 8);
    LittleRoundTrip(p.serial, 4);
    LittleRoundTrip(p.sequence, 4);
  }

  lemma Powers()
    ensures Pow256(4) == U32 && Pow256(8) == U64
  {
    assert Pow256(2) == 0x1_0000;
    assert Pow256(4) == U32;
    assert Pow256(6) == 0x1_0000_0000_0000;
  }

  /** Reading back a page that was written gives the page. */
  lemma DecodeEncodePage(p: Page)
    requires Encodable(p)
    ensures Framed(EncodePage(p)) && EncodePage(p)[5] < 8 && DecodePage(EncodePage(p)) == p
  {
    hide EncodePage, Segments, Granule, Serial, Sequence, Framed;
    EncodedFramed(p);
    EncodedNumbers(p);
  }

  // ----- A whole recording -----

  function EncodePages(pages: seq<Page>): (raw: seq<seq<byte>>)
    requires forall i :: 0 <= i < |pages| ==> Encodable(pages[i])
    ensures |raw| == |pages|
    ensures forall i :: 0 <= i < |pages| ==> raw[i] == Seal(EncodePage(pages[i]))
  {
    seq(|pages|, i requires 0 <= i < |pages| => Seal(EncodePage(pages[i])))
  }

  /** Every stream of the grammar whose fields fit a page is the content of a byte string the inspector admits. */
  lemma EncodedStreamIsRecording(pages: seq<Page>)
    requires ValidStream(pages) && forall i :: 0 <= i < |pages| ==> Encodable(pages[i])
    ensures Recording(Join(EncodePages(pages)), EncodePages(pages), pages)
  {
    hide ValidStream, WellFormedPage, Framed, DecodePage, Seal, EncodePage, Join, Encodable;
    var raw := EncodePages(pages);
    forall i | 0 <= i < |pages|
      ensures WellFormedPage(raw[i]) && Framed(raw[i]) && pages[i] == DecodePage(raw[i])
    {
      DecodeEncodePage(pages[i]);
      SealMakesWellFormed(EncodePage(pages[i]));
    }
  }
}
