/** Ogg pages: section 6 of RFC 3533. */
module OggPage {
  import opened Bits
  import opened OggCrc
  import opened OggLacing

  const CAPTURE: seq<byte> := [0x4f, 0x67, 0x67, 0x53]
  const NO_GRANULE: nat := 0xFFFF_FFFF_FFFF_FFFF

  /** The generator of the page checksum, without its leading x^32 term. */
  function OggPoly(): (g: Word) {
    FromNat(0x04c11db7, 32)
  }

  lemma OggPolyIsOdd()
    ensures OggPoly()[31]
  {
    FromNatLast(0x04c11db7, 32);
  }

  function LittleEndian(b: seq<byte>): (n: nat) {
    if b == [] then 0 else b[0] + 256 * LittleEndian(b[1..])
  }

  function SegmentCount(d: seq<byte>): (n: nat)
    requires |d| >= 27
  {
    d[26]
  }

  /** A capture pattern, version zero, and a segment table that fits. */
  predicate HasHeader(d: seq<byte>) {
    |d| >= 27 && d[..4] == CAPTURE && d[4] == 0 && |d| >= 27 + SegmentCount(d)
  }

  /** The length a page starting with these bytes must have. */
  function PageLength(d: seq<byte>): (n: nat)
    requires HasHeader(d)
    ensures n >= 27 + SegmentCount(d)
  {
    27 + SegmentCount(d) + Sum(d[27..27 + SegmentCount(d)])
  }

  /** A byte string exactly as long as its header and lacing values say. */
  predicate Framed(p: seq<byte>) {
    HasHeader(p) && |p| == PageLength(p)
  }

  /** Bytes 22 to 25, least significant byte first. */
  function ChecksumField(p: seq<byte>): (w: Word)
    requires |p| >= 27
  {
    ByteBits(p[25]) + ByteBits(p[24]) + ByteBits(p[23]) + ByteBits(p[22])
  }

  predicate WellFormedPage(p: seq<byte>) {
    Framed(p) && p[5] < 8 && PageCrc(OggPoly(), p) == ChecksumField(p)
  }

  predicate Continued(p: seq<byte>) requires |p| >= 27 { p[5] % 2 == 1 }
  predicate Bos(p: seq<byte>) requires |p| >= 27 { p[5] / 2 % 2 == 1 }
  predicate Eos(p: seq<byte>) requires |p| >= 27 { p[5] / 4 % 2 == 1 }

  function Granule(p: seq<byte>): nat requires |p| >= 27 { LittleEndian(p[6..14]) }
  function Serial(p: seq<byte>): nat requires |p| >= 27 { LittleEndian(p[14..18]) }
  function Sequence(p: seq<byte>): nat requires |p| >= 27 { LittleEndian(p[18..22]) }

  function Lacing(p: seq<byte>): seq<byte> requires Framed(p) { p[27..27 + SegmentCount(p)] }
  function Body(p: seq<byte>): seq<byte> requires Framed(p) { p[27 + SegmentCount(p)..] }
  function Segments(p: seq<byte>): seq<Segment> requires Framed(p) { Cut(Lacing(p), Body(p)) }

  // ----- Reading one page -----

  lemma {:induction false} SumNext(l: seq<byte>, k: nat)
    requires k < |l|
    ensures Sum(l[..k + 1]) == Sum(l[..k]) + l[k]
  {
    hide Sum;
    assert l[..k + 1] == l[..k] + [l[k]];
    SumFirst([l[k]]);
    assert [l[k]][1..] == [];
    CutEmpty();
    SumAppend(l[..k], [l[k]]);
  }

  lemma {:induction false} SumAppend(a: seq<byte>, b: seq<byte>)
    ensures Sum(a + b) == Sum(a) + Sum(b)
  {
    if a == [] {
      assert a + b == b;
    } else {
      assert (a + b)[1..] == a[1..] + b;
      SumAppend(a[1..], b);
    }
  }

  /** The bytes start with a well-formed page. */
  predicate HasPage(d: seq<byte>) {
    && HasHeader(d) && d[5] < 8 && |d| >= PageLength(d)
    && PageCrc(OggPoly(), d[..PageLength(d)]) == ChecksumField(d[..PageLength(d)])
  }

  lemma HeaderPrefix(p: seq<byte>, d: seq<byte>)
    requires HasHeader(p) && p <= d
    ensures HasHeader(d) && PageLength(d) == PageLength(p)
  {
    assert d[..4] == p[..4];
    assert d[27..27 + SegmentCount(d)] == p[27..27 + SegmentCount(p)];
  }

  lemma HeaderTake(d: seq<byte>, n: nat)
    requires HasHeader(d) && PageLength(d) <= n <= |d|
    ensures HasHeader(d[..n]) && PageLength(d[..n]) == PageLength(d)
  {
    assert d[..n][..4] == d[..4];
    assert d[..n][27..27 + SegmentCount(d)] == d[27..27 + SegmentCount(d)];
  }

  /** The page at the front is the only well-formed prefix. */
  lemma FirstPage(d: seq<byte>, p: seq<byte>)
    ensures WellFormedPage(p) && p <= d <==> HasPage(d) && p == d[..PageLength(d)]
  {
    hide WellFormedPage, HasPage;
    if WellFormedPage(p) && p <= d {
      PageStarts(d, p);
    }
    if HasPage(d) {
      PageTaken(d);
    }
  }

  lemma PageStarts(d: seq<byte>, p: seq<byte>)
    requires WellFormedPage(p) && p <= d
    ensures HasPage(d) && p == d[..PageLength(d)]
  {
    hide PageLength, PageCrc, ChecksumField, OggPoly;
    HeaderPrefix(p, d);
    assert p == d[..PageLength(d)];
  }

  lemma PageTaken(d: seq<byte>)
    requires HasPage(d)
    ensures WellFormedPage(d[..PageLength(d)]) && d[..PageLength(d)] <= d
  {
    hide PageLength, PageCrc, ChecksumField, OggPoly;
    HeaderTake(d, PageLength(d));
  }

  method ReadPage(data: seq<byte>, offset: nat, table: seq<Word>) returns (ok: bool, page: seq<byte>)
    requires offset <= |data| && IsCrcTable(OggPoly(), table)
    ensures ok <==> HasPage(data[offset..])
    ensures ok ==> page == data[offset..][..PageLength(data[offset..])]
  {
    hide Sum, PageCrc, IsCrcTable, OggPoly, ChecksumField;
    ghost var d := data[offset..];
    ok, page := false, [];
    if |data| - offset < 27 || data[offset..offset + 4] != CAPTURE || data[offset + 4] != 0 {
      assert |d| >= 4 ==> d[..4] == data[offset..offset + 4];
      return;
    }
    assert d[..4] == data[offset..offset + 4];
    if data[offset + 5] / 8 != 0 {
      return;
    }
    var segments: int := data[offset + 26];
    if |data| - offset < 27 + segments {
      return;
    }
    var bodyBytes := SumLacing(data[offset + 27..offset + 27 + segments]);
    assert d[27..27 + segments] == data[offset + 27..offset + 27 + segments];
    var pageBytes := 27 + segments + bodyBytes;
    if |data| - offset < pageBytes {
      return;
    }
    page := data[offset..offset + pageBytes];
    assert page == d[..pageBytes];
    var crc := OggCrc.OggCrc(OggPoly(), page, table);
    ok := crc == ChecksumField(page);
  }

  method SumLacing(lacing: seq<byte>) returns (bodyBytes: nat)
    ensures bodyBytes == Sum(lacing)
  {
    hide Sum;
    CutEmpty();
    bodyBytes := 0;
    for k := 0 to |lacing|
      invariant bodyBytes == Sum(lacing[..k])
    {
      SumNext(lacing, k);
      bodyBytes := bodyBytes + lacing[k];
    }
    assert lacing[..|lacing|] == lacing;
  }

  // ----- A byte string is a chain of pages in at most one way -----

  ghost predicate AllWellFormed(pages: seq<seq<byte>>) {
    forall i :: 0 <= i < |pages| ==> WellFormedPage(pages[i])
  }

  /** Pages read from the front of a byte string begin every decomposition of it. */
  lemma {:induction false} PagesUnique(pages: seq<seq<byte>>, all: seq<seq<byte>>)
    requires AllWellFormed(pages) && AllWellFormed(all)
    requires Join(pages) <= Join(all)
    ensures pages <= all
  {
    hide WellFormedPage;
    if pages != [] {
      var d := Join(all);
      JoinFirst(pages);
      FramedLong(pages[0]);
      if all == [] {
        JoinNone();
      } else {
        JoinFirst(all);
        SamePage(pages[0], all[0], d);
        assert Join(pages[1..]) <= Join(all[1..]) by {
          PrefixTail(pages[0], Join(pages[1..]), Join(all[1..]));
        }
        PagesUnique(pages[1..], all[1..]);
        assert pages == [pages[0]] + pages[1..] && all == [all[0]] + all[1..];
      }
    }
  }

  lemma PrefixTail(p: seq<byte>, a: seq<byte>, b: seq<byte>)
    requires p + a <= p + b
    ensures a <= b
  {
    assert a == (p + a)[|p|..];
    assert b == (p + b)[|p|..];
    assert (p + b)[..|p + a|][|p|..] == b[..|a|];
  }

  lemma JoinFirst(parts: seq<seq<byte>>)
    requires parts != []
    ensures Join(parts) == parts[0] + Join(parts[1..])
  {
  }

  lemma JoinNone()
    ensures Join([]) == []
  {
  }

  lemma FramedLong(p: seq<byte>)
    requires WellFormedPage(p)
    ensures |p| >= 27
  {
  }

  lemma SamePage(p: seq<byte>, q: seq<byte>, d: seq<byte>)
    requires WellFormedPage(p) && WellFormedPage(q) && p <= d && q <= d
    ensures p == q
  {
    hide HasPage, WellFormedPage;
    FirstPage(d, p);
    FirstPage(d, q);
  }
}
