/** The smallest recordings: a head, a comment and one audio packet, of every length the inspector admits. */
module OpusSample {
  import opened Wrappers
  import opened Bits
  import opened OggLacing
  import opened OggPage
  import opened OpusStream
  import opened OpusInspect
  import opened OggEncode

  const PRE_SKIP: nat := 312
  const SERIAL: nat := 0x1020_3040
  const HEAD: Segment := OPUS_HEAD + [1, 1, 0x38, 0x01, 0x80, 0xbb, 0, 0, 0, 0, 0]
  const TAGS: Segment := OPUS_TAGS + [0, 0, 0, 0, 0, 0, 0, 0]
  const AUDIO: Segment := [0xf8]

  /** Three pages of one packet each; the last one may or may not close the stream. */
  function Sample(samples: nat, eos: bool): (pages: seq<Page>) {
    [Page(false, true, false, Some(0), SERIAL, 0, [HEAD]),
     Page(false, false, false, Some(0), SERIAL, 1, [TAGS]),
     Page(false, false, eos, Some(PRE_SKIP + samples), SERIAL, 2, [AUDIO])]
  }

  /** Segments shorter than 255 bytes are packets of their own. */
  lemma {:induction false} ShortSegments(segments: seq<Segment>)
    requires forall i :: 0 <= i < |segments| ==> |segments[i]| < 255
    ensures SplitPackets(segments) == Split(segments, [])
  {
    if segments == [] {
      SplitEmpty();
    } else {
      var n := |segments| - 1;
      ShortSegments(segments[..n]);
      assert segments == segments[..n] + [segments[n]] && [] + segments[n] == segments[n];
      SplitAppend(segments[..n], segments[n]);
    }
  }

  lemma {:induction false} OneSegmentEach(pages: seq<Page>, segments: seq<Segment>)
    requires |pages| == |segments| && forall i :: 0 <= i < |pages| ==> pages[i].segments == [segments[i]]
    ensures AllSegments(pages) == segments
  {
    if pages != [] {
      var n := |pages| - 1;
      OneSegmentEach(pages[..n], segments[..n]);
      assert segments == segments[..n] + [segments[n]];
    }
  }

  lemma SampleSegments(samples: nat, eos: bool, k: nat)
    requires k <= 3
    ensures AllSegments(Sample(samples, eos)[..k]) == [HEAD, TAGS, AUDIO][..k]
    ensures Packets(Sample(samples, eos)[..k]) == Split([HEAD, TAGS, AUDIO][..k], [])
    ensures !OpenPacket([HEAD, TAGS, AUDIO][..k])
  {
    hide AllSegments, SplitPackets;
    var all := [HEAD, TAGS, AUDIO];
    OneSegmentEach(Sample(samples, eos)[..k], all[..k]);
    ShortSegments(all[..k]);
  }

  lemma SamplePreSkip(packets: seq<seq<byte>>)
    requires packets != [] && packets[0] == HEAD
    ensures PreSkip(packets) == PRE_SKIP
  {
    assert HEAD[..8] == OPUS_HEAD && HEAD[10..12] == [0x38, 0x01];
    assert [0x38, 0x01][1..] == [0x01];
  }

  lemma SamplePackets(k: nat)
    requires k <= 3
    ensures PacketsOk([HEAD, TAGS, AUDIO][..k])
  {
    assert HEAD[..8] == OPUS_HEAD && TAGS[..8] == OPUS_TAGS;
  }

  lemma SamplePageOk(samples: nat, eos: bool, k: nat)
    requires k < 3 && samples <= MAXIMUM_SAMPLES
    ensures PageOk(Sample(samples, eos)[..k], Sample(samples, eos)[k])
  {
    hide Packets, AllSegments, PreSkip, PacketsOk;
    var pages := Sample(samples, eos);
    SampleSegments(samples, eos, k);
    SampleSegments(samples, eos, k + 1);
    SamplePackets(k + 1);
    SamplePreSkip([HEAD, TAGS, AUDIO][..k + 1]);
    assert pages[..k] + [pages[k]] == pages[..k + 1];
  }

  /** Such a stream belongs to the grammar exactly when it holds some sound and no more than the limit. */
  lemma SampleIsValid(samples: nat, eos: bool)
    ensures ValidStream(Sample(samples, eos)) <==> 1 <= samples <= MAXIMUM_SAMPLES
    ensures ValidStream(Sample(samples, eos)) ==> DurationMs(Sample(samples, eos)) == (samples + 47) / 48
  {
    hide Packets, AllSegments, PreSkip, PacketsOk, PageOk, OrderOk, GranuleOk;
    var pages := Sample(samples, eos);
    assert pages[..3] == pages && [HEAD, TAGS, AUDIO][..3] == [HEAD, TAGS, AUDIO];
    SampleSegments(samples, eos, 3);
    SamplePreSkip([HEAD, TAGS, AUDIO]);
    assert LastGranule(pages) == Some(PRE_SKIP + samples);
    if 1 <= samples <= MAXIMUM_SAMPLES {
      forall k | 0 <= k < 3
        ensures PageOk(pages[..k], pages[k])
      {
        SamplePageOk(samples, eos, k);
      }
      StreamFromPages(pages);
    } else if samples > MAXIMUM_SAMPLES && ValidStream(pages) {
      StreamLimit(pages);
    }
  }

  /** The inspector's condition is met for every duration it admits: some bytes are such a recording. */
  lemma EveryDurationOccurs(ms: nat, eos: bool)
    requires 1 <= ms <= MAXIMUM_DURATION_MS
    ensures var pages := Sample(48 * ms, eos);
      && (forall i :: 0 <= i < |pages| ==> Encodable(pages[i]))
      && Recording(Join(EncodePages(pages)), EncodePages(pages), pages) && DurationMs(pages) == ms
  {
    hide ValidStream, EncodePages, Join, Chain, DurationMs;
    var pages := Sample(48 * ms, eos);
    SampleIsValid(48 * ms, eos);
    EncodedStreamIsRecording(pages);
  }
}
