/** Packets laid over pages by lacing values: section 5 of RFC 3533. */
module OggLacing {
  import opened Bits

  type Segment = seq<byte>

  function Sum(lacing: seq<byte>): (n: nat) {
    if lacing == [] then 0 else lacing[0] + Sum(lacing[1..])
  }

  function Join(parts: seq<seq<byte>>): seq<byte> {
    if parts == [] then [] else parts[0] + Join(parts[1..])
  }

  /** A body cut into segments of the sizes its lacing values give. */
  function Cut(lacing: seq<byte>, body: seq<byte>): (segments: seq<Segment>)
    requires |body| == Sum(lacing)
    ensures |segments| == |lacing|
    ensures forall i :: 0 <= i < |lacing| ==> |segments[i]| == lacing[i]
  {
    if lacing == [] then [] else [body[..lacing[0]]] + Cut(lacing[1..], body[lacing[0]..])
  }

  /** Finished packets, and the bytes of a packet still open at the end. */
  datatype Split = Split(packets: seq<seq<byte>>, pending: seq<byte>)

  /** The index of the first segment that ends a packet, or the length if there is none. */
  function FirstEnd(segments: seq<Segment>): (t: nat)
    ensures t <= |segments|
    ensures t < |segments| ==> |segments[t]| < 255
    ensures forall i :: 0 <= i < t ==> |segments[i]| >= 255
  {
    if segments == [] || |segments[0]| < 255 then 0 else 1 + FirstEnd(segments[1..])
  }

  /** The laced bytes cut after every segment shorter than 255 bytes. */
  function SplitPackets(segments: seq<Segment>): (s: Split)
    decreases |segments|
  {
    var t := FirstEnd(segments);
    if t == |segments| then Split([], Join(segments))
    else
      var rest := SplitPackets(segments[t + 1..]);
      Split([Join(segments[..t + 1])] + rest.packets, rest.pending)
  }

  /** A packet is open exactly when the last segment is full. */
  predicate OpenPacket(segments: seq<Segment>) {
    segments != [] && |segments[|segments| - 1]| >= 255
  }

  /** What one more segment does to the packets found so far. */
  function AddSegment(s: Split, segment: Segment): (r: Split) {
    if |segment| < 255 then Split(s.packets + [s.pending + segment], [])
    else Split(s.packets, s.pending + segment)
  }

  // ----- Joining and cutting undo each other -----

  lemma {:induction false} JoinAppend(a: seq<seq<byte>>, b: seq<seq<byte>>)
    ensures Join(a + b) == Join(a) + Join(b)
  {
    if a == [] {
      assert a + b == b;
    } else {
      assert (a + b)[1..] == a[1..] + b;
      JoinAppend(a[1..], b);
    }
  }

  lemma JoinOne(a: seq<seq<byte>>, s: seq<byte>)
    ensures Join(a + [s]) == Join(a) + s
  {
    JoinAppend(a, [s]);
    assert Join([s]) == s + Join([]);
  }

  lemma {:induction false} CutJoins(lacing: seq<byte>, body: seq<byte>)
    requires |body| == Sum(lacing)
    ensures Join(Cut(lacing, body)) == body
  {
    if lacing != [] {
      var rest := Cut(lacing[1..], body[lacing[0]..]);
      CutJoins(lacing[1..], body[lacing[0]..]);
      assert ([body[..lacing[0]]] + rest)[1..] == rest;
    }
  }

  lemma SliceAppend<T>(a: seq<T>, b: seq<T>, n: nat)
    requires n <= |a|
    ensures (a + b)[..n] == a[..n] && (a + b)[n..] == a[n..] + b
  {
  }

  lemma SumFirst(l: seq<byte>)
    requires l != []
    ensures Sum(l) == l[0] + Sum(l[1..])
  {
  }

  lemma CutEmpty()
    ensures Sum([]) == 0 && Cut([], []) == []
  {
  }

  lemma CutFirst(l: seq<byte>, b: seq<byte>, n: nat, l': seq<byte>, b': seq<byte>)
    requires l != [] && n == l[0] && l' == l[1..]
    requires n <= |b| && b' == b[n..] && |b'| == Sum(l')
    ensures |b| == Sum(l) && Cut(l, b) == [b[..n]] + Cut(l', b')
  {
  }

  /** The segments of bodies laid end to end are the segments of each in turn. */
  lemma {:induction false} CutAppend(l1: seq<byte>, b1: seq<byte>, l2: seq<byte>, b2: seq<byte>)
    requires |b1| == Sum(l1) && |b2| == Sum(l2)
    ensures Sum(l1 + l2) == |b1 + b2|
    ensures Cut(l1 + l2, b1 + b2) == Cut(l1, b1) + Cut(l2, b2)
  {
    hide Cut, Sum;
    if l1 == [] {
      CutEmpty();
      assert l1 + l2 == l2 && b1 + b2 == b2;
    } else {
      var n := l1[0];
      SumFirst(l1);
      CutAppend(l1[1..], b1[n..], l2, b2);
      CutFirst(l1, b1, n, l1[1..], b1[n..]);
      SliceAppend(l1, l2, 1);
      SliceAppend(b1, b2, n);
      CutFirst(l1 + l2, b1 + b2, n, l1[1..] + l2, b1[n..] + b2);
      assert ([b1[..n]] + Cut(l1[1..], b1[n..])) + Cut(l2, b2) == [b1[..n]] + (Cut(l1[1..], b1[n..]) + Cut(l2, b2));
    }
  }

  // ----- Splitting segment by segment agrees with splitting the whole -----

  lemma SplitNoEnd(segments: seq<Segment>)
    requires forall i :: 0 <= i < |segments| ==> |segments[i]| >= 255
    ensures SplitPackets(segments) == Split([], Join(segments))
  {
  }

  lemma SplitFirst(segments: seq<Segment>, t: nat)
    requires t < |segments| && |segments[t]| < 255
    requires forall i :: 0 <= i < t ==> |segments[i]| >= 255
    ensures SplitPackets(segments).packets == [Join(segments[..t + 1])] + SplitPackets(segments[t + 1..]).packets
    ensures SplitPackets(segments).pending == SplitPackets(segments[t + 1..]).pending
  {
    assert FirstEnd(segments) == t;
  }

  lemma {:induction false} SplitAppend(segments: seq<Segment>, segment: Segment)
    ensures SplitPackets(segments + [segment]) == AddSegment(SplitPackets(segments), segment)
    decreases |segments|
  {
    hide SplitPackets, Join;
    var t := FirstEnd(segments);
    var all := segments + [segment];
    if t < |segments| {
      SplitFirst(segments, t);
      SplitFirst(all, t);
      assert all[..t + 1] == segments[..t + 1];
      assert all[t + 1..] == segments[t + 1..] + [segment];
      SplitAppend(segments[t + 1..], segment);
    } else {
      SplitNoEnd(segments);
      JoinOne(segments, segment);
      if |segment| < 255 {
        SplitFirst(all, t);
        assert all[..t + 1] == all && all[t + 1..] == [];
        SplitEmpty();
      } else {
        SplitNoEnd(all);
      }
    }
  }

  lemma SplitEmpty()
    ensures SplitPackets([]) == Split([], [])
  {
  }

  /** A longer stream finishes the packets of its prefix, in order, before any others. */
  lemma {:induction false} SplitPrefix(a: seq<Segment>, b: seq<Segment>)
    ensures SplitPackets(a).packets <= SplitPackets(a + b).packets
    decreases |b|
  {
    if b == [] {
      assert a + b == a;
    } else {
      var u := b[..|b| - 1];
      SplitPrefix(a, u);
      assert a + b == (a + u) + [b[|b| - 1]];
      SplitAppend(a + u, b[|b| - 1]);
    }
  }

  lemma AddKeepsWhole(s: Split, segment: Segment)
    requires |s.pending| % 255 == 0 && |segment| <= 255
    ensures |AddSegment(s, segment).pending| % 255 == 0
    ensures |AddSegment(s, segment).pending| > 0 <==> |segment| == 255
  {
  }

  lemma AddKeepsBytes(s: Split, segment: Segment)
    ensures var r := AddSegment(s, segment); Join(r.packets) + r.pending == Join(s.packets) + s.pending + segment
  {
    hide Join;
    if |segment| < 255 {
      JoinOne(s.packets, s.pending + segment);
    }
  }

  /** A packet is open exactly when bytes are pending. */
  lemma OpenNonEmpty(segments: seq<Segment>)
    ensures |SplitPackets(segments).pending| > 0 <==> OpenPacket(segments)
  {
    hide SplitPackets;
    if segments == [] {
      SplitEmpty();
    } else {
      var n := |segments| - 1;
      assert segments == segments[..n] + [segments[n]];
      SplitAppend(segments[..n], segments[n]);
    }
  }

  /** Between segments the open packet holds whole 255-byte segments, and holds bytes exactly when it is open. */
  lemma {:induction false} PendingIsWholeSegments(segments: seq<Segment>)
    requires forall i :: 0 <= i < |segments| ==> |segments[i]| <= 255
    ensures |SplitPackets(segments).pending| % 255 == 0
    ensures |SplitPackets(segments).pending| > 0 <==> OpenPacket(segments)
    decreases |segments|
  {
    hide SplitPackets, OpenPacket;
    OpenNonEmpty(segments);
    if segments == [] {
      SplitEmpty();
    } else {
      var n := |segments| - 1;
      PendingIsWholeSegments(segments[..n]);
      assert segments == segments[..n] + [segments[n]];
      SplitAppend(segments[..n], segments[n]);
      AddKeepsWhole(SplitPackets(segments[..n]), segments[n]);
    }
  }

  /** The finished packets and the open one hold every laced byte, once and in order. */
  lemma {:induction false} SplitKeepsBytes(segments: seq<Segment>)
    ensures var s := SplitPackets(segments); Join(s.packets) + s.pending == Join(segments)
    decreases |segments|
  {
    if segments == [] {
      SplitEmpty();
    } else {
      hide SplitPackets, Join, AddSegment;
      var n := |segments| - 1;
      assert segments == segments[..n] + [segments[n]];
      SplitKeepsBytes(segments[..n]);
      SplitAppend(segments[..n], segments[n]);
      JoinOne(segments[..n], segments[n]);
      AddKeepsBytes(SplitPackets(segments[..n]), segments[n]);
    }
  }
}
