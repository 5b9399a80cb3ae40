/**
 Two-level demultiplexing: however the SGI bytes are cut into reads, and however the
 segments cut the publishers' FLV tags, each stream's tags come out whole and in order.
 */
module SegmentDemuxing {
  import opened Bytes
  import opened BitMask
  import opened Chunked
  import opened FlvWriting
  import opened FlvReading
  import opened SegmentInReading

  /** The tags of one stream, in the order they were handed on. */
  function TagsOf(log: seq<Event>, id: nat): seq<RawTag> {
    if log == [] then []
    else TagsOf(log[..|log| - 1], id) +
         (match log[|log| - 1]
          case TagParsed(i, tag) => if i == id then [tag] else []
          case _ => [])
  }

  /** Every stream's parser is where feeding it the stream's bytes in one piece would put it. */
  ghost predicate PerStream(c: Ctl) {
    |c.flv| == |c.fed| == STREAMS &&
    forall i :: 0 <= i < STREAMS ==>
      c.flv[i] == Feed(Flv, NO_TAGS, c.fed[i]) && TagsOf(c.log, i) == c.flv[i].ctl.parsed
  }

  lemma {:induction false} TagsOfConcat(a: seq<Event>, b: seq<Event>, id: nat)
    ensures TagsOf(a + b, id) == TagsOf(a, id) + TagsOf(b, id)
    decreases |b|
  {
    if b == [] {
      assert a + b == a;
    } else {
      assert (a + b)[..|a + b| - 1] == a + b[..|b| - 1];
      TagsOfConcat(a, b[..|b| - 1], id);
    }
  }

  lemma {:induction false} TagsOfEvents(i: nat, tags: seq<RawTag>, id: nat)
    ensures TagsOf(TagEvents(i, tags), id) == if i == id then tags else []
    decreases |tags|
  {
    var es := TagEvents(i, tags);
    if tags != [] {
      var n := |tags| - 1;
      assert es[..n] == TagEvents(i, tags[..n]);
      TagsOfEvents(i, tags[..n], id);
      assert tags == tags[..n] + [tags[n]];
    }
  }

  lemma {:induction false} ParsedGrows(r: Reader<TagCtl>, d: seq<byte>)
    ensures r.ctl.parsed <= Feed(Flv, r, d).ctl.parsed
    decreases |d|
  {
    if d != [] {
      ParsedGrows(FeedByte(Flv, r, d[0]), d[1..]);
    }
  }

  lemma DeliverKeeps(c: Ctl, payload: seq<byte>)
    requires PerStream(c)
    ensures PerStream(Deliver(c, payload))
  {
    var i := c.streamId;
    if i < STREAMS {
      var c' := Deliver(c, payload);
      FeedConcat(Flv, NO_TAGS, c.fed[i], payload);
      ParsedGrows(c.flv[i], payload);
      var found := NewTags(c.flv[i], c'.flv[i]);
      assert c'.flv[i].ctl.parsed == c.flv[i].ctl.parsed + found;
      forall j | 0 <= j < STREAMS
        ensures TagsOf(c'.log, j) == c'.flv[j].ctl.parsed
      {
        TagsOfConcat(c.log, TagEvents(i, found), j);
        TagsOfEvents(i, found, j);
      }
    }
  }

  lemma FinishKeeps(c: Ctl, buf: seq<byte>)
    requires PerStream(c)
    ensures PerStream(Finish(c, buf))
  {
    var c' := Finish(c, buf);
    if |buf| == Need(c) && c.phase == StreamData {
      DeliverKeeps(c, buf);
      QuietKeeps(Deliver(c, buf), c');
    } else {
      QuietKeeps(c, c');
    }
  }

  /** What logs no tag and feeds no parser. */
  lemma QuietKeeps(c: Ctl, c': Ctl)
    requires PerStream(c) && c'.flv == c.flv && c'.fed == c.fed
    requires c'.log == c.log || (|c'.log| == |c.log| + 1 && c'.log[..|c.log|] == c.log && !c'.log[|c.log|].TagParsed?)
    ensures PerStream(c')
  {
    forall j | 0 <= j < STREAMS
      ensures TagsOf(c'.log, j) == TagsOf(c.log, j)
    {
    }
  }

  /** For any bytes in any chunks, well formed or not: the demultiplexer treats streams independently. */
  lemma StreamsAreIndependent(chunks: seq<seq<byte>>)
    ensures PerStream(FeedAll(Sgi, START, chunks).ctl)
    ensures FeedAll(Sgi, START, chunks) == Feed(Sgi, START, Flatten(chunks))
  {
    ChunkingIndependence(Sgi, START, chunks);
    forall c: Ctl, buf: seq<byte> | PerStream(c)
      ensures PerStream(Sgi.finish(c, buf))
    {
      FinishKeeps(c, buf);
    }
    FeedInvariant(Sgi, c => PerStream(c), START, Flatten(chunks));
  }

  // ----- segments as publishers' front end writes them

  datatype StreamPart = StreamPart(id: nat, source: nat, payload: seq<byte>)

  /** One segment: as many parts as the mask has bits. */
  datatype Segment = Segment(mask: nat, parts: seq<StreamPart>)

  predicate ValidPart(p: StreamPart) {
    p.id < STREAMS && p.source < 3 && |p.payload| < U32
  }

  /** A mask of zero would leave the parser waiting for 2^32 parts; more than 31 bits fail its assert. */
  ghost predicate ValidSegment(s: Segment) {
    s.mask < U32 && 1 <= |s.parts| == Bits(s.mask) < 32 && forall p :: p in s.parts ==> ValidPart(p)
  }

  function PartHead(p: StreamPart): (h: seq<byte>)
    requires ValidPart(p)
    ensures |h| == 6
  {
    [8 * p.id + p.source, 0] + Le32(|p.payload|)
  }

  function PartBytes(p: StreamPart): seq<byte>
    requires ValidPart(p)
  {
    PartHead(p) + p.payload
  }

  function PartsBytes(parts: seq<StreamPart>): seq<byte>
    requires forall p :: p in parts ==> ValidPart(p)
  {
    if parts == [] then [] else PartBytes(parts[0]) + PartsBytes(parts[1..])
  }

  ghost function SegmentBytes(s: Segment): seq<byte>
    requires ValidSegment(s)
  {
    SGI + Le32(s.mask) + PartsBytes(s.parts)
  }

  ghost function SegmentsBytes(ss: seq<Segment>): seq<byte>
    requires forall s :: s in ss ==> ValidSegment(s)
  {
    if ss == [] then [] else SegmentBytes(ss[0]) + SegmentsBytes(ss[1..])
  }

  /** The bytes of stream i among some parts, and over a run of segments. */
  function CarriedBy(parts: seq<StreamPart>, i: nat): seq<byte> {
    if parts == [] then [] else (if parts[0].id == i then parts[0].payload else []) + CarriedBy(parts[1..], i)
  }

  function Carried(ss: seq<Segment>, i: nat): seq<byte> {
    if ss == [] then [] else CarriedBy(ss[0].parts, i) + Carried(ss[1..], i)
  }

  /**
   `cnt` parts still to come. An empty part is only counted once the next byte arrives,
   so the parser may still be sitting on it.
   */
  ghost predicate Awaiting(r: Reader<Ctl>, cnt: nat, fed: seq<seq<byte>>) {
    r.buf == [] && r.ctl.fed == fed && |r.ctl.flv| == |fed| == STREAMS &&
    if r.ctl.phase == StreamData then r.ctl.streamLen == 0 && r.ctl.streamCnt == cnt + 1
    else r.ctl.phase == (if cnt == 0 then SegHeader else StreamHeader) && (cnt > 0 ==> r.ctl.streamCnt == cnt)
  }

  lemma Settled(r: Reader<Ctl>, cnt: nat, fed: seq<seq<byte>>)
    requires Awaiting(r, cnt, fed)
    ensures Awaiting(Settle(Sgi, r), cnt, fed) && Settle(Sgi, r).ctl.phase != StreamData
  {
    if r.ctl.phase == StreamData {
      var c' := Finish(r.ctl, []);
      if r.ctl.streamId < STREAMS {
        assert fed[r.ctl.streamId] + [] == fed[r.ctl.streamId];
        assert c'.fed == fed;
      }
    }
  }

  function FedBy(fed: seq<seq<byte>>, p: StreamPart): seq<seq<byte>>
    requires p.id < |fed|
  {
    fed[p.id := fed[p.id] + p.payload]
  }

  lemma PartHeadRead(c: Ctl, p: StreamPart)
    requires ValidPart(p) && c.phase == StreamHeader && |c.source| == STREAMS
    ensures Feed(Sgi, Reader(c, []), PartHead(p)) ==
            Reader(c.(phase := StreamData, streamId := p.id, streamLen := |p.payload|,
                         source := c.source[p.id := p.source], log := c.log + [Sourced(p.id, p.source)]), [])
  {
    var h := PartHead(p);
    FeedBulk(Sgi, Reader(c, []), h);
    assert [] + h == h;
    assert h[2..] == Le32(|p.payload|);
    Le32RoundTrip(|p.payload|);
    assert h[0] / 8 == p.id && h[0] % 8 == p.source;
  }

  lemma PayloadRead(c: Ctl, cnt: nat, payload: seq<byte>)
    requires c.phase == StreamData && c.streamLen == |payload| && c.streamCnt == cnt + 1
    requires |c.flv| == |c.fed| == STREAMS && c.streamId < STREAMS && cnt + 1 < U32
    ensures Awaiting(Feed(Sgi, Reader(c, []), payload), cnt, c.fed[c.streamId := c.fed[c.streamId] + payload])
    ensures Feed(Sgi, Reader(c, []), payload).ctl.source == c.source
  {
    if payload == [] {
      assert c.fed[c.streamId] + payload == c.fed[c.streamId];
    } else {
      FeedBulk(Sgi, Reader(c, []), payload);
      assert [] + payload == payload;
    }
  }

  lemma PartRead(r: Reader<Ctl>, cnt: nat, fed: seq<seq<byte>>, p: StreamPart)
    requires Awaiting(r, cnt, fed) && 1 <= cnt < U32 && ValidPart(p) && |r.ctl.source| == STREAMS
    ensures var r' := Feed(Sgi, r, PartBytes(p)); Awaiting(r', cnt - 1, FedBy(fed, p)) && |r'.ctl.source| == STREAMS
  {
    SgiProgress();
    Settled(r, cnt, fed);
    var r0 := Settle(Sgi, r);
    FeedSettled(Sgi, r, PartBytes(p));
    FeedConcat(Sgi, r0, PartHead(p), p.payload);
    PartHeadRead(r0.ctl, p);
    PayloadRead(Feed(Sgi, r0, PartHead(p)).ctl, cnt - 1, p.payload);
  }

  lemma {:induction false} PartsRead(r: Reader<Ctl>, fed: seq<seq<byte>>, parts: seq<StreamPart>)
    requires Awaiting(r, |parts|, fed) && |parts| < U32 && |r.ctl.source| == STREAMS
    requires forall p :: p in parts ==> ValidPart(p)
    ensures var r' := Feed(Sgi, r, PartsBytes(parts));
            |r'.ctl.source| == STREAMS && Awaiting(r', 0, r'.ctl.fed) &&
            forall i :: 0 <= i < STREAMS ==> r'.ctl.fed[i] == fed[i] + CarriedBy(parts, i)
    decreases |parts|
  {
    if parts == [] {
      assert forall i :: 0 <= i < STREAMS ==> fed[i] + [] == fed[i];
    } else {
      var p := parts[0];
      FeedConcat(Sgi, r, PartBytes(p), PartsBytes(parts[1..]));
      PartRead(r, |parts|, fed, p);
      PartsRead(Feed(Sgi, r, PartBytes(p)), FedBy(fed, p), parts[1..]);
      forall i | 0 <= i < STREAMS
        ensures FedBy(fed, p)[i] + CarriedBy(parts[1..], i) == fed[i] + CarriedBy(parts, i)
      {
        if p.id == i {
          ConcatAssoc(fed[i], p.payload, CarriedBy(parts[1..], i));
        } else {
          assert [] + CarriedBy(parts[1..], i) == CarriedBy(parts[1..], i);
        }
      }
    }
  }

  lemma MaskRead(c: Ctl, mask: nat)
    requires c.phase == SegHeader && mask < U32 && Bits(mask) < 32
    ensures Feed(Sgi, Reader(c, []), SGI + Le32(mask)) ==
            Reader(c.(phase := StreamHeader, streamCnt := Bits(mask), log := c.log + [Masked(mask)]), [])
  {
    var m := Le32(mask);
    FeedConcat(Sgi, Reader(c, []), SGI, m);
    FeedBulk(Sgi, Reader(c, []), SGI);
    assert [] + SGI == SGI;
    FourBytesRead(c.(phase := MaskWord), m);
    Le32RoundTrip(mask);
  }

  lemma FourBytesRead(c: Ctl, m: seq<byte>)
    requires c.phase == MaskWord && |m| == 4
    ensures Feed(Sgi, Reader(c, []), m) == Reader(Finish(c, m), [])
  {
    FeedBulk(Sgi, Reader(c, []), m);
    assert [] + m == m;
  }

  lemma SegmentRead(r: Reader<Ctl>, fed: seq<seq<byte>>, s: Segment)
    requires Awaiting(r, 0, fed) && ValidSegment(s) && |r.ctl.source| == STREAMS
    ensures var r' := Feed(Sgi, r, SegmentBytes(s));
            |r'.ctl.source| == STREAMS && Awaiting(r', 0, r'.ctl.fed) &&
            forall i :: 0 <= i < STREAMS ==> r'.ctl.fed[i] == fed[i] + CarriedBy(s.parts, i)
  {
    SgiProgress();
    Settled(r, 0, fed);
    var r0 := Settle(Sgi, r);
    var head := SGI + Le32(s.mask);
    FeedSettled(Sgi, r, SegmentBytes(s));
    FeedConcat(Sgi, r0, head, PartsBytes(s.parts));
    MaskRead(r0.ctl, s.mask);
    PartsRead(Feed(Sgi, r0, head), fed, s.parts);
  }

  lemma {:induction false} SegmentsRead(r: Reader<Ctl>, fed: seq<seq<byte>>, ss: seq<Segment>)
    requires Awaiting(r, 0, fed) && |r.ctl.source| == STREAMS
    requires forall s :: s in ss ==> ValidSegment(s)
    ensures var r' := Feed(Sgi, r, SegmentsBytes(ss));
            |r'.ctl.source| == STREAMS && Awaiting(r', 0, r'.ctl.fed) &&
            forall i :: 0 <= i < STREAMS ==> r'.ctl.fed[i] == fed[i] + Carried(ss, i)
    decreases |ss|
  {
    if ss == [] {
      assert forall i :: 0 <= i < STREAMS ==> fed[i] + [] == fed[i];
    } else {
      FeedConcat(Sgi, r, SegmentBytes(ss[0]), SegmentsBytes(ss[1..]));
      SegmentRead(r, fed, ss[0]);
      var r1 := Feed(Sgi, r, SegmentBytes(ss[0]));
      SegmentsRead(r1, r1.ctl.fed, ss[1..]);
      forall i | 0 <= i < STREAMS
        ensures r1.ctl.fed[i] + Carried(ss[1..], i) == fed[i] + Carried(ss, i)
      {
        ConcatAssoc(fed[i], CarriedBy(ss[0].parts, i), Carried(ss[1..], i));
      }
    }
  }

  /** A zero mask is not followed by a segment header: the next part is the first of 2^32. */
  lemma ZeroMaskDerails(c: Ctl, p: StreamPart)
    requires c.phase == SegHeader && |c.source| == |c.flv| == |c.fed| == STREAMS && ValidPart(p) && p.payload != []
    ensures var r := Feed(Sgi, Reader(c, []), SGI + Le32(0) + PartBytes(p));
            r.ctl.phase == StreamHeader && r.ctl.streamCnt == U32 - 1
  {
    var head := SGI + Le32(0);
    assert head + PartBytes(p) == head + PartHead(p) + p.payload;
    FeedConcat(Sgi, Reader(c, []), head + PartHead(p), p.payload);
    FeedConcat(Sgi, Reader(c, []), head, PartHead(p));
    MaskRead(c, 0);
    var c1 := Feed(Sgi, Reader(c, []), head).ctl;
    PartHeadRead(c1, p);
    FeedBulk(Sgi, Feed(Sgi, Reader(c1, []), PartHead(p)), p.payload);
    assert [] + p.payload == p.payload;
  }

  // ----- publishers' tags

  function RawTags(tags: seq<Tag>): (raw: seq<RawTag>) {
    if tags == [] then [] else [RawTag(tags[0].kind, TagRest(tags[0].ts, tags[0].body))] + RawTags(tags[1..])
  }

  lemma {:induction false} TagsRead(c: TagCtl, tags: seq<Tag>)
    requires !c.inTag && c.kind == 0 && c.tagSize == 0
    requires forall t :: t in tags ==> |t.body| < 0x100_0000
    ensures Feed(Flv, Reader(c, []), TagsBytes(tags)) == Reader(c.(parsed := c.parsed + RawTags(tags)), [])
    decreases |tags|
  {
    if tags == [] {
      assert c.parsed + [] == c.parsed;
    } else {
      var t := tags[0];
      var first := [RawTag(t.kind, TagRest(t.ts, t.body))];
      FeedConcat(Flv, Reader(c, []), TagBytes(t.kind, t.ts, t.body), TagsBytes(tags[1..]));
      TagRead(c, t.kind, t.ts, t.body);
      TagsRead(c.(parsed := c.parsed + first), tags[1..]);
      ConcatAssoc(c.parsed, first, RawTags(tags[1..]));
    }
  }

  /** Between segments, with stream i between tags. */
  ghost predicate Idle(r: Reader<Ctl>, i: nat) {
    r.buf == [] && r.ctl.phase == SegHeader && |r.ctl.source| == |r.ctl.flv| == |r.ctl.fed| == STREAMS && i < STREAMS &&
    r.ctl.flv[i].buf == [] && !r.ctl.flv[i].ctl.inTag && r.ctl.flv[i].ctl.kind == 0 && r.ctl.flv[i].ctl.tagSize == 0
  }

  lemma TagDelivered(c: Ctl, i: nat, tag: Tag)
    requires i < STREAMS && |c.source| == |c.flv| == |c.fed| == STREAMS && |tag.body| < 0x100_0000
    requires Idle(Reader(c.(phase := SegHeader), []), i)
    requires c.phase == StreamData && c.streamId == i && c.streamCnt == 1
    requires c.streamLen == |TagBytes(tag.kind, tag.ts, tag.body)|
    ensures var r := Feed(Sgi, Reader(c, []), TagBytes(tag.kind, tag.ts, tag.body));
            Idle(r, i) && r.ctl.log == c.log + [TagParsed(i, RawTag(tag.kind, TagRest(tag.ts, tag.body)))]
  {
    var payload := TagBytes(tag.kind, tag.ts, tag.body);
    FeedBulk(Sgi, Reader(c, []), payload);
    assert [] + payload == payload;
    TagRead(c.flv[i].ctl, tag.kind, tag.ts, tag.body);
    var found := [RawTag(tag.kind, TagRest(tag.ts, tag.body))];
    var c' := Deliver(c, payload);
    assert NewTags(c.flv[i], c'.flv[i]) == found;
    assert TagEvents(i, found) == [TagParsed(i, found[0])];
  }

  /** A segment that carries one whole tag is logged as mask, source and tag. */
  lemma WholeTagRead(r: Reader<Ctl>, mask: nat, i: nat, source: nat, tag: Tag)
    requires Idle(r, i) && |tag.body| < 0x100_0000
    requires ValidSegment(Segment(mask, [StreamPart(i, source, TagBytes(tag.kind, tag.ts, tag.body))]))
    ensures var segment := Segment(mask, [StreamPart(i, source, TagBytes(tag.kind, tag.ts, tag.body))]);
            var r' := Feed(Sgi, r, SegmentBytes(segment));
            Idle(r', i) &&
            r'.ctl.log == r.ctl.log +
              [Masked(mask), Sourced(i, source), TagParsed(i, RawTag(tag.kind, TagRest(tag.ts, tag.body)))]
  {
    var p := StreamPart(i, source, TagBytes(tag.kind, tag.ts, tag.body));
    var head := SGI + Le32(mask);
    assert p in [p];
    assert [p][1..] == [];
    assert PartsBytes([p]) == PartBytes(p);
    assert SegmentBytes(Segment(mask, [p])) == head + PartBytes(p);
    FeedConcat(Sgi, r, head, PartBytes(p));
    MaskRead(r.ctl, mask);
    var r1 := Feed(Sgi, r, head);
    FeedConcat(Sgi, r1, PartHead(p), p.payload);
    PartHeadRead(r1.ctl, p);
    TagDelivered(Feed(Sgi, r1, PartHead(p)).ctl, i, tag);
  }

  /**
   Every publisher's tags are recovered: cut each stream's FLV bytes into segments at any
   points, and the segment bytes into reads at any points.
   */
  lemma PublishersRecovered(ss: seq<Segment>, chunks: seq<seq<byte>>, tags: seq<seq<Tag>>)
    requires forall s :: s in ss ==> ValidSegment(s)
    requires Flatten(chunks) == SegmentsBytes(ss)
    requires |tags| == STREAMS
    requires forall i :: 0 <= i < STREAMS ==>
               Carried(ss, i) == TagsBytes(tags[i]) && forall t :: t in tags[i] ==> |t.body| < 0x100_0000
    ensures var r := FeedAll(Sgi, START, chunks);
            r.ctl.phase != Aborted && forall i :: 0 <= i < STREAMS ==> TagsOf(r.ctl.log, i) == RawTags(tags[i])
  {
    StreamsAreIndependent(chunks);
    SegmentsRead(START, START.ctl.fed, ss);
    var r := FeedAll(Sgi, START, chunks);
    forall i | 0 <= i < STREAMS
      ensures TagsOf(r.ctl.log, i) == RawTags(tags[i])
    {
      assert [] + Carried(ss, i) == Carried(ss, i);
      TagsRead(NO_TAGS.ctl, tags[i]);
      assert [] + RawTags(tags[i]) == RawTags(tags[i]);
    }
  }
}
