/**
 End to end on the output side: over any run, every packaged tag reaches its viewer once
 and in order, behind one preamble, through the multiplexer, any split into reads, and
 the SGO parser; and the viewer's bytes are a readable FLV file.
 */
module OutputStreams {
  import opened BitMask
  import opened Bytes
  import opened Chunked
  import opened FlvWriting
  import opened FlvReading
  import opened SegmentWriting
  import opened SegmentRoundTrip
  import SegmentDemuxing
  import opened Mixing
  import SegmentOutReading

  /** The frames getOutput hands to main over a run, slot by slot. */
  function FramesOf(m: Mix, metadata: seq<byte>, es: seq<Event>): seq<Buffers>
    decreases |es|
  {
    if es == [] then []
    else
      var rest := FramesOf(Step(m, es[0]), metadata, es[1..]);
      match es[0]
      case OutputAsked(codec) => [BuffersMade(m.sent, metadata, TagsMade(m, codec))] + rest
      case _ => rest
  }

  /** The bytes main writes over a run. */
  function BytesOf(m: Mix, metadata: seq<byte>, es: seq<Event>): seq<byte>
    decreases |es|
  {
    if es == [] then []
    else
      var rest := BytesOf(Step(m, es[0]), metadata, es[1..]);
      match es[0]
      case OutputAsked(codec) =>
        OutputBytes(m, metadata, codec).GetOr([]) + rest
      case _ => rest
  }

  /** The tags packaged for slot i over a run. */
  function SlotTags(m: Mix, es: seq<Event>, i: nat): seq<Tag>
    requires i < SLOTS
    decreases |es|
  {
    if es == [] then []
    else
      var rest := SlotTags(Step(m, es[0]), es[1..], i);
      match es[0]
      case OutputAsked(codec) =>
        (match TagsMade(m, codec)[i] case Some(t) => [t] case None => []) + rest
      case _ => rest
  }

  lemma {:induction false} WrittenIsEmitted(m: Mix, metadata: seq<byte>, es: seq<Event>)
    ensures BytesOf(m, metadata, es) == Emitted(FramesOf(m, metadata, es))
    decreases |es|
  {
    if es != [] {
      WrittenIsEmitted(Step(m, es[0]), metadata, es[1..]);
      if es[0].OutputAsked? {
        var f := BuffersMade(m.sent, metadata, TagsMade(m, es[0].codec));
        var rest := FramesOf(Step(m, es[0]), metadata, es[1..]);
        assert ([f] + rest)[1..] == rest;
      }
    }
  }

  lemma {:induction false} RunSnoc(m: Mix, metadata: seq<byte>, es: seq<Event>, e: Event)
    ensures Run(m, es + [e]) == Step(Run(m, es), e)
    ensures BytesOf(m, metadata, es + [e])
            == BytesOf(m, metadata, es) +
                (if e.OutputAsked? then OutputBytes(Run(m, es), metadata, e.codec).GetOr([]) else [])
    decreases |es|
  {
    if es == [] {
      assert es + [e] == [e];
      assert Run(Step(m, e), [e][1..]) == Step(m, e);
      assert BytesOf(Step(m, e), metadata, [e][1..]) == [];
    } else {
      assert (es + [e])[0] == es[0] && (es + [e])[1..] == es[1..] + [e];
      RunSnoc(Step(m, es[0]), metadata, es[1..], e);
      if es[0].OutputAsked? {
        ConcatAssoc(OutputBytes(m, metadata, es[0].codec).GetOr([]), BytesOf(Step(m, es[0]), metadata, es[1..]),
                    if e.OutputAsked? then OutputBytes(Run(m, es), metadata, e.codec).GetOr([]) else []);
      }
    }
  }

  /** A slot's bytes: nothing, or its tags, behind the preamble unless that was sent before. */
  function SlotBytes(sent: bool, metadata: seq<byte>, tags: seq<Tag>): seq<byte> {
    if tags == [] then [] else (if sent then [] else Preamble(metadata)) + TagsBytes(tags)
  }

  lemma SentFollows(m: Mix, e: Event, i: nat)
    requires i < SLOTS
    ensures Step(m, e).sent[i] == (m.sent[i] || (e.OutputAsked? && TagsMade(m, e.codec)[i].Some?))
  {
    if e.OutputAsked? && !m.crashed {
      assert Popped(m).0.sent == m.sent;
    }
  }

  lemma SlotGrows(sent: bool, metadata: seq<byte>, tag: Option<Tag>, rest: seq<Tag>)
    ensures BufferMade(sent, metadata, tag) + SlotBytes(sent || tag.Some?, metadata, rest)
            == SlotBytes(sent, metadata, (match tag case Some(t) => [t] case None => []) + rest)
  {
    if tag.None? {
      assert [] + rest == rest;
      assert [] + SlotBytes(sent, metadata, rest) == SlotBytes(sent, metadata, rest);
    } else {
      var t := tag.value;
      var b := TagBytes(t.kind, t.ts, t.body);
      assert ([t] + rest)[1..] == rest;
      assert TagsBytes([t] + rest) == b + TagsBytes(rest);
      assert TagsBytes([]) == [];
      assert SlotBytes(true, metadata, rest) == TagsBytes(rest);
      if sent {
        assert [] + (b + TagsBytes(rest)) == b + TagsBytes(rest);
      } else {
        ConcatAssoc(Preamble(metadata), b, TagsBytes(rest));
      }
    }
  }

  /** No buffer is ever overwritten: what slot i is given over a run is all its tags, once each, in order. */
  lemma {:induction false} NothingLost(m: Mix, metadata: seq<byte>, es: seq<Event>, i: nat)
    requires i < SLOTS
    ensures Collected(FramesOf(m, metadata, es), i) == SlotBytes(m.sent[i], metadata, SlotTags(m, es, i))
    decreases |es|
  {
    if es != [] {
      var m' := Step(m, es[0]);
      NothingLost(m', metadata, es[1..], i);
      SentFollows(m, es[0], i);
      if es[0].OutputAsked? {
        var tags := TagsMade(m, es[0].codec);
        var f := BuffersMade(m.sent, metadata, tags);
        var rest := FramesOf(m', metadata, es[1..]);
        assert ([f] + rest)[0] == f && ([f] + rest)[1..] == rest;
        SlotGrows(m.sent[i], metadata, tags[i], SlotTags(m', es[1..], i));
      }
    }
  }

  // ----- sizes

  /** Every packet fits the 24-bit DataSize field of its tag. */
  ghost predicate Fits(codec: Codec) {
    (codec.video.Some? ==> |codec.video.value| < 0xff_fff0) &&
    forall i :: 0 <= i < SLOTS && codec.audio[i].Some? ==> |codec.audio[i].value| < 0xff_fff0
  }

  lemma {:induction false} TotalLenBound(bufs: Buffers, n: nat)
    requires n <= SLOTS && forall i :: 0 <= i < SLOTS ==> |bufs[i]| <= 0x200_0000
    ensures TotalLen(bufs, n) <= n * 0x200_0000
  {
    if n > 0 {
      TotalLenBound(bufs, n - 1);
    }
  }

  /** One frame always fits the int offsets of the multiplexer. */
  lemma FrameSize(sent: SentFlags, metadata: seq<byte>, tags: TagRow)
    requires |metadata| == METADATA_SIZE
    requires forall i :: 0 <= i < SLOTS && tags[i].Some? ==> |tags[i].value.body| < 0x100_0000
    ensures var bufs := BuffersMade(sent, metadata, tags); TotalLen(bufs, |bufs|) < 0x7fff_0000
  {
    var bufs := BuffersMade(sent, metadata, tags);
    TotalLenBound(bufs, |bufs|);
  }

  lemma TagsFit(m: Mix, codec: Codec)
    requires Fits(codec)
    ensures var tags := TagsMade(m, codec);
            forall i :: 0 <= i < SLOTS && tags[i].Some? ==> |tags[i].value.body| < 0x100_0000
  {
  }

  /** The frames of a run fit their length fields, and its tags their size fields. */
  lemma {:induction false} RunFits(m: Mix, metadata: seq<byte>, es: seq<Event>, i: nat)
    requires i < SLOTS && |metadata| == METADATA_SIZE && AllFit(es)
    ensures forall f :: f in FramesOf(m, metadata, es) ==> Encodable(f)
    ensures forall t :: t in SlotTags(m, es, i) ==> |t.body| < 0x100_0000
    decreases |es|
  {
    if es != [] {
      assert forall e :: e in es[1..] ==> e in es;
      RunFits(Step(m, es[0]), metadata, es[1..], i);
      if es[0].OutputAsked? {
        assert es[0] in es;
        TagsFit(m, es[0].codec);
      }
    }
  }

  ghost predicate AllFit(es: seq<Event>) {
    forall e :: e in es && e.OutputAsked? ==> Fits(e.codec)
  }

  /** The script tag of the preamble as an FLV reader sees it, then the given tags. */
  function FileTags(metadata: seq<byte>, tags: seq<Tag>): seq<RawTag> {
    SegmentDemuxing.RawTags([Tag(SCRIPT_TAG, 0, metadata)] + tags)
  }

  /** Nothing, or a file an FLV reader takes apart into the script tag and exactly these tags. */
  ghost predicate IsFileOf(file: seq<byte>, metadata: seq<byte>, tags: seq<Tag>) {
    if tags == [] then file == []
    else |file| >= 13 && file[..13] == FILE_HEADER &&
         Feed(Flv, NO_TAGS, file[13..]) == Reader(TagCtl(false, 0, 0, FileTags(metadata, tags)), [])
  }

  ghost predicate ViewerHas(r: Reader<SegmentOutReading.Ctl>, i: nat, metadata: seq<byte>, tags: seq<Tag>)
    requires i < SLOTS
  {
    IsFileOf(r.ctl.written[i], metadata, tags)
  }

  lemma FileReads(metadata: seq<byte>, tags: seq<Tag>)
    requires |metadata| == METADATA_SIZE && forall t :: t in tags ==> |t.body| < 0x100_0000
    ensures var file := Preamble(metadata) + TagsBytes(tags);
            file[..13] == FILE_HEADER &&
            Feed(Flv, NO_TAGS, file[13..]) == Reader(NO_TAGS.ctl.(parsed := FileTags(metadata, tags)), [])
  {
    var script := Tag(SCRIPT_TAG, 0, metadata);
    var file := Preamble(metadata) + TagsBytes(tags);
    var all := [script] + tags;
    assert all[1..] == tags;
    assert file == FILE_HEADER + (TagBytes(SCRIPT_TAG, 0, metadata) + TagsBytes(tags));
    assert file[13..] == TagsBytes(all);
    SegmentDemuxing.TagsRead(NO_TAGS.ctl, all);
    assert [] + SegmentDemuxing.RawTags(all) == SegmentDemuxing.RawTags(all);
  }

  /** No frame is for more mobile viewers than the SGO parser accepts. */
  ghost predicate FewViewers(frames: seq<Buffers>) {
    forall f :: f in frames ==> Viewers(f) <= 30
  }

  /** Streams that are a mobile source at the start of a run, or that some segment of it marks as one. */
  predicate EverMobile(m: Mix, es: seq<Event>, i: nat)
    requires i < STREAMS
  {
    m.source[i] == MOBILE || SourceSeen(i, MOBILE) in es
  }

  function MobileSources(m: Mix, es: seq<Event>): (p: seq<bool>)
    ensures |p| == 32
  {
    seq(32, i requires 0 <= i < 32 => EverMobile(m, es, i))
  }

  lemma {:induction false} CountMonotone(a: seq<bool>, b: seq<bool>)
    requires |a| == |b| && forall i :: 0 <= i < |a| && a[i] ==> b[i]
    ensures Count(a) <= Count(b)
  {
    if a != [] {
      CountMonotone(a[1..], b[1..]);
    }
  }

  /** A frame is for mobile sources only, besides the all-in stream. */
  lemma ViewersAreMobile(m: Mix, metadata: seq<byte>, codec: Codec, es: seq<Event>)
    ensures Viewers(BuffersMade(m.sent, metadata, TagsMade(m, codec))) <= Count(MobileSources(m, es))
  {
    var f := BuffersMade(m.sent, metadata, TagsMade(m, codec));
    forall i | 0 <= i < STREAMS && Present(f)[i]
      ensures m.source[i] == MOBILE
    {
      assert Popped(m).0.source == m.source;
    }
    CountMonotone(Present(f)[..32], MobileSources(m, es));
  }

  lemma MobileAfter(m: Mix, e: Event, i: nat)
    requires i < STREAMS && Step(m, e).source[i] == MOBILE
    ensures m.source[i] == MOBILE || e == SourceSeen(i, MOBILE)
  {
    if e.OutputAsked? && !m.crashed {
      assert Popped(m).0.source == m.source;
    }
  }

  /** So at most 30 mobile sources over a run keep every frame of it within what the SGO parser accepts. */
  lemma {:induction false} FewMobilesFewViewers(m: Mix, metadata: seq<byte>, es: seq<Event>)
    requires Count(MobileSources(m, es)) <= 30
    ensures FewViewers(FramesOf(m, metadata, es))
    decreases |es|
  {
    if es != [] {
      var m' := Step(m, es[0]);
      forall i | 0 <= i < STREAMS && EverMobile(m', es[1..], i)
        ensures EverMobile(m, es, i)
      {
        if m'.source[i] == MOBILE {
          MobileAfter(m, es[0], i);
        }
      }
      CountMonotone(MobileSources(m', es[1..]), MobileSources(m, es));
      FewMobilesFewViewers(m', metadata, es[1..]);
      if es[0].OutputAsked? {
        ViewersAreMobile(m, metadata, es[0].codec, es);
      }
    }
  }

  /**
   From start-up: split the bytes main writes over any run into any reads; writer i of the
   SGO parser ends up with nothing if no tag was made for slot i, and otherwise with an
   FLV file whose tags are the script tag and then exactly those made, in order.
   */
  lemma ViewersGetTheirTags(es: seq<Event>, metadata: seq<byte>, chunks: seq<seq<byte>>, i: nat)
    requires i < SLOTS && |metadata| == METADATA_SIZE
    requires Flatten(chunks) == BytesOf(START, metadata, es)
    requires AllFit(es) && FewViewers(FramesOf(START, metadata, es))
    ensures ViewerHas(FeedAll(SegmentOutReading.Sgo, SegmentOutReading.START, chunks), i, metadata,
            SlotTags(START, es, i))
  {
    var frames := FramesOf(START, metadata, es);
    WrittenIsEmitted(START, metadata, es);
    RunFits(START, metadata, es, i);
    assert forall k :: 0 <= k < |frames| ==> frames[k] in frames;
    RoundTrip(frames, chunks);
    NothingLost(START, metadata, es, i);
    FileReads(metadata, SlotTags(START, es, i));
  }
}
