/** The MixCoder class: getOutput step by step, and main's loop that drains it. */
module MixCoding {
  import opened BitMask
  import opened Bytes
  import opened FlvWriting
  import opened SegmentWriting
  import opened Scheduling
  import opened BucketClock
  import opened Mixing
  import opened MixingRuns
  import opened OutputStreams

  /** The first n calls of a drain. */
  function Asked(codecs: nat -> Codec, n: nat): (es: seq<Event>)
    ensures |es| == n
  {
    seq(n, k requires 0 <= k < n => OutputAsked(codecs(k)))
  }

  lemma AskedSnoc(codecs: nat -> Codec, n: nat)
    ensures Asked(codecs, n + 1) == Asked(codecs, n) + [OutputAsked(codecs(n))]
    ensures Asked(codecs, n + 1)[..n] == Asked(codecs, n)
  {
  }

  class MixCoder {
    const metadata: seq<byte>
    const flvSegParser: FlvSegmentParser
    const flvSegOutput: FlvSegmentOutput
    var rawVideoData: VideoCache
    var videoIsValid: Flags
    var rawAudioData: AudioCache
    var audioIsValid: Flags
    var streamSource: Sources
    var crashed: bool

    ghost predicate Valid()
      reads flvSegOutput
    {
      Packaging() && flvSegOutput.outputBuffer == NO_BUFFERS
    }

    ghost function State(): Mix
      requires flvSegOutput.Valid()
      reads this, flvSegParser, flvSegOutput, flvSegOutput.output
    {
      Mix(flvSegParser.State(), rawVideoData, videoIsValid, rawAudioData, audioIsValid, streamSource,
          flvSegOutput.Sent(), crashed)
    }

    constructor (metadata: seq<byte>)
      requires |metadata| == METADATA_SIZE
      ensures Valid() && State() == START
      ensures fresh(flvSegParser) && fresh(flvSegOutput) && fresh(flvSegOutput.output)
    {
      this.metadata := metadata;
      flvSegParser := new FlvSegmentParser();
      flvSegOutput := new FlvSegmentOutput(metadata, Mp3);
      rawVideoData, videoIsValid := seq(32, _ => None), seq(32, _ => false);
      rawAudioData, audioIsValid := seq(32, _ => None), seq(32, _ => false);
      streamSource, crashed := seq(32, _ => 0), false;
    }

    /** One call: select, pop, package, multiplex. Buffers are empty again afterwards. */
    method GetOutput(codec: Codec) returns (result: Option<seq<byte>>)
      requires Valid() && QueuesStamped(flvSegParser.State()) && Fits(codec)
      modifies this, flvSegParser, flvSegOutput, flvSegOutput.output
      ensures Valid() && State() == Mixing.GetOutput(old(State()), codec)
      ensures result == OutputBytes(old(State()), metadata, codec)
    {
      ghost var m := State();
      ghost var tags := TagsMade(m, codec);
      if crashed {
        NothingToSend(m.sent, metadata);
        return None;
      }
      SelectAndPackage(codec);
      TagsFit(m, codec);
      FrameSize(m.sent, metadata, tags);
      result := flvSegOutput.GetOneFrameForAllStreams();
    }

    /** main's drain loop: ask until there is no output. `codecs(k)` is what the encoders return in call k. */
    method Drain(codecs: nat -> Codec) returns (written: seq<byte>, ghost calls: seq<Event>)
      requires Valid() && QueuesStamped(flvSegParser.State()) && forall k: nat :: Fits(codecs(k))
      modifies this, flvSegParser, flvSegOutput, flvSegOutput.output
      ensures Valid() && State() == Run(old(State()), calls) && written == BytesOf(old(State()), metadata, calls)
      ensures |calls| > 0 && calls == Asked(codecs, |calls|)
      ensures OutputBytes(Run(old(State()), calls[..|calls| - 1]), metadata, codecs(|calls| - 1)) == None
    {
      ghost var m := State();
      var n := 0;
      written, calls := [], [];
      while true
        invariant Valid() && QueuesStamped(flvSegParser.State()) && n == |calls|
        invariant State() == Run(m, calls) && written == BytesOf(m, metadata, calls)
        invariant calls == Asked(codecs, n)
        decreases Total(flvSegParser.audioQueue), NotStartedYet(flvSegParser.State()), Total(flvSegParser.videoQueue),
                  Gap(flvSegParser.State())
      {
        ghost var before := calls;
        var output := Ask(codecs(n), m, calls);
        AskedSnoc(codecs, n);
        calls, n := calls + [OutputAsked(codecs(n))], n + 1;
        if output.None? {
          assert calls[..n - 1] == before;
          break;
        }
        written := written + output.value;
      }
    }

    /** One turn of that loop. */
    method Ask(codec: Codec, ghost m: Mix, ghost calls: seq<Event>) returns (output: Option<seq<byte>>)
      requires Valid() && QueuesStamped(flvSegParser.State()) && Fits(codec) && State() == Run(m, calls)
      modifies this, flvSegParser, flvSegOutput, flvSegOutput.output
      ensures Valid() && QueuesStamped(flvSegParser.State()) && State() == Run(m, calls + [OutputAsked(codec)])
      ensures output == OutputBytes(Run(m, calls), metadata, codec)
      ensures BytesOf(m, metadata, calls + [OutputAsked(codec)]) == BytesOf(m, metadata, calls) + output.GetOr([])
      ensures output.Some? ==> Decreases(flvSegParser.State(), old(flvSegParser.State()))
    {
      ghost var before := State();
      output := GetOutput(codec);
      CallSnoc(m, metadata, calls, codec);
      CallKeepsStamps(before);
      if output.Some? {
        BytesNeedAStream(before, metadata, codec);
        CallDecreases(before);
      }
    }

    method SelectAndPackage(codec: Codec)
      requires Valid() && !crashed && QueuesStamped(flvSegParser.State())
      modifies this, flvSegParser, flvSegOutput, flvSegOutput.output
      ensures flvSegOutput.Valid() && State() == Mixing.GetOutput(old(State()), codec)
      ensures flvSegOutput.outputBuffer == BuffersMade(old(State()).sent, metadata, TagsMade(old(State()), codec))
    {
      ghost var m := State();
      StampFits(m);
      var choice := Select();
      if choice.VideoStream? {
        VideoBranch(choice.pts, codec, m);
      } else if choice.AudioStream? {
        AudioBranch(choice.pts, codec, m);
      } else {
        NoTags(m, codec);
        NothingToSend(m.sent, metadata);
        crashed := choice.Crash?;
      }
    }

    method VideoBranch(t: nat, codec: Codec, ghost m: Mix)
      requires Valid() && t < U32 && !m.crashed && Pick(m.parser) == (flvSegParser.State(), VideoStream(t))
      requires State() == m.(parser := flvSegParser.State())
      modifies this, flvSegParser, flvSegOutput, flvSegOutput.output
      ensures flvSegOutput.Valid() && State() == Mixing.GetOutput(m, codec)
      ensures flvSegOutput.outputBuffer == BuffersMade(m.sent, metadata, TagsMade(m, codec))
    {
      var total := PopVideoFrames(t);
      ghost var tags := TagsMade(m, codec);
      if total > 0 && codec.video.Some? {
        PackageVideo(t, codec, tags);
      } else {
        assert tags == NO_TAG_ROW;
        NothingToSend(m.sent, metadata);
      }
    }

    method AudioBranch(a: nat, codec: Codec, ghost m: Mix)
      requires Valid() && a < U32 && !m.crashed && Pick(m.parser) == (flvSegParser.State(), AudioStream(a))
      requires State() == m.(parser := flvSegParser.State())
      modifies this, flvSegParser, flvSegOutput, flvSegOutput.output
      ensures flvSegOutput.Valid() && State() == Mixing.GetOutput(m, codec)
      ensures flvSegOutput.outputBuffer == BuffersMade(m.sent, metadata, TagsMade(m, codec))
    {
      var total := PopAudioFrames();
      ghost var tags := TagsMade(m, codec);
      if total > 0 {
        PackageAudio(a, codec, tags);
      } else {
        assert tags == NO_TAG_ROW;
        NothingToSend(m.sent, metadata);
      }
    }

    method Select() returns (choice: Choice)
      requires flvSegOutput.Valid()
      modifies flvSegParser
      ensures (flvSegParser.State(), choice) == Pick(old(flvSegParser.State()))
    {
      choice := NoStream;
      var audio := flvSegParser.IsNextAudioStreamReady();
      if audio.Ready? {
        var video := flvSegParser.IsNextVideoStreamReady(audio.ts);
        if video.AssertFails? {
          choice := Crash;
        } else if video.Ready? {
          choice := if audio.ts < video.ts then AudioStream(audio.ts) else VideoStream(video.ts);
        } else {
          choice := AudioStream(audio.ts);
        }
      }
    }

    /** The do-while loop: pop every frame not past t, keep the last one. */
    method DrainStream(i: nat, t: nat)
      requires i < STREAMS
      modifies flvSegParser`videoQueue, this`rawVideoData
      ensures flvSegParser.videoQueue == old(flvSegParser.videoQueue)[i := DrainTo(old(flvSegParser.videoQueue)[i], t)]
      ensures rawVideoData ==
              old(rawVideoData)[i := LastDrained(old(flvSegParser.videoQueue)[i], t, old(rawVideoData)[i])]
    {
      while true
        invariant DrainTo(flvSegParser.videoQueue[i], t) == DrainTo(old(flvSegParser.videoQueue)[i], t)
        invariant LastDrained(flvSegParser.videoQueue[i], t, rawVideoData[i])
               == LastDrained(old(flvSegParser.videoQueue)[i], t, old(rawVideoData)[i])
        invariant forall j :: 0 <= j < STREAMS && j != i ==>
                    flvSegParser.videoQueue[j] == old(flvSegParser.videoQueue)[j] &&
                        rawVideoData[j] == old(rawVideoData)[j]
        decreases |flvSegParser.videoQueue[i]|
      {
        var v := flvSegParser.GetNextVideoFrame(i, t);
        if v.None? {
          break;
        }
        rawVideoData := rawVideoData[i := v];
      }
      assert flvSegParser.videoQueue == old(flvSegParser.videoQueue)[i := DrainTo(old(flvSegParser.videoQueue)[i], t)];
      assert rawVideoData ==
             old(rawVideoData)[i := LastDrained(old(flvSegParser.videoQueue)[i], t, old(rawVideoData)[i])];
    }

    /** One stream's turn in that loop; tells whether the stream is to be composed. */
    method PopVideoStream(i: nat, t: nat) returns (on: bool)
      requires i < STREAMS
      modifies flvSegParser`videoQueue, this`rawVideoData, this`videoIsValid
      ensures flvSegParser.videoQueue ==
              old(flvSegParser.videoQueue)[i := VideoQueueAfter(old(flvSegParser.State()), t, i)]
      ensures rawVideoData == old(rawVideoData)[i := CachedAfter(old(flvSegParser.State()), old(rawVideoData), t, i)]
      ensures videoIsValid ==
              old(videoIsValid)[i := ValidAfter(old(flvSegParser.State()), old(rawVideoData), old(videoIsValid), t, i)]
      ensures on == (rawVideoData[i].Some? && videoIsValid[i])
    {
      var started := flvSegParser.videoStreamStatus[i] == Started;
      var isValidFrame := false;
      if started {
        DrainStream(i, t);
        var d := flvSegParser.videoDecoder[i];
        isValidFrame := d.firstFrameStarted && d.firstFramePts <= t;
      }
      on := false;
      if rawVideoData[i].Some? {
        videoIsValid := videoIsValid[i := started && isValidFrame];
        on := videoIsValid[i];
      }
    }

    /** The first loop of the video branch; returns how many streams there are to compose. */
    method PopVideoFrames(t: nat) returns (totalStreams: nat)
      requires flvSegOutput.Valid()
      modifies flvSegParser`videoQueue, this`rawVideoData, this`videoIsValid
      ensures State() == PopVideo(old(State()), t)
      ensures totalStreams > 0 <==> AnyVideoOn(State())
    {
      ghost var m, s := State(), flvSegParser.State();
      totalStreams := 0;
      for i := 0 to STREAMS
        invariant forall j :: 0 <= j < STREAMS ==>
                  flvSegParser.videoQueue[j] == if j < i then VideoQueueAfter(s, t, j) else s.videoQueue[j]
        invariant forall j :: 0 <= j < STREAMS ==>
                  rawVideoData[j] == if j < i then CachedAfter(s, m.rawVideo, t, j) else m.rawVideo[j]
        invariant forall j :: 0 <= j < STREAMS ==>
                    videoIsValid[j] == if j < i then ValidAfter(s, m.rawVideo, m.videoValid, t, j) else m.videoValid[j]
        invariant totalStreams > 0 <==> exists j :: 0 <= j < i && rawVideoData[j].Some? && videoIsValid[j]
      {
        var on := PopVideoStream(i, t);
        if on {
          totalStreams := totalStreams + 1;
        }
      }
      ghost var m' := State();
      assert forall j :: 0 <= j < STREAMS ==> (VideoOn(m', j) <==> rawVideoData[j].Some? && videoIsValid[j]);
      assert State().parser.videoQueue == PopVideo(m, t).parser.videoQueue;
      assert State().rawVideo == PopVideo(m, t).rawVideo;
      assert State().videoValid == PopVideo(m, t).videoValid;
    }

    /** One stream's turn in the audio loop; a started stream has a frame. */
    method PopAudioStream(i: nat) returns (on: bool)
      requires i < STREAMS && (flvSegParser.audioStreamStatus[i] == Started ==> flvSegParser.audioQueue[i] != [])
      modifies flvSegParser`audioQueue, this`rawAudioData, this`audioIsValid
      ensures flvSegParser.audioQueue ==
              old(flvSegParser.audioQueue)[i := AudioQueueAfter(old(flvSegParser.State()), i)]
      ensures rawAudioData == old(rawAudioData)[i := AudioCachedAfter(old(flvSegParser.State()), old(rawAudioData), i)]
      ensures audioIsValid == old(audioIsValid)[i :=
              AudioValidAfter(old(flvSegParser.State()), old(rawAudioData), old(audioIsValid), i)]
      ensures on == (rawAudioData[i].Some? && audioIsValid[i])
    {
      var started := flvSegParser.audioStreamStatus[i] == Started;
      if started {
        var a := flvSegParser.GetNextAudioFrame(i);
        rawAudioData := rawAudioData[i := a];
      }
      on := false;
      if rawAudioData[i].Some? {
        audioIsValid := audioIsValid[i := started];
        on := started;
      }
    }

    /** The first loop of the audio branch. */
    method PopAudioFrames() returns (totalStreams: nat)
      requires flvSegOutput.Valid() && AudioFilled(flvSegParser.State(), STREAMS)
      modifies flvSegParser`audioQueue, this`rawAudioData, this`audioIsValid
      ensures State() == PopAudio(old(State()))
      ensures totalStreams > 0 <==> AnyAudioOn(State())
    {
      ghost var m, s := State(), flvSegParser.State();
      totalStreams := 0;
      for i := 0 to STREAMS
        invariant forall j :: 0 <= j < STREAMS ==>
                  flvSegParser.audioQueue[j] == if j < i then AudioQueueAfter(s, j) else s.audioQueue[j]
        invariant forall j :: 0 <= j < STREAMS ==>
                  rawAudioData[j] == if j < i then AudioCachedAfter(s, m.rawAudio, j) else m.rawAudio[j]
        invariant forall j :: 0 <= j < STREAMS ==>
                    audioIsValid[j] ==
                    if j < i then AudioValidAfter(s, m.rawAudio, m.audioValid, j) else m.audioValid[j]
        invariant totalStreams > 0 <==> exists j :: 0 <= j < i && rawAudioData[j].Some? && audioIsValid[j]
      {
        var on := PopAudioStream(i);
        if on {
          totalStreams := totalStreams + 1;
        }
      }
      ghost var m' := State();
      assert forall j :: 0 <= j < STREAMS ==> (AudioOn(m', j) <==> rawAudioData[j].Some? && audioIsValid[j]);
      assert State().parser.audioQueue == PopAudio(m).parser.audioQueue;
      assert State().rawAudio == PopAudio(m).rawAudio;
      assert State().audioValid == PopAudio(m).audioValid;
    }

    /** One tag for each valid mobile stream, with its tile, and one for the all-in stream. */
    method PackageVideo(t: nat, codec: Codec, ghost tags: TagRow)
      requires Valid() && t < U32 && codec.video.Some? && AnyVideoOn(State())
      requires forall i :: 0 <= i < SLOTS ==> tags[i] == VideoTagFor(State(), t, codec, i)
      modifies flvSegOutput, flvSegOutput.output
      ensures flvSegOutput.Valid() && flvSegOutput.outputBuffer == BuffersMade(old(flvSegOutput.Sent()), metadata, tags)
      ensures flvSegOutput.Sent() == SentAfter(old(flvSegOutput.Sent()), tags)
    {
      ghost var sent := flvSegOutput.Sent();
      for i := 0 to STREAMS
        invariant flvSegOutput.Valid() && PackagedUpTo(sent, tags, i)
      {
        if rawVideoData[i].Some? && videoIsValid[i] && streamSource[i] == MOBILE {
          PackageVideoTag(t, codec, i, codec.rects[i], sent, tags);
        }
      }
      PackageVideoTag(t, codec, ALL_IN, NO_RECT, sent, tags);
      AllPackaged(sent, tags);
    }

    /** The next slot's video tag. */
    method PackageVideoTag(t: nat, codec: Codec, i: nat, rect: VideoRect, ghost sent: SentFlags, ghost tags: TagRow)
      requires Packaging() && i < SLOTS && t < U32 && codec.video.Some? && PackagedUpTo(sent, tags, i)
      requires tags[i] == Some(VideoTag(codec, t, rect))
      modifies flvSegOutput, flvSegOutput.output
      ensures Packaging() && PackagedUpTo(sent, tags, i + 1)
    {
      flvSegOutput.PackageVideoFrame(codec.video.value, t, codec.isKey, i, rect);
    }

    method PackageAudio(a: nat, codec: Codec, ghost tags: TagRow)
      requires Valid() && a < U32 && AnyAudioOn(State())
      requires forall i :: 0 <= i < SLOTS ==> tags[i] == AudioTagFor(State(), a, codec, i)
      modifies flvSegOutput, flvSegOutput.output
      ensures flvSegOutput.Valid() && flvSegOutput.outputBuffer == BuffersMade(old(flvSegOutput.Sent()), metadata, tags)
      ensures flvSegOutput.Sent() == SentAfter(old(flvSegOutput.Sent()), tags)
    {
      ghost var sent := flvSegOutput.Sent();
      for i := 0 to STREAMS
        invariant flvSegOutput.Valid() && PackagedUpTo(sent, tags, i)
      {
        if rawAudioData[i].Some? && audioIsValid[i] && streamSource[i] == MOBILE {
          if codec.audio[i].Some? {
            PackageAudioTag(a, codec, i, sent, tags);
          }
        }
      }
      if codec.audio[ALL_IN].Some? {
        PackageAudioTag(a, codec, ALL_IN, sent, tags);
      }
      AllPackaged(sent, tags);
    }

    /** The next slot's audio tag. */
    method PackageAudioTag(a: nat, codec: Codec, i: nat, ghost sent: SentFlags, ghost tags: TagRow)
      requires Packaging() && i < SLOTS && a < U32 && codec.audio[i].Some? && PackagedUpTo(sent, tags, i)
      requires tags[i] == Some(AudioTag(codec.audio[i].value, a))
      modifies flvSegOutput, flvSegOutput.output
      ensures Packaging() && PackagedUpTo(sent, tags, i + 1)
    {
      flvSegOutput.PackageAudioFrame(codec.audio[i].value, a, i);
    }

    /** Valid, with some buffers filled. */
    ghost predicate Packaging()
      reads flvSegOutput
    {
      flvSegOutput.Valid() && flvSegOutput.output[0].metadata == metadata && flvSegOutput.output[0].codec == Mp3 &&
      |metadata| == METADATA_SIZE
    }

    /** The slots below n are packaged, the others untouched. */
    ghost predicate PackagedUpTo(sent: SentFlags, tags: TagRow, n: nat)
      requires flvSegOutput.Valid()
      reads flvSegOutput, flvSegOutput.output
    {
      forall j :: 0 <= j < SLOTS ==>
        flvSegOutput.outputBuffer[j] == (if j < n then BufferMade(sent[j], metadata, tags[j]) else []) &&
        flvSegOutput.Sent()[j] == (sent[j] || (j < n && tags[j].Some?))
    }

    lemma AllPackaged(sent: SentFlags, tags: TagRow)
      requires flvSegOutput.Valid() && PackagedUpTo(sent, tags, SLOTS)
      ensures flvSegOutput.outputBuffer == BuffersMade(sent, metadata, tags)
      ensures flvSegOutput.Sent() == SentAfter(sent, tags)
    {
    }
  }

  lemma CallSnoc(m: Mix, metadata: seq<byte>, es: seq<Event>, codec: Codec)
    ensures Run(m, es + [OutputAsked(codec)]) == Mixing.GetOutput(Run(m, es), codec)
    ensures BytesOf(m, metadata, es + [OutputAsked(codec)])
            == BytesOf(m, metadata, es) + OutputBytes(Run(m, es), metadata, codec).GetOr([])
  {
    var last := Run(m, es);
    RunSnoc(m, metadata, es, OutputAsked(codec));
    AskIsCall(last, codec);
  }

  /** Only a call that selected a stream has bytes to return. */
  lemma BytesNeedAStream(m: Mix, metadata: seq<byte>, codec: Codec)
    ensures m.crashed || Popped(m).1 == NoStream || Popped(m).1 == Crash ==> OutputBytes(m, metadata, codec) == None
  {
    NothingToSend(m.sent, metadata);
    if m.crashed || Popped(m).1 == NoStream || Popped(m).1 == Crash {
      NoTags(m, codec);
    }
  }

  lemma NothingToSend(sent: SentFlags, metadata: seq<byte>)
    ensures BuffersMade(sent, metadata, NO_TAG_ROW) == NO_BUFFERS && OneFrame(NO_BUFFERS) == None
    ensures SentAfter(sent, NO_TAG_ROW) == sent
  {
  }

  /** The stamps packaged are u32 stamps. */
  lemma StampFits(m: Mix)
    requires QueuesStamped(m.parser)
    ensures var choice := Pick(m.parser).1;
            (choice.AudioStream? || choice.VideoStream?) ==> choice.pts < U32
  {
    var s := m.parser;
    if AudioReady(s).Ready? {
      AudioStampIsMin(s, |s.audioQueue|);
    }
  }

  lemma NoTags(m: Mix, codec: Codec)
    requires m.crashed || Pick(m.parser).1.NoStream? || Pick(m.parser).1.Crash?
    ensures TagsMade(m, codec) == NO_TAG_ROW
  {
  }
}
