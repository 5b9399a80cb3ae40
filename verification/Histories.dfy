/**
 What the mixer remembers of a run, told from the run's events alone: which streams are
 started, where they come from, what has arrived for them and how much of it has been taken;
 and from that, exactly which streams a video call composes.
 */
module Histories {
  import opened BitMask
  import opened Bytes
  import opened Scheduling
  import opened Mixing
  import MixingRuns
  import P = PictureValidity

  // ----- what the events say

  /** The records that arrived for stream i: every sequence header, and every picture that decoded. */
  function Records(es: seq<Event>, i: nat): seq<VideoRaw> {
    if es == [] then [] else Records(es[..|es| - 1], i) + RecordsIn(es[|es| - 1], i)
  }

  function RecordsIn(e: Event, i: nat): seq<VideoRaw> {
    if !e.VideoParsed? || e.id != i then []
    else if e.u.isSpsPps then [VideoRaw(e.u.pts, true, None)]
    else if e.u.decoded.Some? then [VideoRaw(e.u.pts, false, e.u.decoded)]
    else []
  }

  /** The audio frames that arrived for stream i. */
  function Frames(es: seq<Event>, i: nat): seq<AudioRaw> {
    if es == [] then [] else Frames(es[..|es| - 1], i) + FramesIn(es[|es| - 1], i)
  }

  function FramesIn(e: Event, i: nat): seq<AudioRaw> {
    if e.AudioParsed? && e.id == i then e.frames else []
  }

  /** Since something arrived for stream i, every mask has had its bit. */
  ghost predicate VideoOnline(es: seq<Event>, i: nat) {
    exists k :: 0 <= k < |es| && RecordsIn(es[k], i) != [] && KeptBy(es, k, i)
  }

  ghost predicate AudioOnline(es: seq<Event>, i: nat) {
    exists k :: 0 <= k < |es| && es[k].AudioParsed? && es[k].id == i && KeptBy(es, k, i)
  }

  ghost predicate KeptBy(es: seq<Event>, k: nat, i: nat) {
    forall j :: k < j < |es| && es[j].MaskSeen? ==> Bit(es[j].mask, i)
  }

  /** The source last told for stream i. */
  function SourceOf(es: seq<Event>, i: nat): nat {
    if es == [] then 0
    else
      var e := es[|es| - 1];
      if e.SourceSeen? && e.id == i then e.source else SourceOf(es[..|es| - 1], i)
  }

  /** The records end in pictures, and f is the stamp of the first picture behind the last header. */
  ghost predicate FirstPicture(r: seq<VideoRaw>, f: nat) {
    exists h: nat :: LastHeader(r, h) && h + 1 < |r| && r[h + 1].pts == f
  }

  ghost predicate LastHeader(r: seq<VideoRaw>, h: nat) {
    h < |r| && r[h].isSpsPps && forall j :: h < j < |r| ==> !r[j].isSpsPps
  }

  predicate HasHeader(r: seq<VideoRaw>) {
    exists h :: 0 <= h < |r| && r[h].isSpsPps
  }

  // ----- what the mixer remembers

  ghost predicate DecoderTold(d: Decoder, r: seq<VideoRaw>) {
    (d.hasSpsPps <==> HasHeader(r)) &&
    (d.firstFrameStarted <==> r != [] && !r[|r| - 1].isSpsPps) &&
    (d.firstFrameStarted ==> FirstPicture(r, d.firstFramePts))
  }

  /** The first n records are taken, and the last of them is cached; the others are queued. */
  ghost predicate TakenTo(r: seq<VideoRaw>, n: nat, q: seq<VideoRaw>, cached: Option<VideoRaw>) {
    n <= |r| && q == r[n..] && cached == if n == 0 then None else Some(r[n - 1])
  }

  ghost predicate HeardTo(a: seq<AudioRaw>, n: nat, q: seq<AudioRaw>, cached: Option<AudioRaw>) {
    n <= |a| && q == a[n..] && cached == if n == 0 then None else Some(a[n - 1])
  }

  ghost predicate StreamTold(m: Mix, es: seq<Event>, i: nat)
    requires i < STREAMS
  {
    DecoderTold(m.parser.decoder[i], Records(es, i)) &&
    VideoSide(Records(es, i), m.parser.videoQueue[i], m.rawVideo[i]) &&
    AudioSide(Frames(es, i), m.parser.audioQueue[i], m.rawAudio[i]) &&
    (m.parser.videoStatus[i] == Started <==> VideoOnline(es, i)) &&
    (m.parser.audioStatus[i] == Started <==> AudioOnline(es, i)) && m.source[i] == SourceOf(es, i)
  }

  ghost predicate VideoSide(r: seq<VideoRaw>, q: seq<VideoRaw>, cached: Option<VideoRaw>) {
    exists n: nat :: TakenTo(r, n, q, cached)
  }

  ghost predicate AudioSide(a: seq<AudioRaw>, q: seq<AudioRaw>, cached: Option<AudioRaw>) {
    exists n: nat :: HeardTo(a, n, q, cached)
  }

  ghost predicate Told(m: Mix, es: seq<Event>) {
    forall i :: 0 <= i < STREAMS ==> StreamTold(m, es, i)
  }

  // ----- one event more

  lemma OneMore(es: seq<Event>, e: Event, i: nat)
    ensures Records(es + [e], i) == Records(es, i) + RecordsIn(e, i) &&
            Frames(es + [e], i) == Frames(es, i) + FramesIn(e, i)
    ensures SourceOf(es + [e], i) == if e.SourceSeen? && e.id == i then e.source else SourceOf(es, i)
    ensures VideoOnline(es + [e], i) <==>
            RecordsIn(e, i) != [] || (VideoOnline(es, i) && (e.MaskSeen? ==> Bit(e.mask, i)))
    ensures AudioOnline(es + [e], i) <==>
            (e.AudioParsed? && e.id == i) || (AudioOnline(es, i) && (e.MaskSeen? ==> Bit(e.mask, i)))
  {
    var es' := es + [e];
    assert es'[..|es'| - 1] == es;
    forall k | 0 <= k < |es|
      ensures KeptBy(es', k, i) <==> KeptBy(es, k, i) && (e.MaskSeen? ==> Bit(e.mask, i))
    {
      KeptMore(es, e, k, i);
    }
    assert KeptBy(es', |es|, i) && es'[|es|] == e;
    OnlineMore(es, e, i);
  }

  lemma KeptMore(es: seq<Event>, e: Event, k: nat, i: nat)
    requires k < |es|
    ensures KeptBy(es + [e], k, i) <==> KeptBy(es, k, i) && (e.MaskSeen? ==> Bit(e.mask, i))
  {
    var es' := es + [e];
    assert es'[|es|] == e && forall j :: 0 <= j < |es| ==> es'[j] == es[j];
  }

  lemma OnlineMore(es: seq<Event>, e: Event, i: nat)
    ensures VideoOnline(es + [e], i) <==>
            RecordsIn(e, i) != [] || (VideoOnline(es, i) && (e.MaskSeen? ==> Bit(e.mask, i)))
    ensures AudioOnline(es + [e], i) <==>
            (e.AudioParsed? && e.id == i) || (AudioOnline(es, i) && (e.MaskSeen? ==> Bit(e.mask, i)))
  {
    var es' := es + [e];
    assert es'[|es|] == e && KeptBy(es', |es|, i);
    forall k | 0 <= k < |es|
      ensures es'[k] == es[k] && (KeptBy(es', k, i) <==> KeptBy(es, k, i) && (e.MaskSeen? ==> Bit(e.mask, i)))
    {
      KeptMore(es, e, k, i);
    }
    if VideoOnline(es, i) && (e.MaskSeen? ==> Bit(e.mask, i)) {
      var k :| 0 <= k < |es| && RecordsIn(es[k], i) != [] && KeptBy(es, k, i);
      assert RecordsIn(es'[k], i) != [] && KeptBy(es', k, i);
    }
    if AudioOnline(es, i) && (e.MaskSeen? ==> Bit(e.mask, i)) {
      var k :| 0 <= k < |es| && es[k].AudioParsed? && es[k].id == i && KeptBy(es, k, i);
      assert es'[k].AudioParsed? && es'[k].id == i && KeptBy(es', k, i);
    }
  }

  /** A unit that fails no assert of the decoder is told. */
  lemma UnitTold(d: Decoder, r: seq<VideoRaw>, u: VideoUnit, i: nat)
    requires DecoderTold(d, r) && (u.isSpsPps || d.hasSpsPps)
    ensures DecoderTold(DecoderAfter(d, u), r + RecordsIn(VideoParsed(i, u), i))
    ensures forall q :: QueueAfter(d, q, u) == q + RecordsIn(VideoParsed(i, u), i)
    ensures IsQueued(d, u) <==> RecordsIn(VideoParsed(i, u), i) != []
  {
    var new' := RecordsIn(VideoParsed(i, u), i);
    var r' := r + new';
    assert forall j :: 0 <= j < |r| ==> r'[j] == r[j];
    if new' == [] {
      assert r' == r;
      assert forall q: seq<VideoRaw> :: q + new' == q;
    } else if u.isSpsPps {
      assert r'[|r|].isSpsPps;
    } else {
      PictureTold(d, r, new'[0]);
    }
  }

  lemma PictureTold(d: Decoder, r: seq<VideoRaw>, v: VideoRaw)
    requires DecoderTold(d, r) && d.hasSpsPps && !v.isSpsPps
    ensures FirstPicture(r + [v], if d.firstFrameStarted then d.firstFramePts else v.pts)
    ensures HasHeader(r + [v])
  {
    var r' := r + [v];
    assert forall j :: 0 <= j < |r| ==> r'[j] == r[j];
    var k :| 0 <= k < |r| && r[k].isSpsPps;
    assert r'[k].isSpsPps;
    if d.firstFrameStarted {
      var h: nat :| LastHeader(r, h) && h + 1 < |r| && r[h + 1].pts == d.firstFramePts;
      assert LastHeader(r', h) && r'[h + 1].pts == d.firstFramePts;
    } else {
      assert LastHeader(r', |r| - 1) && r'[|r|] == v;
    }
  }

  /** A longer list of records, the same ones taken. */
  lemma MoreQueued(r: seq<VideoRaw>, more: seq<VideoRaw>, q: seq<VideoRaw>, cached: Option<VideoRaw>)
    requires VideoSide(r, q, cached)
    ensures VideoSide(r + more, q + more, cached)
  {
    var n: nat :| TakenTo(r, n, q, cached);
    assert TakenTo(r + more, n, q + more, cached);
  }

  lemma MoreToHear(a: seq<AudioRaw>, more: seq<AudioRaw>, q: seq<AudioRaw>, cached: Option<AudioRaw>)
    requires AudioSide(a, q, cached)
    ensures AudioSide(a + more, q + more, cached)
  {
    var n: nat :| HeardTo(a, n, q, cached);
    assert HeardTo(a + more, n, q + more, cached);
  }

  lemma VideoTaken(r: seq<VideoRaw>, q: seq<VideoRaw>, cached: Option<VideoRaw>, t: nat)
    requires VideoSide(r, q, cached)
    ensures VideoSide(r, DrainTo(q, t), LastDrained(q, t, cached))
  {
    var n: nat :| TakenTo(r, n, q, cached);
    var n' := TakesOn(r, n, q, cached, t);
  }

  lemma AudioTaken(a: seq<AudioRaw>, q: seq<AudioRaw>, cached: Option<AudioRaw>)
    requires AudioSide(a, q, cached) && q != []
    ensures AudioSide(a, q[1..], Some(q[0]))
  {
    var n: nat :| HeardTo(a, n, q, cached);
    assert HeardTo(a, n + 1, q[1..], Some(q[0]));
  }

  /** Popping takes the records up to the first one not due, and no more. */
  lemma TakesOn(r: seq<VideoRaw>, n: nat, q: seq<VideoRaw>, cached: Option<VideoRaw>, t: nat) returns (n': nat)
    requires TakenTo(r, n, q, cached)
    ensures n <= n' && TakenTo(r, n', DrainTo(q, t), LastDrained(q, t, cached))
    ensures (forall k :: n <= k < n' ==> r[k].pts <= t) && (n' < |r| ==> r[n'].pts > t)
  {
    var j := P.PopsUntil(q, t, cached);
    n' := n + j;
    assert forall k :: 0 <= k < |q| ==> q[k] == r[n + k];
    assert q[j..] == r[n'..];
    if j > 0 {
      assert q[j - 1] == r[n' - 1];
    }
    forall k | n <= k < n'
      ensures r[k].pts <= t
    {
      assert q[k - n] == r[k];
    }
    if n' < |r| {
      assert q[j] == r[n'];
    }
  }

  // ----- steps

  /** An event that leaves stream i's queues, caches, decoder and source alone, and tells nothing about them. */
  lemma QuietTold(m: Mix, m': Mix, es: seq<Event>, e: Event, i: nat)
    requires i < STREAMS && StreamTold(m, es, i)
    requires RecordsIn(e, i) == [] && !(e.AudioParsed? && e.id == i) && !(e.SourceSeen? && e.id == i)
    requires m'.parser.decoder[i] == m.parser.decoder[i] && m'.parser.videoQueue[i] == m.parser.videoQueue[i]
    requires m'.parser.audioQueue[i] == m.parser.audioQueue[i] && m'.source[i] == m.source[i]
    requires m'.rawVideo[i] == m.rawVideo[i] && m'.rawAudio[i] == m.rawAudio[i]
    requires m'.parser.videoStatus[i] == Started <==>
             m.parser.videoStatus[i] == Started && (e.MaskSeen? ==> Bit(e.mask, i))
    requires m'.parser.audioStatus[i] == Started <==>
             m.parser.audioStatus[i] == Started && (e.MaskSeen? ==> Bit(e.mask, i))
    ensures StreamTold(m', es + [e], i)
  {
    OneMore(es, e, i);
    assert Records(es, i) + [] == Records(es, i) && Frames(es, i) + [] == Frames(es, i);
  }

  lemma VideoTold(m: Mix, es: seq<Event>, i: nat, u: VideoUnit)
    requires i < STREAMS && StreamTold(m, es, i) && !DecoderAsserts(m.parser, i, u)
    ensures StreamTold(m.(parser := VideoIn(m.parser, i, u)), es + [VideoParsed(i, u)], i)
  {
    var e, s, s' := VideoParsed(i, u), m.parser, VideoIn(m.parser, i, u);
    OneMore(es, e, i);
    UnitTold(s.decoder[i], Records(es, i), u, i);
    MoreQueued(Records(es, i), RecordsIn(e, i), s.videoQueue[i], m.rawVideo[i]);
    assert s'.videoQueue[i] == s.videoQueue[i] + RecordsIn(e, i);
    assert Frames(es, i) + [] == Frames(es, i);
  }

  lemma AudioTold(m: Mix, es: seq<Event>, i: nat, frames: seq<AudioRaw>)
    requires i < STREAMS && StreamTold(m, es, i)
    ensures StreamTold(m.(parser := AudioIn(m.parser, i, frames)), es + [AudioParsed(i, frames)], i)
  {
    var e, s, s' := AudioParsed(i, frames), m.parser, AudioIn(m.parser, i, frames);
    OneMore(es, e, i);
    MoreToHear(Frames(es, i), frames, s.audioQueue[i], m.rawAudio[i]);
    assert Records(es, i) + [] == Records(es, i);
  }

  /** Asking which stream is ready changes nothing that is told. */
  lemma PickTells(s: Sched)
    ensures var s' := Pick(s).0;
            s'.decoder == s.decoder && s'.videoStatus == s.videoStatus && s'.audioStatus == s.audioStatus &&
            s'.videoQueue == s.videoQueue && s'.audioQueue == s.audioQueue
  {
  }

  /** What a video call does to stream i. */
  lemma VideoCallOnStream(m: Mix, t: nat, i: nat)
    requires i < STREAMS
    ensures var s, m' := m.parser, PopVideo(m, t);
            m' == m.(parser := s.(videoQueue := m'.parser.videoQueue), rawVideo := m'.rawVideo,
                     videoValid := m'.videoValid) &&
            if s.videoStatus[i] == Started then
              m'.parser.videoQueue[i] == DrainTo(s.videoQueue[i], t) &&
              m'.rawVideo[i] == LastDrained(s.videoQueue[i], t, m.rawVideo[i])
            else m'.parser.videoQueue[i] == s.videoQueue[i] && m'.rawVideo[i] == m.rawVideo[i]
  {
  }

  /** What an audio call does to stream i. */
  lemma AudioCallOnStream(m: Mix, i: nat)
    requires i < STREAMS && !PopAudio(m).crashed
    ensures var s, m' := m.parser, PopAudio(m);
            m' == m.(parser := s.(audioQueue := m'.parser.audioQueue), rawAudio := m'.rawAudio,
                     audioValid := m'.audioValid) &&
            if s.audioStatus[i] == Started then
              s.audioQueue[i] != [] && m'.parser.audioQueue[i] == s.audioQueue[i][1..] &&
              m'.rawAudio[i] == Some(s.audioQueue[i][0])
            else m'.parser.audioQueue[i] == s.audioQueue[i] && m'.rawAudio[i] == m.rawAudio[i]
  {
  }

  lemma VideoCallTold(m: Mix, es: seq<Event>, t: nat, i: nat)
    requires i < STREAMS && StreamTold(m, es, i)
    ensures StreamTold(PopVideo(m, t), es, i)
  {
    VideoCallOnStream(m, t, i);
    if m.parser.videoStatus[i] == Started {
      VideoTaken(Records(es, i), m.parser.videoQueue[i], m.rawVideo[i], t);
    }
  }

  lemma AudioCallTold(m: Mix, es: seq<Event>, i: nat)
    requires i < STREAMS && StreamTold(m, es, i) && !PopAudio(m).crashed
    ensures StreamTold(PopAudio(m), es, i)
  {
    AudioCallOnStream(m, i);
    if m.parser.audioStatus[i] == Started {
      AudioTaken(Frames(es, i), m.parser.audioQueue[i], m.rawAudio[i]);
    }
  }

  /** Asking, and finding out which stream is ready, leaves everything told. */
  lemma AskTold(m: Mix, es: seq<Event>, codec: Codec, i: nat)
    requires i < STREAMS && StreamTold(m, es, i)
    ensures StreamTold(m.(parser := Pick(m.parser).0), es + [OutputAsked(codec)], i)
  {
    OneMore(es, OutputAsked(codec), i);
    assert Records(es, i) + [] == Records(es, i) && Frames(es, i) + [] == Frames(es, i);
    PickTells(m.parser);
  }

  lemma BranchTold(m: Mix, m': Mix, choice: Choice, es: seq<Event>, i: nat)
    requires i < STREAMS && StreamTold(m, es, i) && !m'.crashed
    requires choice.VideoStream? ==> m' == PopVideo(m, choice.pts)
    requires choice.AudioStream? ==> m' == PopAudio(m)
    requires choice.NoStream? || choice.Crash? ==> m' == m.(crashed := m'.crashed)
    ensures StreamTold(m', es, i)
  {
    if choice.VideoStream? {
      VideoCallTold(m, es, choice.pts, i);
    } else if choice.AudioStream? {
      AudioCallTold(m, es, i);
    }
  }

  /** A call takes some records, or one frame, and changes nothing else that is told. */
  lemma CallTold(m: Mix, es: seq<Event>, codec: Codec, i: nat)
    requires i < STREAMS && StreamTold(m, es, i) && !m.crashed && !Popped(m).0.crashed
    ensures StreamTold(Popped(m).0, es + [OutputAsked(codec)], i)
  {
    AskTold(m, es, codec, i);
    BranchTold(m.(parser := Pick(m.parser).0), Popped(m).0, Popped(m).1, es + [OutputAsked(codec)], i);
  }

  lemma SourceTold(m: Mix, es: seq<Event>, i: nat, source: nat)
    requires i < STREAMS && StreamTold(m, es, i)
    ensures StreamTold(m.(source := m.source[i := source]), es + [SourceSeen(i, source)], i)
  {
    OneMore(es, SourceSeen(i, source), i);
    assert Records(es, i) + [] == Records(es, i) && Frames(es, i) + [] == Frames(es, i);
  }

  /** Only these fields are told. */
  lemma SameTold(m: Mix, m': Mix, es: seq<Event>, i: nat)
    requires i < STREAMS && StreamTold(m, es, i) && m'.parser == m.parser && m'.source == m.source
    requires m'.rawVideo == m.rawVideo && m'.rawAudio == m.rawAudio
    ensures StreamTold(m', es, i)
  {
  }

  lemma StepTold(m: Mix, es: seq<Event>, e: Event)
    requires Told(m, es) && !m.crashed && !Step(m, e).crashed
    ensures Told(Step(m, e), es + [e])
  {
    var m' := Step(m, e);
    forall i | 0 <= i < STREAMS
      ensures StreamTold(m', es + [e], i)
    {
      assert StreamTold(m, es, i);
      match e
      case VideoParsed(id, u) =>
        if id == i {
          VideoTold(m, es, i, u);
        } else {
          QuietTold(m, m', es, e, i);
        }
      case AudioParsed(id, frames) =>
        if id == i {
          AudioTold(m, es, i, frames);
        } else {
          QuietTold(m, m', es, e, i);
        }
      case SourceSeen(id, source) =>
        if id == i {
          SourceTold(m, es, i, source);
        } else {
          QuietTold(m, m', es, e, i);
        }
      case OutputAsked(codec) =>
        MixingRuns.AskIsCall(m, codec);
        MixingRuns.CallPops(m, codec);
        CallTold(m, es, codec, i);
        SameTold(Popped(m).0, m', es + [e], i);
      case MaskSeen(_) => QuietTold(m, m', es, e, i);
    }
  }

  lemma {:induction false} CrashStays(m: Mix, es: seq<Event>)
    requires m.crashed
    ensures Run(m, es).crashed
    decreases |es|
  {
    if es != [] {
      CrashStays(Step(m, es[0]), es[1..]);
    }
  }

  lemma NotCrashedYet(m: Mix, es: seq<Event>)
    requires es != [] && !Run(m, es).crashed
    ensures !m.crashed && !Step(m, es[0]).crashed
  {
    if Step(m, es[0]).crashed {
      CrashStays(Step(m, es[0]), es[1..]);
    }
    if m.crashed {
      CrashStays(m, es);
    }
  }

  lemma {:induction false} RunTold(m: Mix, past: seq<Event>, es: seq<Event>)
    requires Told(m, past) && !Run(m, es).crashed
    ensures Told(Run(m, es), past + es)
    decreases |es|
  {
    if es == [] {
      assert past + es == past;
    } else {
      NotCrashedYet(m, es);
      StepTold(m, past, es[0]);
      RunTold(Step(m, es[0]), past + [es[0]], es[1..]);
      assert past + es == (past + [es[0]]) + es[1..];
    }
  }

  lemma StartTold(m: Mix)
    requires m == START
    ensures Told(m, [])
  {
    forall i | 0 <= i < STREAMS
      ensures StreamTold(m, [], i)
    {
      assert TakenTo(Records([], i), 0, m.parser.videoQueue[i], m.rawVideo[i]);
      assert HeardTo(Frames([], i), 0, m.parser.audioQueue[i], m.rawAudio[i]);
    }
  }

  /**
   From start-up, over any run without a crash, for every stream: it is started exactly if something
   has arrived for it and no mask since has left it out; its queue is what has arrived and not been
   taken, in order, and its cache what was taken last; its source is the one last told; and its
   decoder holds the stamp of the first picture since the last header.
   */
  lemma RunsAreTold(es: seq<Event>)
    requires !Run(START, es).crashed
    ensures Told(Run(START, es), es)
  {
    StartTold(START);
    RunTold(START, [], es);
    assert [] + es == es;
  }

  /** All frames that arrived, of all streams. */
  function AllFrames(es: seq<Event>): seq<AudioRaw> {
    if es == [] then [] else AllFrames(es[..|es| - 1]) + AnyFramesIn(es[|es| - 1])
  }

  function AnyFramesIn(e: Event): seq<AudioRaw> {
    if e.AudioParsed? && e.id < STREAMS then e.frames else []
  }

  ghost predicate ClockTold(m: Mix, es: seq<Event>) {
    var all := AllFrames(es);
    m.parser.globalAudio == if all == [] then 0 else all[|all| - 1].pts
  }

  /** Only arriving audio frames move the clock. */
  lemma ClockMoves(m: Mix, e: Event)
    requires !m.crashed && !Step(m, e).crashed
    ensures var fs := AnyFramesIn(e);
            Step(m, e).parser.globalAudio == if fs == [] then m.parser.globalAudio else fs[|fs| - 1].pts
  {
    if e.OutputAsked? {
      MixingRuns.AskIsCall(m, e.codec);
      MixingRuns.CallPops(m, e.codec);
    }
  }

  lemma StepClock(m: Mix, es: seq<Event>, e: Event)
    requires ClockTold(m, es) && !m.crashed && !Step(m, e).crashed
    ensures ClockTold(Step(m, e), es + [e])
  {
    assert (es + [e])[..|es|] == es;
    ClockMoves(m, e);
  }

  lemma {:induction false} RunClock(m: Mix, past: seq<Event>, es: seq<Event>)
    requires ClockTold(m, past) && !Run(m, es).crashed
    ensures ClockTold(Run(m, es), past + es)
    decreases |es|
  {
    if es == [] {
      assert past + es == past;
    } else {
      NotCrashedYet(m, es);
      var past' := past + [es[0]];
      StepClock(m, past, es[0]);
      RunClock(Step(m, es[0]), past', es[1..]);
      assert past + es == past' + es[1..];
    }
  }

  /** The global audio clock, which tags of every stream are stamped with, is the stamp of the last frame to arrive. */
  lemma GlobalClockTold(es: seq<Event>)
    requires !Run(START, es).crashed
    ensures ClockTold(Run(START, es), es)
  {
    RunClock(START, [], es);
    assert [] + es == es;
  }

  // ----- what a video call composes

  /** The first picture since the last header is due by t. */
  ghost predicate FirstPictureBy(r: seq<VideoRaw>, t: nat) {
    exists f: nat :: FirstPicture(r, f) && f <= t
  }

  lemma FirstExactly(d: Decoder, r: seq<VideoRaw>, t: nat)
    requires DecoderTold(d, r)
    ensures d.firstFrameStarted && d.firstFramePts <= t <==> FirstPictureBy(r, t)
  {
    if f: nat :| FirstPicture(r, f) && f <= t {
      var h: nat :| LastHeader(r, h) && h + 1 < |r| && r[h + 1].pts == f;
      assert !r[|r| - 1].isSpsPps;
      FirstPictureUnique(r, f, d.firstFramePts);
    }
  }

  lemma FirstPictureUnique(r: seq<VideoRaw>, f: nat, g: nat)
    requires FirstPicture(r, f) && FirstPicture(r, g)
    ensures f == g
  {
  }

  /** The call's effect on a stream's flag. */
  lemma FlagExactly(m: Mix, t: nat, i: nat)
    requires i < STREAMS && Popped(m).1 == VideoStream(t)
    ensures var m', d := Popped(m).0, m.parser.decoder[i];
            m'.rawVideo[i].Some? && m'.videoValid[i] <==>
            m'.rawVideo[i].Some? && m.parser.videoStatus[i] == Started && d.firstFrameStarted && d.firstFramePts <= t
  {
  }

  /** From n to n' the records are taken: all due by t, up to the first that is not, if the stream is started. */
  ghost predicate TakenBetween(r: seq<VideoRaw>, n: nat, n': nat, t: nat, started: bool) {
    n <= n' <= |r| && (forall k :: n <= k < n' ==> r[k].pts <= t) &&
    if started then n' < |r| ==> r[n'].pts > t else n' == n
  }

  /**
   After any run, the due video call at t takes of each started stream the records up to the first
   one not due, and composes it exactly if something has ever been taken, the records end in
   pictures, and the first of these is stamped at or before t.
   */
  lemma ComposedExactly(es: seq<Event>, t: nat, i: nat) returns (n: nat, n': nat)
    requires !Run(START, es).crashed && Popped(Run(START, es)).1 == VideoStream(t) && i < STREAMS
    ensures var m, m', r := Run(START, es), Popped(Run(START, es)).0, Records(es, i);
            TakenBetween(r, n, n', t, VideoOnline(es, i)) && TakenTo(r, n, m.parser.videoQueue[i], m.rawVideo[i]) &&
            TakenTo(r, n', m'.parser.videoQueue[i], m'.rawVideo[i]) &&
            (m'.rawVideo[i].Some? && m'.videoValid[i] <==> VideoOnline(es, i) && n' > 0 && FirstPictureBy(r, t))
  {
    RunsAreTold(es);
    n, n' := ComposedTold(Run(START, es), es, t, i);
  }

  lemma ComposedTold(m: Mix, es: seq<Event>, t: nat, i: nat) returns (n: nat, n': nat)
    requires !m.crashed && i < STREAMS && StreamTold(m, es, i) && Popped(m).1 == VideoStream(t)
    ensures var m', r := Popped(m).0, Records(es, i);
            TakenBetween(r, n, n', t, VideoOnline(es, i)) && TakenTo(r, n, m.parser.videoQueue[i], m.rawVideo[i]) &&
            TakenTo(r, n', m'.parser.videoQueue[i], m'.rawVideo[i]) &&
            (m'.rawVideo[i].Some? && m'.videoValid[i] <==> VideoOnline(es, i) && n' > 0 && FirstPictureBy(r, t))
  {
    var r := Records(es, i);
    n :| 0 <= n && TakenTo(r, n, m.parser.videoQueue[i], m.rawVideo[i]);
    n' := n;
    PickTells(m.parser);
    VideoCallOnStream(m.(parser := Pick(m.parser).0), t, i);
    if m.parser.videoStatus[i] == Started {
      n' := TakesOn(r, n, m.parser.videoQueue[i], m.rawVideo[i], t);
    }
    FlagExactly(m, t, i);
    FirstExactly(m.parser.decoder[i], r, t);
  }

  /**
   The call that starts the clock: if the front that gave the bucket is a picture, its stream's
   header has been taken and no other waits, then that stream is composed.
   */
  lemma StartIsComposed(es: seq<Event>, t: nat, k: nat)
    requires var m := Run(START, es);
             !m.crashed && !m.parser.hasStarted && Popped(m).1 == VideoStream(t) && k < STREAMS &&
             m.parser.videoStatus[k] == Started && m.parser.videoQueue[k] != [] &&
             m.parser.videoQueue[k][0].pts == t && m.rawVideo[k].Some? && m.rawVideo[k].value.isSpsPps &&
             forall j :: 0 <= j < |m.parser.videoQueue[k]| ==> !m.parser.videoQueue[k][j].isSpsPps
    ensures var m' := Popped(Run(START, es)).0; m'.rawVideo[k].Some? && m'.videoValid[k]
  {
    RunsAreTold(es);
    StartTellsFirst(Run(START, es), es, k, t);
    var n, n' := ComposedExactly(es, t, k);
  }

  lemma StartTellsFirst(m: Mix, es: seq<Event>, k: nat, t: nat)
    requires k < STREAMS && StreamTold(m, es, k)
    requires m.parser.videoQueue[k] != [] && m.parser.videoQueue[k][0].pts == t
    requires m.rawVideo[k].Some? && m.rawVideo[k].value.isSpsPps
    requires forall j :: 0 <= j < |m.parser.videoQueue[k]| ==> !m.parser.videoQueue[k][j].isSpsPps
    ensures FirstPictureBy(Records(es, k), t)
  {
    var r, q := Records(es, k), m.parser.videoQueue[k];
    var n: nat :| TakenTo(r, n, q, m.rawVideo[k]);
    assert forall j :: n <= j < |r| ==> r[j] == q[j - n];
    assert LastHeader(r, n - 1) && r[n].pts == t;
    assert FirstPicture(r, t);
  }
}
