/**
 What the whole server makes, byte by byte, of one publisher, stream 0, that sends one FLV tag
 per segment. What matters of it is followed in a `Scene`, and `ScriptShows` says that the
 server does what the scene does.
 */
module Scenes {
  import opened BitMask
  import opened Bytes
  import opened Chunked
  import opened FlvWriting
  import opened FlvReading
  import opened Scheduling
  import opened Mixing
  import opened SegmentDemuxing
  import A = AvcRewriting
  import D = SegmentInReading
  import K = SampleClock
  import MixingRuns
  import R = Reframing
  import V = Server
  import C = StreamClock

  // ----- what the publisher sends

  /** A sequence header, a picture, an audio tag without payload, an audio tag with one; or main asks for output. */
  datatype Act =
    | Sps(id: byte)
    | Picture(ts: nat)
    | Silence(ts: nat)
    | Sound(ts: nat)
    | Call(codec: Codec, t: nat, started: bool, bucket: nat)

  const MP3: byte := 0x2f

  function RecordOf(id: byte): (r: seq<byte>)
    ensures |r| == 13
  {
    A.ConfigRecord([1, 0, 0, 0, 0xff, 0xe1], [id], 1, [0])
  }

  function BodyOf(a: Act): (b: seq<byte>)
    requires !a.Call?
    ensures 0 < |b| < 30
  {
    match a
    case Sps(id) => [0x17, 0, 0, 0, 0] + RecordOf(id)
    case Picture(_) => [0x27, 1, 0, 0, 0]
    case Silence(_) => [MP3]
    case Sound(_) => [MP3, 0]
  }

  function KindOfAct(a: Act): byte {
    if a.Sps? || a.Picture? then VIDEO_TAG else AUDIO_TAG
  }

  function TsOf(a: Act): nat {
    match a
    case Sps(_) => 0
    case Call(_, _, _, _) => 0
    case _ => a.ts
  }

  function RawOf(a: Act): (t: RawTag)
    requires !a.Call?
    ensures |t.data| >= 11
  {
    RawTag(KindOfAct(a), TagRest(TsOf(a), BodyOf(a)))
  }

  /** The segment that carries it: mask 1, stream 0, a mobile source. */
  function SegmentOf(a: Act): Segment
    requires !a.Call?
  {
    Segment(1, [StreamPart(0, MOBILE, TagBytes(KindOfAct(a), TsOf(a), BodyOf(a)))])
  }

  lemma SegmentOfIsValid(a: Act)
    requires !a.Call?
    ensures ValidSegment(SegmentOf(a))
  {
    assert Bits(1) == 1 by { assert Bits(0) == 0; }
  }

  ghost function WireOf(a: Act): seq<byte>
    requires !a.Call?
  {
    SegmentOfIsValid(a);
    SegmentBytes(SegmentOf(a))
  }

  ghost function ActionOf(a: Act): V.Action {
    if a.Call? then V.Ask(a.codec) else V.Read(WireOf(a))
  }

  ghost function Script(acts: seq<Act>): seq<V.Action> {
    seq(|acts|, k requires 0 <= k < |acts| => ActionOf(acts[k]))
  }

  // ----- how its tags are read

  function SpsData(id: byte): seq<byte> {
    A.START_CODE + [id] + A.START_CODE + [0]
  }

  function TimedOf(a: Act): C.TimedTag {
    C.TimedTag(if a.Sps? || a.Picture? then C.Video else C.Audio, a.Sps?, TsOf(a))
  }

  function ClockAfter(m: Memory, a: Act, global: nat): Memory {
    Memory(C.Tick(m.clock, TimedOf(a), global), if a.Sps? then SpsData(a.id) else m.curSpsPps)
  }

  function UnitOf(m: Memory, a: Act, global: nat): AccessUnit {
    var pts := C.Pts(m.clock, TimedOf(a), global);
    match a
    case Sps(id) => AccessUnit(C.Video, AVC, SpsPps, true, pts, SpsData(id))
    case Picture(_) => AccessUnit(C.Video, AVC, RawData, false, pts, A.PADDING)
    case _ => AccessUnit(C.Audio, MP3, RawData, true, pts, [0])
  }

  lemma RecordRead(id: byte, trailer: seq<byte>)
    requires |trailer| == 4
    ensures A.SequenceHeader(RecordOf(id) + trailer) == Some(SpsData(id))
  {
    assert A.LengthSurvives(1);
    A.SequenceHeaderExact([1, 0, 0, 0, 0xff, 0xe1], [id], 1, [0], trailer);
  }

  lemma HeaderContent(body: seq<byte>, trailer: seq<byte>, cur: seq<byte>, data: seq<byte>)
    requires |body| >= 5 && body[0] == 0x17 && body[1] == 0
    requires A.SequenceHeader(body[5..] + trailer) == Some(data) && data != cur
    ensures VideoContent(body, trailer, cur) == Content(AVC, SpsPps, true, Some(data))
  {
  }

  lemma SpsContent(id: byte, trailer: seq<byte>, cur: seq<byte>)
    requires |trailer| == 4 && cur != SpsData(id)
    ensures VideoContent(BodyOf(Sps(id)), trailer, cur) == Content(AVC, SpsPps, true, Some(SpsData(id)))
  {
    var body, record := BodyOf(Sps(id)), RecordOf(id);
    assert body == [0x17, 0, 0, 0, 0] + record;
    assert body[5..] == record;
    RecordRead(id, trailer);
    HeaderContent(body, trailer, cur, SpsData(id));
  }

  lemma PictureContent(ts: nat, trailer: seq<byte>, cur: seq<byte>)
    ensures VideoContent(BodyOf(Picture(ts)), trailer, cur) == Content(AVC, RawData, false, Some(A.PADDING))
  {
    var body := BodyOf(Picture(ts));
    assert body[5..] == [];
    assert A.Encodable([]) && A.Avcc([]) == [] && A.AnnexB([]) == [];
    RewrittenIs([], []);
    assert [] + A.PADDING == A.PADDING;
  }

  lemma TagParsed(m: Memory, a: Act, global: nat)
    requires !a.Call? && TsOf(a) < U32 && (a.Sps? ==> m.curSpsPps != SpsData(a.id))
    ensures ParseFrame(m, RawOf(a), global) ==
            (ClockAfter(m, a, global), if a.Silence? then Nothing else Delivered(UnitOf(m, a, global)))
  {
    var t := RawOf(a);
    TagRestRead(t.kind, TsOf(a), BodyOf(a));
    var trailer := t.data[|t.data| - 4..];
    match a
    case Sps(id) => SpsContent(id, trailer, m.curSpsPps);
    case Picture(ts) => PictureContent(ts, trailer, m.curSpsPps);
    case Silence(_) => assert BodyOf(a)[1..] == [];
    case Sound(_) => assert BodyOf(a)[1..] == [0];
  }

  // ----- codecs and scenes

  /**
   The libraries of these runs: the units counted in `decodes` are pictures that decode, and
   every audio unit holds one frame.
   */
  function Libraries(decodes: set<nat>, planes: Planes): V.Codecs {
    V.Codecs((id: nat, us: seq<AccessUnit>) => if |us| in decodes then Some(planes) else None,
             (id: nat, us: seq<AccessUnit>) => seq(R.FRAME, _ => 0),
             (stereo: bool, frame: seq<int>) => frame)
  }

  /** Stream 0 and the clocks, as far as these runs depend on them. */
  datatype Scene = Scene(memory: Memory, units: nat, mapper: K.Mapper,
                         decoder: Decoder, videoOn: bool, pictures: seq<VideoRaw>, audioOn: bool, sounds: seq<nat>,
                         cached: Option<VideoRaw>, started: bool, bucket: nat, global: nat)

  const OPENING: Scene :=
    Scene(Memory(C.START, []), 0, K.START, Decoder(false, false, NO_STAMP), false, [], false, [], None, false, 0, 0)

  function Seen(decodes: set<nat>, planes: Planes, sc: Scene, a: Act): Scene {
    var pts := C.Pts(sc.memory.clock, TimedOf(a), sc.global);
    var u := VideoUnit(pts, a.Sps?, if sc.units + 1 in decodes then Some(planes) else None);
    sc.(memory := ClockAfter(sc.memory, a, sc.global), units := sc.units + 1,
        decoder := DecoderAfter(sc.decoder, u), pictures := QueueAfter(sc.decoder, sc.pictures, u),
        videoOn := sc.videoOn || IsQueued(sc.decoder, u))
  }

  function Heard(sc: Scene, a: Act): Scene {
    var pts := C.Pts(sc.memory.clock, TimedOf(a), sc.global);
    var stamp := K.Stamp(sc.mapper, pts);
    sc.(memory := ClockAfter(sc.memory, a, sc.global), units := sc.units + 1, mapper := K.Next(sc.mapper, pts),
        audioOn := true, sounds := sc.sounds + [stamp], global := stamp)
  }

  /** A call that composes a video frame at t. */
  function Called(sc: Scene, t: nat, started: bool, bucket: nat): Scene {
    sc.(pictures := if sc.videoOn then DrainTo(sc.pictures, t) else sc.pictures,
        cached := if sc.videoOn then LastDrained(sc.pictures, t, sc.cached) else sc.cached,
        started := started, bucket := bucket)
  }

  function Next(decodes: set<nat>, planes: Planes, sc: Scene, a: Act): Scene {
    match a
    case Sps(_) => Seen(decodes, planes, sc, a)
    case Picture(_) => Seen(decodes, planes, sc, a)
    case Silence(_) => sc.(memory := ClockAfter(sc.memory, a, sc.global))
    case Sound(_) => Heard(sc, a)
    case Call(_, t, started, bucket) => Called(sc, t, started, bucket)
  }

  function Last(decodes: set<nat>, planes: Planes, sc: Scene, acts: seq<Act>): Scene
    decreases |acts|
  {
    if acts == [] then sc else Last(decodes, planes, Next(decodes, planes, sc, acts[0]), acts[1..])
  }

  /** The scheduler as the scene has it; no stream but 0 is started. */
  ghost predicate ShowsSched(s: Sched, sc: Scene) {
    (forall i :: 0 < i < STREAMS ==> s.audioStatus[i] != Started && s.videoStatus[i] != Started) &&
    s.decoder[0] == sc.decoder && s.videoQueue[0] == sc.pictures && s.videoStatus[0].Started? == sc.videoOn &&
    |s.audioQueue[0]| == |sc.sounds| && s.audioStatus[0].Started? == sc.audioOn &&
    (forall k :: 0 <= k < |sc.sounds| ==> s.audioQueue[0][k].pts == sc.sounds[k]) &&
    s.hasStarted == sc.started && s.lastBucket == sc.bucket && s.globalAudio == sc.global
  }

  ghost predicate ShowsEar(e: V.Ear, sc: Scene) {
    e.clock == sc.mapper &&
    (e.setting == V.NO_SETTING ||
     (e.setting == MP3 && |e.resampler.rem| == R.FRAME && e.resampler.cnt == 0 && e.resampler.list == []))
  }

  ghost predicate Shows(h: V.Hub, sc: Scene) {
    !h.mix.crashed && ShowsSched(h.mix.parser, sc) && h.mix.rawVideo[0] == sc.cached &&
    h.stream[0].memory == sc.memory && |h.stream[0].units| == sc.units && ShowsEar(h.stream[0].ear, sc) &&
    (sc.units > 0 ==> h.mix.source[0] == MOBILE)
  }

  lemma OpeningShows()
    ensures Shows(V.START, OPENING)
  {
  }

  /** What the act needs: sequence headers differ, pictures come after one, and a call does what the script says. */
  ghost predicate CanFollow(sc: Scene, a: Act) {
    match a
    case Sps(id) => sc.memory.curSpsPps != SpsData(id)
    case Picture(ts) => ts < U32 && sc.decoder.hasSpsPps
    case Call(_, t, started, bucket) =>
      forall s: Sched :: ShowsSched(s, sc) ==>
          Pick(s) == (s.(hasStarted := started, lastBucket := bucket), VideoStream(t))
    case _ => a.ts < U32
  }

  ghost predicate CanPlay(decodes: set<nat>, planes: Planes, sc: Scene, acts: seq<Act>)
    decreases |acts|
  {
    acts == [] || (CanFollow(sc, acts[0]) && CanPlay(decodes, planes, Next(decodes, planes, sc, acts[0]), acts[1..]))
  }

  // ----- the server does what the scene does

  lemma EnvelopeShows(h: V.Hub, sc: Scene)
    requires Shows(h, sc)
    ensures Shows(V.Play(V.Play(h, MaskSeen(1)), SourceSeen(0, MOBILE)), sc)
    ensures V.Play(V.Play(h, MaskSeen(1)), SourceSeen(0, MOBILE)).mix.source[0] == MOBILE
  {
    assert Bit(1, 0) by { assert Shift(1, 0) == 1; }
    var s' := ApplyMask(h.mix.parser, 1);
    assert forall i :: 0 <= i < STREAMS && s'.audioStatus[i] == Started ==> h.mix.parser.audioStatus[i] == Started;
    assert forall i :: 0 <= i < STREAMS && s'.videoStatus[i] == Started ==> h.mix.parser.videoStatus[i] == Started;
  }

  /** The tag is parsed and its unit, if any, handed on. */
  lemma TagHandled(cx: V.Codecs, h: V.Hub, sc: Scene, a: Act)
    requires Shows(h, sc) && !a.Call? && CanFollow(sc, a)
    ensures var au := UnitOf(sc.memory, a, sc.global);
            var h1 := V.With(h, 0, h.stream[0].(memory := ClockAfter(sc.memory, a, sc.global)));
            V.HandleTag(cx, h, 0, RawOf(a)) ==
            if a.Silence? then h1 else if a.Sound? then V.HearUnit(cx, h1, 0, au) else V.SeeUnit(cx, h1, 0, au)
  {
    TagParsed(sc.memory, a, sc.global);
  }

  lemma MemoryShows(h: V.Hub, sc: Scene, memory: Memory)
    requires Shows(h, sc)
    ensures Shows(V.With(h, 0, h.stream[0].(memory := memory)), sc.(memory := memory))
  {
  }

  lemma VideoUnitIs(m: Memory, a: Act, global: nat)
    requires a.Sps? || a.Picture?
    ensures var au := UnitOf(m, a, global);
            au.pts == C.Pts(m.clock, TimedOf(a), global) && (au.sp == SpsPps <==> a.Sps?)
  {
  }

  lemma VideoShows(decodes: set<nat>, planes: Planes, h: V.Hub, sc: Scene, a: Act)
    requires h.mix.source[0] == MOBILE
    requires Shows(h, sc) && (a.Sps? || a.Picture?) && CanFollow(sc, a)
    ensures Shows(V.HandleTag(Libraries(decodes, planes), h, 0, RawOf(a)), Seen(decodes, planes, sc, a))
  {
    var cx := Libraries(decodes, planes);
    TagHandled(cx, h, sc, a);
    var memory := ClockAfter(sc.memory, a, sc.global);
    var au := UnitOf(sc.memory, a, sc.global);
    VideoUnitIs(sc.memory, a, sc.global);
    MemoryShows(h, sc, memory);
    var h1 := V.With(h, 0, h.stream[0].(memory := memory));
    assert |h1.stream[0].units + [au]| == sc.units + 1;
    SeeShows(cx, h1, sc.(memory := memory), au, if sc.units + 1 in decodes then Some(planes) else None);
  }

  lemma SeeShows(cx: V.Codecs, h: V.Hub, sc: Scene, au: AccessUnit, decoded: Option<Planes>)
    requires h.mix.source[0] == MOBILE
    requires Shows(h, sc) && (au.sp == SpsPps || sc.decoder.hasSpsPps)
    requires cx.picture(0, h.stream[0].units + [au]) == decoded
    ensures var u := VideoUnit(au.pts, au.sp == SpsPps, decoded);
            Shows(V.SeeUnit(cx, h, 0, au),
                  sc.(units := sc.units + 1, decoder := DecoderAfter(sc.decoder, u),
                      pictures := QueueAfter(sc.decoder, sc.pictures, u), videoOn := sc.videoOn ||
                          IsQueued(sc.decoder, u)))
  {
    var u := VideoUnit(au.pts, au.sp == SpsPps, decoded);
    var h1 := V.With(h, 0, h.stream[0].(units := h.stream[0].units + [au]));
    assert V.SeeUnit(cx, h, 0, au) == V.Play(h1, VideoParsed(0, u));
    assert !DecoderAsserts(h.mix.parser, 0, u);
  }

  lemma SilenceShows(cx: V.Codecs, decodes: set<nat>, planes: Planes, h: V.Hub, sc: Scene, a: Act)
    requires Shows(h, sc) && a.Silence? && CanFollow(sc, a)
    ensures Shows(V.HandleTag(cx, h, 0, RawOf(a)), Next(decodes, planes, sc, a))
  {
    TagHandled(cx, h, sc, a);
  }

  lemma OneFrameOut(r: R.Resampler, out: seq<int>)
    requires |r.rem| == R.FRAME && r.cnt == 0 && r.list == [] && |out| == R.FRAME
    ensures R.Resampled(r, R.FRAME, 0, out) == Some(R.Resampler(r.rem, 0, [out]))
    ensures R.Drained([out]) == [out]
  {
    R.AfterFrame(r, out);
    assert r.rem[..0] + out[..R.FRAME] == out;
    assert R.Overwrite(r.rem, 0, out[R.FRAME..]) == r.rem;
    assert r.list + [r.rem[..r.cnt] + out[..R.FRAME]] == [out];
    assert R.WithFrame(r, out) == R.Resampler(r.rem, 0, [out]);
    R.OneDrained([out]);
  }

  lemma EarReady(e: V.Ear, sc: Scene)
    requires ShowsEar(e, sc)
    ensures var e' := V.EarFor(e, MP3);
            e'.clock == sc.mapper && e'.setting == MP3 && |e'.resampler.rem| == R.FRAME && e'.resampler.cnt == 0 &&
            e'.resampler.list == []
  {
  }

  lemma OneStamped(cx: V.Codecs, clock: K.Mapper, frame: seq<int>, pts: nat)
    ensures V.StampFrames(cx, clock, true, [frame], pts) ==
            ([AudioRaw(K.Stamp(clock, pts), true, cx.interleave(true, frame))], K.Next(clock, pts))
  {
    assert [frame][1..] == [];
    assert V.StampFrames(cx, K.Next(clock, pts), true, [frame][1..], pts) == ([], K.Next(clock, pts));
    var a := AudioRaw(K.Stamp(clock, pts), true, cx.interleave(true, frame));
    assert [a] + [] == [a];
    assert V.StampFrames(cx, clock, true, [frame], pts).0 == [a] + [];
  }

  /** The frame a sound adds to the queue. */
  function FrameOf(sc: Scene, ts: nat): AudioRaw {
    AudioRaw(K.Stamp(sc.mapper, C.Pts(sc.memory.clock, TimedOf(Sound(ts)), sc.global)), true, seq(R.FRAME, _ => 0))
  }

  lemma SoundShows(decodes: set<nat>, planes: Planes, h: V.Hub, sc: Scene, a: Act)
    requires h.mix.source[0] == MOBILE
    requires Shows(h, sc) && a.Sound? && CanFollow(sc, a)
    ensures Shows(V.HandleTag(Libraries(decodes, planes), h, 0, RawOf(a)), Next(decodes, planes, sc, a))
    ensures V.HandleTag(Libraries(decodes, planes), h, 0, RawOf(a)).events ==
            h.events + [AudioParsed(0, [FrameOf(sc, a.ts)])]
  {
    var cx := Libraries(decodes, planes);
    TagHandled(cx, h, sc, a);
    var memory := ClockAfter(sc.memory, a, sc.global);
    var h1 := V.With(h, 0, h.stream[0].(memory := memory));
    HearShows(cx, h1, sc.(memory := memory), UnitOf(sc.memory, a, sc.global));
  }

  lemma HearShows(cx: V.Codecs, h: V.Hub, sc: Scene, au: AccessUnit)
    requires h.mix.source[0] == MOBILE
    requires Shows(h, sc) && au.ctype == MP3 && forall us: seq<AccessUnit> :: |cx.samples(0, us)| == R.FRAME
    ensures var stamp := K.Stamp(sc.mapper, au.pts);
            Shows(V.HearUnit(cx, h, 0, au),
                  sc.(units := sc.units + 1, mapper := K.Next(sc.mapper, au.pts), audioOn := true,
                      sounds := sc.sounds + [stamp], global := stamp))
    ensures V.HearUnit(cx, h, 0, au).events ==
            h.events + [AudioParsed(0, [AudioRaw(K.Stamp(sc.mapper, au.pts), true,
                                                 cx.interleave(true, cx.samples(0, h.stream[0].units + [au])))])]
  {
    var st := h.stream[0];
    var ear := V.EarFor(st.ear, MP3);
    EarReady(st.ear, sc);
    var units := st.units + [au];
    var out := cx.samples(0, units);
    OneFrameOut(ear.resampler, out);
    OneStamped(cx, ear.clock, out, au.pts);
    var frames := [AudioRaw(K.Stamp(sc.mapper, au.pts), true, cx.interleave(true, out))];
    var st' := V.Stream(st.memory, V.Ear(MP3, R.Resampler(ear.resampler.rem, 0, []), K.Next(sc.mapper, au.pts)), units);
    assert V.HearUnit(cx, h, 0, au) == V.Play(V.With(h, 0, st'), AudioParsed(0, frames));
  }

  lemma PopShows(m: Mix, sc: Scene, t: nat)
    requires ShowsSched(m.parser, sc) && m.rawVideo[0] == sc.cached
    ensures var m', sc' := PopVideo(m, t), Called(sc, t, sc.started, sc.bucket);
            ShowsSched(m'.parser, sc') && m'.rawVideo[0] == sc'.cached
  {
  }

  lemma AnswerIs(h: V.Hub, metadata: seq<byte>, codec: Codec)
    requires !h.mix.crashed
    ensures V.Answer(h, metadata, codec).stream == h.stream
    ensures V.Answer(h, metadata, codec).mix == GetOutput(h.mix, codec)
  {
    MixingRuns.AskIsCall(h.mix, codec);
  }

  lemma CallShows(h: V.Hub, sc: Scene, metadata: seq<byte>, a: Act)
    requires Shows(h, sc) && a.Call? && CanFollow(sc, a)
    ensures Shows(V.Answer(h, metadata, a.codec), Called(sc, a.t, a.started, a.bucket))
  {
    var m := h.mix;
    var s' := m.parser.(hasStarted := a.started, lastBucket := a.bucket);
    assert Popped(m) == (PopVideo(m.(parser := s'), a.t), VideoStream(a.t)) by {
      assert Pick(m.parser) == (s', VideoStream(a.t));
    }
    PopShows(m.(parser := s'), sc.(started := a.started, bucket := a.bucket), a.t);
    AnswerIs(h, metadata, a.codec);
    MixingRuns.CallPops(m, a.codec);
  }

  /** The tag itself, its segment's mask and source seen. */
  lemma BareTagShows(decodes: set<nat>, planes: Planes, h: V.Hub, sc: Scene, a: Act)
    requires h.mix.source[0] == MOBILE
    requires Shows(h, sc) && !a.Call? && CanFollow(sc, a)
    ensures var h' := V.HandleTag(Libraries(decodes, planes), h, 0, RawOf(a));
            Shows(h', Next(decodes, planes, sc, a)) &&
            (a.Sound? ==> h'.events == h.events + [AudioParsed(0, [FrameOf(sc, a.ts)])])
  {
    match a
    case Silence(_) => SilenceShows(Libraries(decodes, planes), decodes, planes, h, sc, a);
    case Sound(_) => SoundShows(decodes, planes, h, sc, a);
    case _ => VideoShows(decodes, planes, h, sc, a);
  }

  lemma ActShows(decodes: set<nat>, planes: Planes, h: V.Hub, sc: Scene, a: Act)
    requires Shows(h, sc) && !a.Call? && CanFollow(sc, a)
    ensures var h' := V.Absorb(Libraries(decodes, planes), h, TagLog(a));
            Shows(h', Next(decodes, planes, sc, a)) &&
            (a.Sound? ==>
               h'.events == h.events + [MaskSeen(1), SourceSeen(0, MOBILE), AudioParsed(0, [FrameOf(sc, a.ts)])])
  {
    var cx := Libraries(decodes, planes);
    var h1 := V.Play(V.Play(h, MaskSeen(1)), SourceSeen(0, MOBILE));
    EnvelopeShows(h, sc);
    AbsorbThree(cx, h, D.Masked(1), D.Sourced(0, MOBILE), D.TagParsed(0, RawOf(a)));
    assert V.Handle(cx, V.Handle(cx, h, D.Masked(1)), D.Sourced(0, MOBILE)) == h1;
    BareTagShows(decodes, planes, h1, sc, a);
    assert h1.events == h.events + [MaskSeen(1), SourceSeen(0, MOBILE)];
  }

  /** What the demultiplexer logs for it. */
  function TagLog(a: Act): seq<D.Event>
    requires !a.Call?
  {
    [D.Masked(1), D.Sourced(0, MOBILE), D.TagParsed(0, RawOf(a))]
  }

  lemma AbsorbThree(cx: V.Codecs, h: V.Hub, a: D.Event, b: D.Event, c: D.Event)
    ensures V.Absorb(cx, h, [a, b, c]) == V.Handle(cx, V.Handle(cx, V.Handle(cx, h, a), b), c)
  {
    var h1 := V.Handle(cx, h, a);
    var h2 := V.Handle(cx, h1, b);
    var h3 := V.Handle(cx, h2, c);
    assert [a, b, c][1..] == [b, c] && [b, c][1..] == [c] && [c][1..] == [];
    assert V.Absorb(cx, h3, [c][1..]) == h3;
    assert V.Absorb(cx, h2, [c]) == h3;
    assert V.Absorb(cx, h1, [b, c]) == h3;
  }

  /** One segment with one whole tag, as the demultiplexer logs it. */
  lemma TagLogged(r: Reader<D.Ctl>, a: Act)
    requires Idle(r, 0) && !a.Call?
    ensures var r' := Feed(D.Sgi, r, WireOf(a));
            Idle(r', 0) &&
            r'.ctl.log == r.ctl.log + TagLog(a)
  {
    SegmentOfIsValid(a);
    WholeTagRead(r, 1, 0, MOBILE, Tag(KindOfAct(a), TsOf(a), BodyOf(a)));
  }

  lemma SegmentShows(decodes: set<nat>, planes: Planes, h: V.Hub, r: Reader<D.Ctl>, sc: Scene, a: Act)
    requires Shows(h, sc) && Idle(r, 0) && !a.Call? && CanFollow(sc, a)
    ensures var (h', r') := V.NewInput(Libraries(decodes, planes), h, r, WireOf(a));
            Shows(h', Next(decodes, planes, sc, a)) && Idle(r', 0) &&
            (a.Sound? ==>
               h'.events == h.events + [MaskSeen(1), SourceSeen(0, MOBILE), AudioParsed(0, [FrameOf(sc, a.ts)])])
  {
    TagLogged(r, a);
    ActShows(decodes, planes, h, sc, a);
    var r' := Feed(D.Sgi, r, WireOf(a));
    assert r'.ctl.log[|r.ctl.log|..] == TagLog(a);
  }

  /** The server does, byte by byte and call by call, what the scene does. */
  lemma {:induction false} ScriptShows(decodes: set<nat>, planes: Planes, metadata: seq<byte>, h: V.Hub,
                                       r: Reader<D.Ctl>, sc: Scene, acts: seq<Act>)
    requires Shows(h, sc) && Idle(r, 0) && CanPlay(decodes, planes, sc, acts)
    ensures Shows(V.Serve(Libraries(decodes, planes), metadata, h, r, Script(acts)), Last(decodes, planes, sc, acts))
    decreases |acts|
  {
    if acts != [] {
      var cx, a, rest := Libraries(decodes, planes), acts[0], acts[1..];
      assert Script(acts)[0] == ActionOf(a) && Script(acts)[1..] == Script(rest);
      var sc' := Next(decodes, planes, sc, a);
      if a.Call? {
        CallShows(h, sc, metadata, a);
        ScriptShows(decodes, planes, metadata, V.Answer(h, metadata, a.codec), r, sc', rest);
      } else {
        SegmentShows(decodes, planes, h, r, sc, a);
        var (h', r') := V.NewInput(cx, h, r, WireOf(a));
        ScriptShows(decodes, planes, metadata, h', r', sc', rest);
      }
    }
  }
}
