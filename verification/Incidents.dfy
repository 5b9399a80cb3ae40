/**
 Runs of the whole server, from the first byte read, in which what the code hopes for fails:
 a picture composed from an SPS/PPS record, and a failed assert of the bucket clock.
 */
module Incidents {
  import opened BitMask
  import opened Bytes
  import opened FlvReading
  import opened Scheduling
  import opened Mixing
  import opened Scenes
  import C = StreamClock
  import D = SegmentInReading
  import G = Packaging
  import K = SampleClock
  import P = PictureValidity
  import V = Server

  // ----- one stream alone

  lemma {:induction false} AloneStamps(s: Sched, sc: Scene, limit: nat, n: nat)
    requires ShowsSched(s, sc) && 1 <= n <= STREAMS
    ensures AudioStamp(s, n) == if sc.audioOn && sc.sounds != [] then Min(sc.sounds[0], NO_STAMP) else NO_STAMP
    ensures FrameStamp(s, limit, n) == if Recorded(s, limit, 0) then sc.pictures[0].pts else NO_STAMP
    ensures FrontIsSpsPps(s, 0) ==> SpsPpsStamp(s, n) == sc.pictures[0].pts
    decreases n
  {
    if n > 1 {
      AloneStamps(s, sc, limit, n - 1);
    } else {
      assert AudioStamp(s, 0) == NO_STAMP && FrameStamp(s, limit, 0) == NO_STAMP;
    }
  }

  lemma AloneAudio(s: Sched, sc: Scene)
    requires ShowsSched(s, sc) && sc.audioOn && sc.sounds != [] && sc.sounds[0] < NO_STAMP
    ensures AudioReady(s) == Ready(sc.sounds[0])
  {
    AloneStamps(s, sc, 0, |s.audioQueue|);
    assert s.audioStatus[0] == Started;
  }

  /** What the bucket clock sees of that stream. */
  lemma AloneVideo(s: Sched, sc: Scene, audioTs: nat)
    requires ShowsSched(s, sc) && sc.videoOn && sc.pictures != []
    ensures AnyPicture(s, STREAMS) <==> !sc.pictures[0].isSpsPps
    ensures AnySpsPps(s, STREAMS) <==> sc.pictures[0].isSpsPps
    ensures sc.pictures[0].isSpsPps ==> SpsPpsStamp(s, |s.videoQueue|) == sc.pictures[0].pts
    ensures sc.pictures[0].isSpsPps || !sc.started ==>
            FrameStamp(s, Limit(s, audioTs), |s.videoQueue|) == sc.pictures[0].pts
  {
    AloneStamps(s, sc, Limit(s, audioTs), |s.videoQueue|);
    assert HasFront(s, 0);
    assert FrontIsPicture(s, 0) || FrontIsSpsPps(s, 0);
  }

  /** Before the start an SPS/PPS front not past the audio is output at its own stamp. */
  lemma SpsPpsCall(sc: Scene)
    requires sc.audioOn && sc.sounds != [] && sc.sounds[0] < NO_STAMP && !sc.started
    requires sc.videoOn && sc.pictures != [] && sc.pictures[0].isSpsPps && sc.pictures[0].pts <= sc.sounds[0]
    ensures forall s: Sched :: ShowsSched(s, sc) ==>
              Pick(s) == (s.(hasStarted := false, lastBucket := AudioBucketFrom(sc.bucket, sc.sounds[0])),
                          VideoStream(sc.pictures[0].pts))
  {
    forall s: Sched | ShowsSched(s, sc)
      ensures Pick(s) == (s.(hasStarted := false, lastBucket := AudioBucketFrom(sc.bucket, sc.sounds[0])),
                          VideoStream(sc.pictures[0].pts))
    {
      AloneAudio(s, sc);
      AloneVideo(s, sc, sc.sounds[0]);
    }
  }

  /** The first picture not past the audio starts the clock. */
  lemma StartingCall(sc: Scene)
    requires sc.audioOn && sc.sounds != [] && sc.sounds[0] < NO_STAMP && !sc.started
    requires sc.videoOn && sc.pictures != [] && !sc.pictures[0].isSpsPps && sc.pictures[0].pts <= sc.sounds[0]
    ensures forall s: Sched :: ShowsSched(s, sc) ==>
              Pick(s) == (s.(hasStarted := true, lastBucket := 3 * sc.pictures[0].pts), VideoStream(sc.pictures[0].pts))
  {
    forall s: Sched | ShowsSched(s, sc)
      ensures Pick(s) == (s.(hasStarted := true, lastBucket := 3 * sc.pictures[0].pts), VideoStream(sc.pictures[0].pts))
    {
      AloneAudio(s, sc);
      AloneVideo(s, sc, sc.sounds[0]);
    }
  }

  // ----- the scripts

  lemma PlaysFirst(decodes: set<nat>, planes: Planes, sc: Scene, a: Act, sc': Scene, rest: seq<Act>)
    requires CanFollow(sc, a) && sc' == Next(decodes, planes, sc, a) && CanPlay(decodes, planes, sc', rest)
    ensures CanPlay(decodes, planes, sc, [a] + rest)
    ensures Last(decodes, planes, sc, [a] + rest) == Last(decodes, planes, sc', rest)
  {
    assert ([a] + rest)[0] == a && ([a] + rest)[1..] == rest;
  }

  lemma SpsDiffer(a: byte, b: byte)
    ensures SpsData(a) != [] && (a != b ==> SpsData(a) != SpsData(b))
  {
    assert SpsData(a)[4] == a && SpsData(b)[4] == b;
  }

  /** The scene with the parser's clock, the last header and the count of units moved on. */
  function At(sc: Scene, clock: C.Clock, sps: seq<byte>, units: nat): Scene {
    sc.(memory := Memory(clock, sps), units := units)
  }

  /** A header is queued, stamped right after the last video stamp. */
  function HeaderSeen(sc: Scene, id: byte): Scene {
    var pts := sc.memory.clock.prevVideoAdj + 1;
    At(sc, sc.memory.clock.(prevVideoAdj := pts), SpsData(id), sc.units + 1).(
      decoder := Decoder(true, false, sc.decoder.firstFramePts), videoOn := true,
      pictures := sc.pictures + [VideoRaw(pts, true, None)])
  }

  lemma PlaysHeader(decodes: set<nat>, planes: Planes, sc: Scene, id: byte, rest: seq<Act>)
    requires sc.memory.clock.prevVideoAdj + 1 < U32 && sc.memory.curSpsPps != SpsData(id)
    requires CanPlay(decodes, planes, HeaderSeen(sc, id), rest)
    ensures CanPlay(decodes, planes, sc, [Sps(id)] + rest)
    ensures Last(decodes, planes, sc, [Sps(id)] + rest) == Last(decodes, planes, HeaderSeen(sc, id), rest)
  {
    assert Next(decodes, planes, sc, Sps(id)) == HeaderSeen(sc, id);
    PlaysFirst(decodes, planes, sc, Sps(id), HeaderSeen(sc, id), rest);
  }

  /** A picture that does not decode only moves the parser's clock. */
  function PictureMissed(sc: Scene, clock: C.Clock): Scene {
    At(sc, clock, sc.memory.curSpsPps, sc.units + 1)
  }

  lemma PlaysMissed(decodes: set<nat>, planes: Planes, sc: Scene, ts: nat, clock: C.Clock, rest: seq<Act>)
    requires ts < U32 && sc.decoder.hasSpsPps && sc.units + 1 !in decodes
    requires C.Tick(sc.memory.clock, C.TimedTag(C.Video, false, ts), sc.global) == clock
    requires CanPlay(decodes, planes, PictureMissed(sc, clock), rest)
    ensures CanPlay(decodes, planes, sc, [Picture(ts)] + rest)
    ensures Last(decodes, planes, sc, [Picture(ts)] + rest) == Last(decodes, planes, PictureMissed(sc, clock), rest)
  {
    assert Next(decodes, planes, sc, Picture(ts)) == PictureMissed(sc, clock);
    PlaysFirst(decodes, planes, sc, Picture(ts), PictureMissed(sc, clock), rest);
  }

  /** A header, two pictures that do not decode, another header; a jump back of the clock, a picture, a sound. */
  const TRAP: seq<Act> := [Sps(1), Picture(0), Picture(49), Sps(2), Silence(200), Picture(200), Sound(226)]

  /** Four tags on: headers stamped 1 and 50 are queued, and the parser's clock stands at 50. */
  function TrapHalfSet(): Scene {
    At(OPENING, C.Clock(0, 50, 0, 0), SpsData(2), 4).(
      decoder := Decoder(true, false, NO_STAMP), videoOn := true,
      pictures := [VideoRaw(1, true, None), VideoRaw(50, true, None)])
  }

  /** At the end the first picture, stamped 0, is queued behind them, and a sound stamped 26. */
  function TrapSet(planes: Planes): Scene {
    At(OPENING, C.Clock(-200, 0, 26, 226), SpsData(2), 6).(
      decoder := Decoder(true, true, 0), videoOn := true,
      pictures := [VideoRaw(1, true, None), VideoRaw(50, true, None), VideoRaw(0, false, Some(planes))],
      mapper := K.Mapper(26, 1, 26), audioOn := true, sounds := [26], global := 26)
  }

  /** A header, then a picture that does not decode. */
  lemma HeaderAndMiss(decodes: set<nat>, planes: Planes, sc: Scene, id: byte, ts: nat, clock: C.Clock, rest: seq<Act>)
    requires sc.memory.clock.prevVideoAdj + 1 < U32 && sc.memory.curSpsPps != SpsData(id) && ts < U32
    requires sc.units + 2 !in decodes
    requires C.Tick(HeaderSeen(sc, id).memory.clock, C.TimedTag(C.Video, false, ts), sc.global) == clock
    requires CanPlay(decodes, planes, PictureMissed(HeaderSeen(sc, id), clock), rest)
    ensures var acts := [Sps(id)] + ([Picture(ts)] + rest);
            CanPlay(decodes, planes, sc, acts) &&
            Last(decodes, planes, sc, acts) == Last(decodes, planes, PictureMissed(HeaderSeen(sc, id), clock), rest)
  {
    PlaysMissed(decodes, planes, HeaderSeen(sc, id), ts, clock, rest);
    PlaysHeader(decodes, planes, sc, id, [Picture(ts)] + rest);
  }

  /** After a header and a missed picture at 0. */
  function Primed(): Scene {
    At(OPENING, C.Clock(0, 0, 0, 0), SpsData(1), 2).(
      decoder := Decoder(true, false, NO_STAMP), videoOn := true, pictures := [VideoRaw(1, true, None)])
  }

  lemma Priming(decodes: set<nat>, planes: Planes, rest: seq<Act>)
    requires 2 !in decodes && CanPlay(decodes, planes, Primed(), rest)
    ensures var acts := [Sps(1)] + ([Picture(0)] + rest);
            CanPlay(decodes, planes, OPENING, acts) &&
                Last(decodes, planes, OPENING, acts) == Last(decodes, planes, Primed(), rest)
  {
    SpsDiffer(1, 2);
    assert PictureMissed(HeaderSeen(OPENING, 1), C.Clock(0, 0, 0, 0)) == Primed();
    HeaderAndMiss(decodes, planes, OPENING, 1, 0, C.Clock(0, 0, 0, 0), rest);
  }

  lemma SecondHeader(planes: Planes, rest: seq<Act>)
    requires CanPlay({5}, planes, TrapHalfSet(), rest)
    ensures var sc, acts := PictureMissed(Primed(), C.Clock(0, 49, 0, 0)), [Sps(2)] + rest;
            CanPlay({5}, planes, sc, acts) && Last({5}, planes, sc, acts) == Last({5}, planes, TrapHalfSet(), rest)
  {
    SpsDiffer(1, 2);
    var sc := PictureMissed(Primed(), C.Clock(0, 49, 0, 0));
    assert HeaderSeen(sc, 2) == TrapHalfSet();
    PlaysHeader({5}, planes, sc, 2, rest);
  }

  lemma TrapHeaders(planes: Planes, rest: seq<Act>)
    requires CanPlay({5}, planes, TrapHalfSet(), rest)
    ensures var acts := [Picture(49)] + ([Sps(2)] + rest);
            CanPlay({5}, planes, Primed(), acts) &&
                Last({5}, planes, Primed(), acts) == Last({5}, planes, TrapHalfSet(), rest)
  {
    SecondHeader(planes, rest);
    PlaysMissed({5}, planes, Primed(), 49, C.Clock(0, 49, 0, 0), [Sps(2)] + rest);
  }

  lemma TrapPlays(planes: Planes, acts: seq<Act>)
    requires acts == TRAP
    ensures CanPlay({5}, planes, OPENING, acts) && Last({5}, planes, OPENING, acts) == TrapSet(planes)
  {
    var rest := acts[4..];
    TrapRest(planes, rest);
    TrapHeaders(planes, rest);
    Priming({5}, planes, [Picture(49)] + ([Sps(2)] + rest));
    assert acts == [Sps(1)] + ([Picture(0)] + ([Picture(49)] + ([Sps(2)] + rest)));
  }

  lemma TrapRest(planes: Planes, acts: seq<Act>)
    requires acts == [Silence(200), Picture(200), Sound(226)]
    ensures CanPlay({5}, planes, TrapHalfSet(), acts)
    ensures Last({5}, planes, TrapHalfSet(), acts) == TrapSet(planes)
  {
    var d := {5};
    var s4 := TrapHalfSet();
    var s5 := At(s4, C.Clock(-200, 50, 0, 200), SpsData(2), 4);
    var s6 := At(s4, C.Clock(-200, 0, 0, 200), SpsData(2), 5).(
      decoder := Decoder(true, true, 0), pictures := TrapSet(planes).pictures);
    PlaysFirst(d, planes, s6, Sound(226), TrapSet(planes), []);
    PlaysFirst(d, planes, s5, Picture(200), s6, [Sound(226)] + []);
    PlaysFirst(d, planes, s4, Silence(200), s5, [Picture(200)] + ([Sound(226)] + []));
    assert acts == [Silence(200)] + ([Picture(200)] + ([Sound(226)] + []));
  }

  /** With the trap set, the next call composes stream 0 from the header it has cached. */
  lemma TrapSprings(planes: Planes, m: Mix)
    requires ShowsSched(m.parser, TrapSet(planes)) && m.rawVideo[0] == None
    ensures var (m', choice) := Popped(m);
            choice == VideoStream(1) && VideoOn(m', 0) && m'.rawVideo[0] == Some(VideoRaw(1, true, None))
    ensures !P.ComposesPictures(m)
  {
    SpsPpsCall(TrapSet(planes));
    var q := m.parser.videoQueue[0];
    assert LastDrained(q[1..], 1, Some(q[0])) == Some(q[0]);
    assert LastDrained(q, 1, None) == Some(VideoRaw(1, true, None));
    var s' := m.parser.(hasStarted := false, lastBucket := AudioBucketFrom(0, 26));
    assert Pick(m.parser) == (s', VideoStream(1));
    assert Popped(m) == (PopVideo(m.(parser := s'), 1), VideoStream(1));
    assert !P.IsPicture(VideoRaw(1, true, None));
  }

  /**
   A publisher can bring this about from the first byte: it repeats its sequence header after
   pictures that do not decode, and its clock is set back before the first one that does. The
   call due then counts its stream as valid with a header in the cache, which has no planes.
   */
  lemma OutOfOrderFails(planes: Planes, metadata: seq<byte>)
    ensures var h := V.Serve(Libraries({5}, planes), metadata, V.START, D.START, Script(TRAP));
            !h.mix.crashed && Popped(h.mix).1 == VideoStream(1) && VideoOn(Popped(h.mix).0, 0) &&
            Popped(h.mix).0.rawVideo[0] == Some(VideoRaw(1, true, None)) && !P.ComposesPictures(h.mix)
  {
    OpeningShows();
    var acts := TRAP;
    TrapPlays(planes, acts);
    ScriptShows({5}, planes, metadata, V.START, D.START, OPENING, acts);
    var h := V.Serve(Libraries({5}, planes), metadata, V.START, D.START, Script(TRAP));
    TrapSprings(planes, h.mix);
  }

  // ----- the asserts of the bucket clock

  /** A header, a picture that does not decode, a sound. */
  function LateOpening(): Scene {
    At(OPENING, C.Clock(0, 0, 26, 26), SpsData(1), 3).(
      decoder := Decoder(true, false, NO_STAMP), videoOn := true, pictures := [VideoRaw(1, true, None)],
      mapper := K.Mapper(26, 1, 26), audioOn := true, sounds := [26], global := 26)
  }

  /** Then a call that takes the header, a picture that starts the clock at 10, a gap and another header. */
  function Late(codec: Codec): seq<Act> {
    [Sps(1), Picture(0), Sound(26), Call(codec, 1, false, 0), Picture(10), Call(codec, 10, true, 30), Picture(1000),
        Sps(2)]
  }

  /** The clock has started at 10 ms, audio stands at 26, and the front header is stamped 1001. */
  function LateHeader(planes: Planes): Scene {
    LateOpening().(memory := Memory(C.Clock(0, 1001, 26, 26), SpsData(2)), units := 6, decoder :=
        Decoder(true, false, 10),
                   pictures := [VideoRaw(1001, true, None)], cached := Some(VideoRaw(10, false, Some(planes))),
                   started := true, bucket := 30)
  }

  lemma PopsOnly(v: VideoRaw, t: nat, cached: Option<VideoRaw>)
    requires v.pts <= t
    ensures DrainTo([v], t) == [] && LastDrained([v], t, cached) == Some(v)
  {
    assert [v][1..] == [];
  }

  /** The picture stamped 10 is queued; the header before it has been taken. */
  function LateMiddle(planes: Planes): Scene {
    At(LateOpening(), C.Clock(0, 10, 26, 26), SpsData(1), 4).(
      decoder := Decoder(true, true, 10), pictures := [VideoRaw(10, false, Some(planes))],
      cached := Some(VideoRaw(1, true, None)))
  }

  lemma LateMiddlePlays(planes: Planes, codec: Codec, rest: seq<Act>)
    requires CanPlay({4}, planes, LateMiddle(planes), rest)
    ensures var acts := [Sound(26)] + ([Call(codec, 1, false, 0)] + ([Picture(10)] + rest));
            CanPlay({4}, planes, Primed(), acts) &&
            Last({4}, planes, Primed(), acts) == Last({4}, planes, LateMiddle(planes), rest)
  {
    var header := VideoRaw(1, true, None);
    var s3 := LateOpening();
    var s4 := s3.(pictures := [], cached := Some(header));
    SpsPpsCall(s3);
    PopsOnly(header, 1, None);
    var r4 := [Picture(10)] + rest;
    PlaysFirst({4}, planes, s4, Picture(10), LateMiddle(planes), rest);
    PlaysFirst({4}, planes, s3, Call(codec, 1, false, 0), s4, r4);
    PlaysFirst({4}, planes, Primed(), Sound(26), s3, [Call(codec, 1, false, 0)] + r4);
  }

  /** The same server as far as the call that starts the clock. */
  function LateHead(codec: Codec): seq<Act> {
    [Sps(1), Picture(0), Sound(26), Call(codec, 1, false, 0), Picture(10)]
  }

  lemma LateHeadPlays(planes: Planes, codec: Codec, acts: seq<Act>)
    requires acts == LateHead(codec)
    ensures CanPlay({4}, planes, OPENING, acts) && Last({4}, planes, OPENING, acts) == LateMiddle(planes)
  {
    var rest := acts[5..];
    assert rest == [];
    LateMiddlePlays(planes, codec, rest);
    var mid := [Sound(26)] + ([Call(codec, 1, false, 0)] + ([Picture(10)] + rest));
    Priming({4}, planes, mid);
    assert acts == [Sps(1)] + ([Picture(0)] + mid);
  }

  /** The picture that starts the clock is shown at once: its publisher and the all-in stream each get a tag. */
  lemma StartingCallShows(planes: Planes, m: Mix, codec: Codec)
    requires !m.crashed && ShowsSched(m.parser, LateMiddle(planes)) && m.source[0] == MOBILE && codec.video.Some?
    ensures var tags := TagsMade(m, codec);
            Popped(m).1 == VideoStream(10) && G.Shown(Popped(m).0, 0) &&
            tags[0].Some? && G.TellsPicture(tags[0].value, 10, codec.isKey, codec.rects[0], codec.video.value) &&
            tags[32].Some?
  {
    var s' := m.parser.(hasStarted := true, lastBucket := 30);
    StartingCall(LateMiddle(planes));
    PopsOnly(VideoRaw(10, false, Some(planes)), 10, m.rawVideo[0]);
    assert Popped(m) == (PopVideo(m.(parser := s'), 10), VideoStream(10));
    G.VideoTagsExactly(m, codec, 10);
  }

  lemma FirstPictureIsSent(planes: Planes, metadata: seq<byte>, codec: Codec)
    requires codec.video.Some?
    ensures var h := V.Serve(Libraries({4}, planes), metadata, V.START, D.START, Script(LateHead(codec)));
            var tags := TagsMade(h.mix, codec);
            Popped(h.mix).1 == VideoStream(10) && tags[0].Some? && tags[32].Some? &&
            G.TellsPicture(tags[0].value, 10, codec.isKey, codec.rects[0], codec.video.value)
  {
    OpeningShows();
    var acts := LateHead(codec);
    LateHeadPlays(planes, codec, acts);
    ScriptShows({4}, planes, metadata, V.START, D.START, OPENING, acts);
    var h := V.Serve(Libraries({4}, planes), metadata, V.START, D.START, Script(acts));
    StartingCallShows(planes, h.mix, codec);
  }

  lemma LateEndPlays(planes: Planes, codec: Codec, acts: seq<Act>)
    requires acts == [Call(codec, 10, true, 30), Picture(1000), Sps(2)]
    ensures CanPlay({4}, planes, LateMiddle(planes), acts)
    ensures Last({4}, planes, LateMiddle(planes), acts) == LateHeader(planes)
  {
    var picture := VideoRaw(10, false, Some(planes));
    var s5 := LateMiddle(planes);
    var s6 := s5.(pictures := [], cached := Some(picture), started := true, bucket := 30);
    var s7 := PictureMissed(s6, C.Clock(0, 1000, 26, 26));
    StartingCall(s5);
    PopsOnly(picture, 10, s5.cached);
    SpsDiffer(1, 2);
    assert HeaderSeen(s7, 2) == LateHeader(planes);
    var r7 := [Sps(2)] + [];
    PlaysHeader({4}, planes, s7, 2, []);
    PlaysMissed({4}, planes, s6, 1000, C.Clock(0, 1000, 26, 26), r7);
    PlaysFirst({4}, planes, s5, Call(codec, 10, true, 30), s6, [Picture(1000)] + r7);
    assert acts == [Call(codec, 10, true, 30)] + ([Picture(1000)] + r7);
  }

  lemma LatePlays(planes: Planes, codec: Codec, acts: seq<Act>)
    requires acts == Late(codec)
    ensures CanPlay({4}, planes, OPENING, acts) && Last({4}, planes, OPENING, acts) == LateHeader(planes)
  {
    var end := acts[5..];
    LateEndPlays(planes, codec, end);
    LateMiddlePlays(planes, codec, end);
    var rest := [Sound(26)] + ([Call(codec, 1, false, 0)] + ([Picture(10)] + end));
    Priming({4}, planes, rest);
    assert acts == [Sps(1)] + ([Picture(0)] + rest);
  }

  /** The header is past the limit, so the next call fails an assert of the readiness query. */
  lemma LateHeaderCrashes(planes: Planes, h: V.Hub, metadata: seq<byte>, codec: Codec)
    requires Shows(h, LateHeader(planes))
    ensures Pick(h.mix.parser).1 == Crash && V.Answer(h, metadata, codec).mix.crashed
  {
    AloneAudio(h.mix.parser, LateHeader(planes));
    AloneVideo(h.mix.parser, LateHeader(planes), 26);
  }

  /**
   The condition of `BucketClock.AssertsExact` is met by runs from the first byte: a started
   clock, and a sequence header repeated after a second without a decoded picture.
   */
  lemma AssertReached(planes: Planes, metadata: seq<byte>, codec: Codec)
    ensures var todo := Script(Late(codec));
            var h := V.Serve(Libraries({4}, planes), metadata, V.START, D.START, todo);
            !h.mix.crashed && Pick(h.mix.parser).1 == Crash && V.Answer(h, metadata, codec).mix.crashed
  {
    LateShows(planes, metadata, codec);
    var h := V.Serve(Libraries({4}, planes), metadata, V.START, D.START, Script(Late(codec)));
    LateHeaderCrashes(planes, h, metadata, codec);
  }

  lemma LateShows(planes: Planes, metadata: seq<byte>, codec: Codec)
    ensures var todo := Script(Late(codec));
            Shows(V.Serve(Libraries({4}, planes), metadata, V.START, D.START, todo), LateHeader(planes))
  {
    OpeningShows();
    var acts := Late(codec);
    LatePlays(planes, codec, acts);
    ScriptShows({4}, planes, metadata, V.START, D.START, OPENING, acts);
  }
}
