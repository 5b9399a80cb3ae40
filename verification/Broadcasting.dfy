/**
 A publisher that is only heard: any number of segments with a sound each, each followed by an
 output call. However many masks it contains, the run keeps `AudioLockstep`'s order whenever the
 sample clock's stamps do.
 */
module Broadcasting {
  import opened BitMask
  import opened Bytes
  import opened Chunked
  import opened Scheduling
  import opened Mixing
  import opened SegmentDemuxing
  import opened Scenes
  import D = SegmentInReading
  import L = AudioLockstep
  import MixingRuns
  import V = Server

  /** What the server makes of one segment with a sound, and of the output call after it. */
  function SoundThenCall(a: AudioRaw, codec: Codec): seq<Event> {
    [MaskSeen(1), SourceSeen(0, MOBILE), AudioParsed(0, [a]), OutputAsked(codec)]
  }

  /** The mixer after those events; stream 0 sends no video and has nothing queued. */
  function MixAfter(m: Mix, a: AudioRaw, codec: Codec): Mix {
    Step(Step(Step(Step(m, MaskSeen(1)), SourceSeen(0, MOBILE)), AudioParsed(0, [a])), OutputAsked(codec))
  }

  /** Only stream 0 has ever been heard, its frames are all taken, and nothing is to be seen. */
  ghost predicate Listening(m: Mix) {
    !m.crashed && m.parser.audioQueue[0] == [] &&
    (forall i :: 0 < i < STREAMS ==> m.parser.audioStatus[i] != Started) &&
    (forall i :: 0 <= i < STREAMS ==> m.parser.videoStatus[i] != Started)
  }

  lemma {:induction false} LoneSound(s: Sched, n: nat)
    requires 1 <= n <= STREAMS && s.audioStatus[0] == Started && |s.audioQueue[0]| == 1
    requires forall i :: 0 < i < STREAMS ==> s.audioStatus[i] != Started
    requires forall i :: 0 <= i < STREAMS ==> s.videoStatus[i] != Started
    ensures s.audioQueue[0][0].pts < NO_STAMP ==> AudioStamp(s, n) == s.audioQueue[0][0].pts
    ensures forall limit :: FrameStamp(s, limit, n) == NO_STAMP
  {
    if n > 1 {
      LoneSound(s, n - 1);
    } else {
      assert AudioStamp(s, 0) == NO_STAMP && forall limit :: FrameStamp(s, limit, 0) == NO_STAMP;
    }
  }

  lemma LoneSoundPicked(s: Sched)
    requires s.audioStatus[0] == Started && |s.audioQueue[0]| == 1 && s.audioQueue[0][0].pts < NO_STAMP
    requires forall i :: 0 < i < STREAMS ==> s.audioStatus[i] != Started
    requires forall i :: 0 <= i < STREAMS ==> s.videoStatus[i] != Started
    ensures Pick(s) == (s, AudioStream(s.audioQueue[0][0].pts))
  {
    LoneSound(s, |s.audioQueue|);
    assert AudioReady(s) == Ready(s.audioQueue[0][0].pts);
  }

  lemma HeardMix(m: Mix, a: AudioRaw)
    requires Listening(m)
    ensures var m1 := Step(Step(m, MaskSeen(1)), SourceSeen(0, MOBILE));
            var m2 := Step(m1, AudioParsed(0, [a]));
            Listening(m1) && (m1.parser.audioStatus[0] == Started <==> m.parser.audioStatus[0] == Started) &&
            !m2.crashed && m2.parser.audioQueue[0] == [a] && m2.parser.audioStatus[0] == Started &&
            (forall i :: 0 < i < STREAMS ==> m2.parser.audioStatus[i] != Started) &&
            (forall i :: 0 <= i < STREAMS ==> m2.parser.videoStatus[i] != Started)
  {
    assert Bit(1, 0) by { assert Shift(1, 0) == 1; }
    assert [] + [a] == [a];
  }

  lemma TakenMix(m2: Mix, a: AudioRaw, codec: Codec)
    requires !m2.crashed && m2.parser.audioQueue[0] == [a] && m2.parser.audioStatus[0] == Started && a.pts < NO_STAMP
    requires forall i :: 0 < i < STREAMS ==> m2.parser.audioStatus[i] != Started
    requires forall i :: 0 <= i < STREAMS ==> m2.parser.videoStatus[i] != Started
    ensures var m3 := Step(m2, OutputAsked(codec));
            Listening(m3) && m3.parser.audioStatus[0] == Started && MixingRuns.CallOf(m2).choice == AudioStream(a.pts)
  {
    LoneSoundPicked(m2.parser);
    MixingRuns.AskIsCall(m2, codec);
    MixingRuns.CallPops(m2, codec);
    assert Popped(m2).0 == PopAudio(m2);
    assert [a][1..] == [];
  }

  lemma QuietFirst(m: Mix, e: Event, rest: seq<Event>, low: nat, last: L.Stamps)
    requires e.MaskSeen? || e.SourceSeen?
    requires L.InOrderRun(Step(m, e), rest, low, last)
    ensures L.InOrderRun(m, [e] + rest, low, last)
    ensures StampsOf(m, [e] + rest) == StampsOf(Step(m, e), rest)
  {
    assert ([e] + rest)[0] == e && ([e] + rest)[1..] == rest;
    L.StampsSplit(m, [e] + rest);
  }

  function StampsOf(m: Mix, es: seq<Event>): seq<nat> {
    L.AudioStamps(MixingRuns.Calls(m, es))
  }

  lemma SoundFirst(m: Mix, a: AudioRaw, rest: seq<Event>, low: nat, last: L.Stamps)
    requires m.parser.audioQueue[0] == [] && low <= a.pts < NO_STAMP
    requires m.parser.audioStatus[0] == Started ==> last[0] <= a.pts
    requires L.InOrderRun(Step(m, AudioParsed(0, [a])), rest, low, last[0 := a.pts])
    ensures L.InOrderRun(m, [AudioParsed(0, [a])] + rest, low, last)
    ensures StampsOf(m, [AudioParsed(0, [a])] + rest) == StampsOf(Step(m, AudioParsed(0, [a])), rest)
  {
    var e := AudioParsed(0, [a]);
    assert ([e] + rest)[0] == e && ([e] + rest)[1..] == rest;
    assert m.parser.audioQueue[0] + [a] == [a];
    L.StampsSplit(m, [e] + rest);
  }

  lemma CallFirst(m: Mix, codec: Codec, rest: seq<Event>, a: nat, low: nat, last: L.Stamps)
    requires !m.crashed && MixingRuns.CallOf(m).choice == AudioStream(a)
    requires L.InOrderRun(Step(m, OutputAsked(codec)), rest, a, last)
    ensures L.InOrderRun(m, [OutputAsked(codec)] + rest, low, last)
    ensures StampsOf(m, [OutputAsked(codec)] + rest) == [a] + StampsOf(Step(m, OutputAsked(codec)), rest)
  {
    var e := OutputAsked(codec);
    assert ([e] + rest)[0] == e && ([e] + rest)[1..] == rest;
    L.StampsSplit(m, [e] + rest);
  }

  lemma SoundAndCall(m: Mix, a: AudioRaw, codec: Codec, rest: seq<Event>, low: nat, last: L.Stamps)
    requires Listening(m) && low <= a.pts < NO_STAMP && (m.parser.audioStatus[0] == Started ==> last[0] <= a.pts)
    requires L.InOrderRun(Step(Step(m, AudioParsed(0, [a])), OutputAsked(codec)), rest, a.pts, last[0 := a.pts])
    ensures var acts := [AudioParsed(0, [a])] + ([OutputAsked(codec)] + rest);
            L.InOrderRun(m, acts, low, last) &&
            StampsOf(m, acts) == [a.pts] + StampsOf(Step(Step(m, AudioParsed(0, [a])), OutputAsked(codec)), rest)
  {
    var m' := Step(m, AudioParsed(0, [a]));
    assert m.parser.audioQueue[0] + [a] == [a];
    TakenMix(m', a, codec);
    CallFirst(m', codec, rest, a.pts, low, last[0 := a.pts]);
    SoundFirst(m, a, [OutputAsked(codec)] + rest, low, last);
  }

  /** A segment with a sound in order, and its output call, may come before any run in order. */
  lemma SoundInOrder(m: Mix, a: AudioRaw, codec: Codec, rest: seq<Event>, low: nat, last: L.Stamps)
    requires Listening(m) && low <= a.pts < NO_STAMP && (m.parser.audioStatus[0] == Started ==> last[0] <= a.pts)
    requires L.InOrderRun(MixAfter(m, a, codec), rest, a.pts, last[0 := a.pts])
    ensures L.InOrderRun(m, SoundThenCall(a, codec) + rest, low, last)
    ensures StampsOf(m, SoundThenCall(a, codec) + rest) == [a.pts] + StampsOf(MixAfter(m, a, codec), rest)
  {
    HeardMix(m, a);
    var m1 := Step(m, MaskSeen(1));
    var r2 := [AudioParsed(0, [a])] + ([OutputAsked(codec)] + rest);
    SoundAndCall(Step(m1, SourceSeen(0, MOBILE)), a, codec, rest, low, last);
    QuietFirst(m1, SourceSeen(0, MOBILE), r2, low, last);
    QuietFirst(m, MaskSeen(1), [SourceSeen(0, MOBILE)] + r2, low, last);
    assert SoundThenCall(a, codec) + rest == [MaskSeen(1)] + ([SourceSeen(0, MOBILE)] + r2);
  }

  /** Any number of segments with a sound each, every one followed by its output call. */
  function Broadcast(sounds: seq<AudioRaw>, codec: Codec): seq<Event> {
    if sounds == [] then [] else SoundThenCall(sounds[0], codec) + Broadcast(sounds[1..], codec)
  }

  function PtsOf(sounds: seq<AudioRaw>): seq<nat> {
    seq(|sounds|, k requires 0 <= k < |sounds| => sounds[k].pts)
  }

  /** Such a run is in order whenever the stamps are, however many masks it has; and it outputs exactly those stamps. */
  lemma {:induction false} BroadcastInOrder(m: Mix, sounds: seq<AudioRaw>, codec: Codec, low: nat, last: L.Stamps)
    requires Listening(m) && L.Ascending(sounds) && forall a :: a in sounds ==>
             low <= a.pts < NO_STAMP && last[0] <= a.pts
    ensures L.InOrderRun(m, Broadcast(sounds, codec), low, last)
    ensures StampsOf(m, Broadcast(sounds, codec)) == PtsOf(sounds)
    decreases |sounds|
  {
    if sounds != [] {
      var a, rest := sounds[0], sounds[1..];
      HeardMix(m, a);
      TakenMix(Step(Step(Step(m, MaskSeen(1)), SourceSeen(0, MOBILE)), AudioParsed(0, [a])), a, codec);
      BroadcastInOrder(MixAfter(m, a, codec), rest, codec, a.pts, last[0 := a.pts]);
      SoundInOrder(m, a, codec, Broadcast(rest, codec), low, last);
      assert PtsOf(sounds) == [a.pts] + PtsOf(rest);
    }
  }

  // ----- from the bytes

  /** What the publisher and main do: a sound stamped `ts`, then an output call. */
  ghost function BroadcastScript(tss: seq<nat>, codec: Codec): seq<V.Action> {
    if tss == [] then [] else [V.Read(WireOf(Sound(tss[0]))), V.Ask(codec)] + BroadcastScript(tss[1..], codec)
  }

  /** The scene once the sound is taken. */
  function Taken(sc: Scene, ts: nat): Scene {
    Heard(sc, Sound(ts)).(sounds := sc.sounds)
  }

  /** The frames the sample clock makes of them. */
  function FramesHeard(sc: Scene, tss: seq<nat>): seq<AudioRaw>
    decreases |tss|
  {
    if tss == [] then [] else [FrameOf(sc, tss[0])] + FramesHeard(Taken(sc, tss[0]), tss[1..])
  }

  lemma TakenShows(h: V.Hub, sc: Scene, metadata: seq<byte>, codec: Codec, x: nat)
    requires Shows(h, sc) && sc.audioOn && !sc.videoOn && sc.sounds == [x] && x < NO_STAMP
    ensures Shows(V.Answer(h, metadata, codec), sc.(sounds := []))
    ensures V.Answer(h, metadata, codec).events == h.events + [OutputAsked(codec)]
  {
    var m := h.mix;
    assert m.parser.videoStatus[0] != Started;
    LoneSoundPicked(m.parser);
    assert Popped(m) == (PopAudio(m), AudioStream(x));
    AnswerIs(h, metadata, codec);
    MixingRuns.CallPops(m, codec);
    assert PopAudio(m).parser.audioQueue[0] == m.parser.audioQueue[0][1..];
  }

  /** One sound and its call. */
  ghost function Round(cx: V.Codecs, metadata: seq<byte>, h: V.Hub, r: Reader<D.Ctl>, ts: nat, codec: Codec)
    : (V.Hub, Reader<D.Ctl>)
  {
    var (h', r') := V.NewInput(cx, h, r, WireOf(Sound(ts)));
    (V.Answer(h', metadata, codec), r')
  }

  lemma RoundServed(planes: Planes, metadata: seq<byte>, h: V.Hub, r: Reader<D.Ctl>, sc: Scene, ts: nat, codec: Codec)
    requires Shows(h, sc) && Idle(r, 0) && sc.sounds == [] && !sc.videoOn && ts < U32
    requires FrameOf(sc, ts).pts < NO_STAMP
    ensures var (h', r') := Round(Libraries({}, planes), metadata, h, r, ts, codec);
            Shows(h', Taken(sc, ts)) && Idle(r', 0) && h'.events == h.events + SoundThenCall(FrameOf(sc, ts), codec)
  {
    SegmentShows({}, planes, h, r, sc, Sound(ts));
    var (h', r') := V.NewInput(Libraries({}, planes), h, r, WireOf(Sound(ts)));
    TakenShows(h', Heard(sc, Sound(ts)), metadata, codec, FrameOf(sc, ts).pts);
  }

  lemma ServeRound(cx: V.Codecs, metadata: seq<byte>, h: V.Hub, r: Reader<D.Ctl>, tss: seq<nat>, codec: Codec)
    requires tss != []
    ensures var (h', r') := Round(cx, metadata, h, r, tss[0], codec);
            V.Serve(cx, metadata, h, r, BroadcastScript(tss, codec)) ==
            V.Serve(cx, metadata, h', r', BroadcastScript(tss[1..], codec))
  {
    var rest := BroadcastScript(tss[1..], codec);
    var todo := [V.Read(WireOf(Sound(tss[0]))), V.Ask(codec)] + rest;
    var (h', r') := V.NewInput(cx, h, r, WireOf(Sound(tss[0])));
    assert todo[1..] == [V.Ask(codec)] + rest && todo[1..][1..] == rest;
    assert V.Serve(cx, metadata, h, r, todo) == V.Serve(cx, metadata, h', r', todo[1..]);
  }

  /** All stamps are proper ones. */
  predicate InRange(sc: Scene, tss: seq<nat>)
    decreases |tss|
  {
    tss == [] || (tss[0] < U32 && FrameOf(sc, tss[0]).pts < NO_STAMP && InRange(Taken(sc, tss[0]), tss[1..]))
  }

  lemma {:induction false} InRangeFrames(sc: Scene, tss: seq<nat>)
    requires InRange(sc, tss)
    ensures forall a :: a in FramesHeard(sc, tss) ==> a.pts < NO_STAMP
    decreases |tss|
  {
    if tss != [] {
      InRangeFrames(Taken(sc, tss[0]), tss[1..]);
    }
  }

  lemma BroadcastFirst(frame: AudioRaw, frames: seq<AudioRaw>, codec: Codec)
    ensures Broadcast([frame] + frames, codec) == SoundThenCall(frame, codec) + Broadcast(frames, codec)
  {
    assert ([frame] + frames)[0] == frame && ([frame] + frames)[1..] == frames;
  }

  lemma {:induction false} BroadcastServed(cx: V.Codecs, planes: Planes, metadata: seq<byte>, h: V.Hub,
                                           r: Reader<D.Ctl>, sc: Scene, tss: seq<nat>, codec: Codec)
    requires cx == Libraries({}, planes)
    requires Shows(h, sc) && Idle(r, 0) && sc.sounds == [] && !sc.videoOn && InRange(sc, tss)
    ensures V.Serve(cx, metadata, h, r, BroadcastScript(tss, codec)).events ==
            h.events + Broadcast(FramesHeard(sc, tss), codec)
    decreases |tss|
  {
    if tss == [] {
      assert h.events + [] == h.events;
    } else {
      var ts, rest := tss[0], tss[1..];
      var sc' := Taken(sc, ts);
      var frame, frames := FrameOf(sc, ts), FramesHeard(sc', rest);
      BroadcastFirst(frame, frames, codec);
      RoundServed(planes, metadata, h, r, sc, ts, codec);
      var (h', r') := Round(cx, metadata, h, r, ts, codec);
      BroadcastServed(cx, planes, metadata, h', r', sc', rest, codec);
      ServeRound(cx, metadata, h, r, tss, codec);
      ConcatAssoc(h.events, SoundThenCall(frame, codec), Broadcast(frames, codec));
    }
  }

  lemma StartListens(frames: seq<AudioRaw>, codec: Codec)
    requires L.Ascending(frames) && forall a :: a in frames ==> a.pts < NO_STAMP
    ensures L.InOrderRun(START, Broadcast(frames, codec), 0, L.NOTHING_QUEUED)
    ensures StampsOf(START, Broadcast(frames, codec)) == PtsOf(frames)
  {
    BroadcastInOrder(START, frames, codec, 0, L.NOTHING_QUEUED);
  }

  /**
   From the first byte, over any number of segments: if the sample clock's stamps are in order,
   the server's run is one that `AudioNeverBack` speaks of, and it outputs exactly those stamps.
   */
  lemma BroadcastsAreInOrder(planes: Planes, metadata: seq<byte>, tss: seq<nat>, codec: Codec)
    requires InRange(OPENING, tss) && L.Ascending(FramesHeard(OPENING, tss))
    ensures var events :=
            V.Serve(Libraries({}, planes), metadata, V.START, D.START, BroadcastScript(tss, codec)).events;
            L.InOrderRun(START, events, 0, L.NOTHING_QUEUED) &&
                StampsOf(START, events) == PtsOf(FramesHeard(OPENING, tss))
  {
    OpeningShows();
    BroadcastServed(Libraries({}, planes), planes, metadata, V.START, D.START, OPENING, tss, codec);
    var frames := FramesHeard(OPENING, tss);
    InRangeFrames(OPENING, tss);
    assert [] + Broadcast(frames, codec) == Broadcast(frames, codec);
    StartListens(frames, codec);
  }
}
