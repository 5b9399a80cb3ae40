/**
 The audio path of the whole server, across access units: between two changes of codec the
 frames queued for a stream, followed by what its resampler still holds, are exactly the
 samples decoded for it, in order; and the sample clock runs on through every change.
 */
module Hearing {
  import opened BitMask
  import opened Bytes
  import opened Chunked
  import opened FlvReading
  import opened Scheduling
  import opened Mixing
  import C = StreamClock
  import D = SegmentInReading
  import H = Histories
  import K = SampleClock
  import R = Reframing
  import V = Server

  // ----- what the units say

  /** Units that share a decoder: the same settings byte, or both Speex. */
  predicate SameCodec(a: nat, b: nat) {
    a == b || (a / 16 == 11 && b / 16 == 11)
  }

  /** The lowest bit of the settings byte; Speex is always mono. */
  predicate IsStereo(c: nat) {
    c / 16 != 11 && c % 2 == 1
  }

  /** The samples decoded for the k-th unit of stream id. */
  function SamplesAt(cx: V.Codecs, id: nat, us: seq<AccessUnit>, k: nat): seq<int>
    requires k < |us|
  {
    if us[k].kind == C.Audio then cx.samples(id, us[..k + 1]) else []
  }

  /** The samples of the units from n on, one after the other. */
  function SamplesFrom(cx: V.Codecs, id: nat, us: seq<AccessUnit>, n: nat): seq<int>
    requires n <= |us|
    decreases |us| - n
  {
    if n == |us| then [] else SamplesAt(cx, id, us, n) + SamplesFrom(cx, id, us, n + 1)
  }

  /** None of these units brings more than the resampler can handle. */
  predicate ManageableFrom(cx: V.Codecs, id: nat, us: seq<AccessUnit>, n: nat, cnt: nat)
    requires n <= |us|
    decreases |us| - n
  {
    n == |us| ||
    var size := |SamplesAt(cx, id, us, n)|;
    R.Manageable(cnt, size) && ManageableFrom(cx, id, us, n + 1, R.NextCount(cnt, size))
  }

  /** The stamps of the units that complete a frame of 1152 samples, starting with cnt of them held. */
  function StampsFrom(cx: V.Codecs, id: nat, us: seq<AccessUnit>, n: nat, cnt: nat): seq<nat>
    requires n <= |us|
    decreases |us| - n
  {
    if n == |us| then []
    else
      var size := |SamplesAt(cx, id, us, n)|;
      (if cnt + size >= 1152 then [us[n].pts] else []) + StampsFrom(cx, id, us, n + 1, R.NextCount(cnt, size))
  }

  /** All audio units from n on share a decoder with settings c. */
  ghost predicate OneCodec(us: seq<AccessUnit>, n: nat, c: nat) {
    forall k :: n <= k < |us| && us[k].kind == C.Audio ==> SameCodec(c, us[k].ctype)
  }

  // ----- what the server holds

  /** No decoder yet, or one for c, with less than a frame held and none waiting. */
  ghost predicate Ready(e: V.Ear, c: nat) {
    e.setting == V.NO_SETTING ||
    (e.setting < 256 && SameCodec(e.setting, c) && R.Valid(e.resampler) && e.resampler.list == [])
  }

  function HeldCount(e: V.Ear): nat {
    if e.setting == V.NO_SETTING then 0 else e.resampler.cnt
  }

  function Residual(e: V.Ear): seq<int> {
    if e.setting == V.NO_SETTING || e.resampler.cnt > |e.resampler.rem| then [] else e.resampler.rem[..e.resampler.cnt]
  }

  /** Queued frames, as made of frames of samples and stamped by the sample clock. */
  ghost predicate MadeOf(cx: V.Codecs, stereo: bool, clock: K.Mapper, ins: seq<nat>, fs: seq<seq<int>>,
                         queued: seq<AudioRaw>) {
    |fs| == |ins| == |queued| &&
    forall k :: 0 <= k < |fs| ==>
      |fs[k]| == 1152 && queued[k] == AudioRaw(K.StampAt(clock, ins, k), stereo, cx.interleave(stereo, fs[k]))
  }

  // ----- one unit

  /** The decoder is kept for a unit of the same codec, and new for any other; the clock is the stream's either way. */
  lemma EarExactly(e: V.Ear, c: nat)
    requires c < 256 && (e.setting == V.NO_SETTING || e.setting < 256)
    ensures var e' := V.EarFor(e, c);
            if e.setting != V.NO_SETTING && SameCodec(e.setting, c) then e' == e
            else e'.setting == c && e'.clock == e.clock && R.Valid(e'.resampler) && e'.resampler.cnt == 0 &&
                 e'.resampler.list == []
    ensures V.IsStereo(c) <==> IsStereo(c)
  {
  }

  lemma CodecsAlike(a: nat, b: nat, c: nat)
    requires SameCodec(a, b)
    ensures SameCodec(b, a) && (SameCodec(b, c) ==> SameCodec(a, c)) && (IsStereo(a) <==> IsStereo(b))
  {
  }

  /** What the frames of one call are stamped with. */
  lemma FewStamped(cx: V.Codecs, clock: K.Mapper, stereo: bool, list: seq<seq<int>>, pts: nat)
    requires |list| <= 1 && forall k :: 0 <= k < |list| ==> |list[k]| == 1152
    ensures var ins := seq(|list|, _ => pts);
            V.StampFrames(cx, clock, stereo, R.Drained(list), pts).1 == K.After(clock, ins) &&
            MadeOf(cx, stereo, clock, ins, list, V.StampFrames(cx, clock, stereo, R.Drained(list), pts).0)
  {
    R.OneDrained(list);
    var ins := seq(|list|, _ => pts);
    if list == [] {
      assert ins == [];
    } else {
      var frame := list[0];
      assert list == [frame] && ins == [pts];
      assert list[1..] == [] && ins[1..] == [] && ins[..0] == [];
      var a := AudioRaw(K.Stamp(clock, pts), stereo, cx.interleave(stereo, frame));
      assert V.StampFrames(cx, K.Next(clock, pts), stereo, list[1..], pts) == ([], K.Next(clock, pts));
      assert [a] + [] == [a];
      assert V.StampFrames(cx, clock, stereo, list, pts) == ([a] + [], K.Next(clock, pts));
      assert K.After(K.Next(clock, pts), ins[1..]) == K.Next(clock, pts);
    }
  }

  /**
   One audio unit: with the decoder it finds or gets, the frames it completes, followed by what
   is then held, are what was held followed by its samples.
   */
  lemma UnitHeard(cx: V.Codecs, h: V.Hub, id: nat, au: AccessUnit) returns (fs: seq<seq<int>>, frames: seq<AudioRaw>)
    requires id < STREAMS && !h.mix.crashed && au.ctype < 256
    requires h.stream[id].ear.setting == V.NO_SETTING || Ready(h.stream[id].ear, h.stream[id].ear.setting)
    requires var e := V.EarFor(h.stream[id].ear, au.ctype);
             R.Manageable(e.resampler.cnt, |cx.samples(id, h.stream[id].units + [au])|)
    ensures var st, st' := h.stream[id], V.HearUnit(cx, h, id, au).stream[id];
            var e, samples := V.EarFor(st.ear, au.ctype), cx.samples(id, st.units + [au]);
            var ins := if e.resampler.cnt + |samples| >= 1152 then [au.pts] else [];
            st'.units == st.units + [au] && st'.ear.setting == e.setting && Ready(st'.ear, e.setting) &&
            st'.ear.resampler.cnt == R.NextCount(e.resampler.cnt, |samples|) &&
            st'.ear.clock == K.After(e.clock, ins) &&
            (forall j :: 0 <= j < STREAMS && j != id ==> V.HearUnit(cx, h, id, au).stream[j] == h.stream[j]) &&
            Flatten(fs) + Residual(st'.ear) == Residual(e) + samples &&
            V.HearUnit(cx, h, id, au).events == h.events + [AudioParsed(id, frames)] &&
            MadeOf(cx, IsStereo(e.setting), e.clock, ins, fs, frames)
  {
    var st := h.stream[id];
    EarExactly(st.ear, au.ctype);
    var e := V.EarFor(st.ear, au.ctype);
    EarExactly(st.ear, e.setting);
    var r;
    fs, frames, r := EarHears(cx, e, cx.samples(id, st.units + [au]), au.pts);
    HubHeard(cx, h, id, au, r);
  }

  /** What a decoder's resampler and clock make of a unit's samples. */
  lemma EarHears(cx: V.Codecs, e: V.Ear, samples: seq<int>, pts: nat)
    returns (fs: seq<seq<int>>, frames: seq<AudioRaw>, r: R.Resampler)
    requires e.setting < 256 && R.Valid(e.resampler) && e.resampler.list == []
    requires R.Manageable(e.resampler.cnt, |samples|)
    ensures var ins := if e.resampler.cnt + |samples| >= 1152 then [pts] else [];
            var e' := V.Ear(e.setting, r.(list := []), K.After(e.clock, ins));
            R.Resampled(e.resampler, |samples|, 0, samples) == Some(r) &&
            (frames, e'.clock) == V.StampFrames(cx, e.clock, V.IsStereo(e.setting), R.Drained(r.list), pts) &&
            Ready(e', e.setting) && e'.resampler.cnt == R.NextCount(e.resampler.cnt, |samples|) &&
            Flatten(fs) + Residual(e') == Residual(e) + samples &&
            MadeOf(cx, IsStereo(e.setting), e.clock, ins, fs, frames)
  {
    ListSize(e.resampler, samples);
    r := R.Resampled(e.resampler, |samples|, 0, samples).value;
    fs := r.list;
    FewStamped(cx, e.clock, IsStereo(e.setting), fs, pts);
    frames := V.StampFrames(cx, e.clock, IsStereo(e.setting), R.Drained(fs), pts).0;
    var ins := seq(|fs|, _ => pts);
    assert ins == if e.resampler.cnt + |samples| >= 1152 then [pts] else [];
  }

  lemma ListSize(r: R.Resampler, out: seq<int>)
    requires R.Valid(r) && R.Manageable(r.cnt, |out|) && r.list == []
    ensures R.Resampled(r, |out|, 0, out).Some?
    ensures var r' := R.Resampled(r, |out|, 0, out).value;
            |r'.list| == (if r.cnt + |out| >= 1152 then 1 else 0) && R.Valid(r') &&
            r'.cnt == R.NextCount(r.cnt, |out|) && (forall k :: 0 <= k < |r'.list| ==> |r'.list[k]| == 1152) &&
            Flatten(r'.list) + r'.rem[..r'.cnt] == r.rem[..r.cnt] + out
  {
    R.ManageableConserves(r, out);
    var r' := R.Resampled(r, |out|, 0, out).value;
    assert Flatten(r.list) == [];
    assert R.Held(r) == r.rem[..r.cnt];
    if r.cnt + |out| >= 1152 {
      R.AfterFrame(r, out);
    }
  }

  lemma HubHeard(cx: V.Codecs, h: V.Hub, id: nat, au: AccessUnit, r: R.Resampler)
    requires id < STREAMS && !h.mix.crashed
    requires var e := V.EarFor(h.stream[id].ear, au.ctype); var samples := cx.samples(id, h.stream[id].units + [au]);
             R.FRAME <= |e.resampler.rem| && R.Resampled(e.resampler, |samples|, 0, samples) == Some(r)
    ensures var st := h.stream[id]; var e := V.EarFor(st.ear, au.ctype);
            var (frames, clock) := V.StampFrames(cx, e.clock, V.IsStereo(e.setting), R.Drained(r.list), au.pts);
            var h' := V.HearUnit(cx, h, id, au);
            h'.stream ==
                h.stream[id := V.Stream(st.memory, V.Ear(e.setting, r.(list := []), clock), st.units + [au])] &&
            h'.events == h.events + [AudioParsed(id, frames)]
  {
  }

  // ----- the server event by event

  /** What the server goes through: an event its demultiplexer logs, or an output call. */
  datatype Stride = Logged(e: D.Event) | Called(codec: Codec)

  ghost function Take(cx: V.Codecs, metadata: seq<byte>, h: V.Hub, w: Stride): V.Hub {
    match w
    case Logged(e) => V.Handle(cx, h, e)
    case Called(codec) => V.Answer(h, metadata, codec)
  }

  ghost function Walk(cx: V.Codecs, metadata: seq<byte>, h: V.Hub, ws: seq<Stride>): V.Hub
    decreases |ws|
  {
    if ws == [] then h else Walk(cx, metadata, Take(cx, metadata, h, ws[0]), ws[1..])
  }

  function Logs(es: seq<D.Event>): (ws: seq<Stride>)
    ensures |ws| == |es|
  {
    seq(|es|, k requires 0 <= k < |es| => Logged(es[k]))
  }

  ghost function StridesOf(r: Reader<D.Ctl>, todo: seq<V.Action>): seq<Stride>
    decreases |todo|
  {
    if todo == [] then []
    else match todo[0]
      case Read(data) =>
        V.LogGrows(r, data);
        var r' := Feed(D.Sgi, r, data);
        Logs(r'.ctl.log[|r.ctl.log|..]) + StridesOf(r', todo[1..])
      case Ask(codec) => [Called(codec)] + StridesOf(r, todo[1..])
  }

  lemma {:induction false} WalkLogs(cx: V.Codecs, metadata: seq<byte>, h: V.Hub, es: seq<D.Event>, ws: seq<Stride>)
    ensures Walk(cx, metadata, h, Logs(es) + ws) == Walk(cx, metadata, V.Absorb(cx, h, es), ws)
    decreases |es|
  {
    if es == [] {
      assert Logs(es) + ws == ws;
    } else {
      var all := Logs(es) + ws;
      assert all[0] == Logged(es[0]) && all[1..] == Logs(es[1..]) + ws;
      WalkLogs(cx, metadata, V.Handle(cx, h, es[0]), es[1..], ws);
    }
  }

  lemma {:induction false} ServeIsWalk(cx: V.Codecs, metadata: seq<byte>, h: V.Hub, r: Reader<D.Ctl>,
                                     todo: seq<V.Action>)
    ensures V.Serve(cx, metadata, h, r, todo) == Walk(cx, metadata, h, StridesOf(r, todo))
    decreases |todo|
  {
    if todo != [] {
      match todo[0]
      case Read(data) =>
        V.LogGrows(r, data);
        var r' := Feed(D.Sgi, r, data);
        var es := r'.ctl.log[|r.ctl.log|..];
        ServeIsWalk(cx, metadata, V.Absorb(cx, h, es), r', todo[1..]);
        WalkLogs(cx, metadata, h, es, StridesOf(r', todo[1..]));
      case Ask(codec) =>
        var rest := StridesOf(r, todo[1..]);
        assert ([Called(codec)] + rest)[0] == Called(codec) && ([Called(codec)] + rest)[1..] == rest;
        ServeIsWalk(cx, metadata, V.Answer(h, metadata, codec), r, todo[1..]);
    }
  }

  // ----- runs

  /** From h to h', stream id has heard its new units from the n-th on, all of one codec. */
  ghost predicate HeardOn(cx: V.Codecs, h: V.Hub, h': V.Hub, id: nat, c: nat, fs: seq<seq<int>>, queued: seq<AudioRaw>)
    requires id < STREAMS && |h.stream[id].units| <= |h'.stream[id].units|
  {
    var e, e', us, n := h.stream[id].ear, h'.stream[id].ear, h'.stream[id].units, |h.stream[id].units|;
    var ins := StampsFrom(cx, id, us, n, HeldCount(e));
    Ready(e', c) && H.Frames(h'.events, id) == H.Frames(h.events, id) + queued &&
    MadeOf(cx, IsStereo(c), e.clock, ins, fs, queued) && e'.clock == K.After(e.clock, ins) &&
    Flatten(fs) + Residual(e') == Residual(e) + SamplesFrom(cx, id, us, n)
  }

  /** What handling one event does to a stream: nothing, or one more unit, unheard if it is video. */
  lemma EventOnStream(cx: V.Codecs, h: V.Hub, e: D.Event, id: nat)
    requires id < STREAMS && !V.Handle(cx, h, e).mix.crashed
    ensures var st, h' := h.stream[id], V.Handle(cx, h, e);
            (h'.stream[id].units == st.units && h'.stream[id].ear == st.ear &&
             H.Frames(h'.events, id) == H.Frames(h.events, id)) ||
            (exists au: AccessUnit :: au.kind == C.Video && h'.stream[id].units == st.units + [au] &&
               h'.stream[id].ear == st.ear && H.Frames(h'.events, id) == H.Frames(h.events, id)) ||
            (exists h1: V.Hub, au: AccessUnit :: IsHeard(cx, h, h', id, h1, au))
  {
    var h' := V.Handle(cx, h, e);
    if e.TagParsed? && e.id < STREAMS && |e.tag.data| >= 11 && !h.mix.crashed {
      TagOnStream(cx, h, e.id, e.tag, id);
    } else if |h'.events| > |h.events| {
      H.OneMore(h.events, h'.events[|h.events|], id);
      assert H.Frames(h.events, id) + [] == H.Frames(h.events, id);
    }
  }

  /**
   The unit is an audio unit of stream id, heard by the server h1, which differs from h in what
   it remembers of tags only.
   */
  ghost predicate IsHeard(cx: V.Codecs, h: V.Hub, h': V.Hub, id: nat, h1: V.Hub, au: AccessUnit)
    requires id < STREAMS
  {
    au.kind == C.Audio && au.ctype < 256 && h' == V.HearUnit(cx, h1, id, au) && !h1.mix.crashed &&
    h1.stream[id].ear == h.stream[id].ear && h1.stream[id].units == h.stream[id].units && h1.events == h.events
  }

  lemma TagOnStream(cx: V.Codecs, h: V.Hub, at: nat, tag: RawTag, id: nat)
    requires id < STREAMS && at < STREAMS && |tag.data| >= 11 && !h.mix.crashed
    requires !V.HandleTag(cx, h, at, tag).mix.crashed
    ensures var st, h' := h.stream[id], V.HandleTag(cx, h, at, tag);
            (h'.stream[id].units == st.units && h'.stream[id].ear == st.ear &&
             H.Frames(h'.events, id) == H.Frames(h.events, id)) ||
            (exists au: AccessUnit :: au.kind == C.Video && h'.stream[id].units == st.units + [au] &&
               h'.stream[id].ear == st.ear && H.Frames(h'.events, id) == H.Frames(h.events, id)) ||
            (exists h1: V.Hub, au: AccessUnit :: IsHeard(cx, h, h', id, h1, au))
  {
    var h' := V.HandleTag(cx, h, at, tag);
    var (memory, outcome) := ParseFrame(h.stream[at].memory, tag, h.mix.parser.globalAudio);
    var h1 := V.With(h, at, h.stream[at].(memory := memory));
    if outcome.Delivered? {
      var au := outcome.au;
      DeliveredKinds(h.stream[at].memory, tag, h.mix.parser.globalAudio);
      if au.kind == C.Video {
        SeenOnStream(cx, h1, at, au, id);
      } else if at == id {
        assert IsHeard(cx, h, h', id, h1, au);
      } else {
        HeardElsewhere(cx, h1, at, au, id);
      }
    }
  }

  lemma SeenOnStream(cx: V.Codecs, h: V.Hub, at: nat, au: AccessUnit, id: nat)
    requires id < STREAMS && at < STREAMS
    ensures var h' := V.SeeUnit(cx, h, at, au);
            h'.stream[id].ear == h.stream[id].ear && H.Frames(h'.events, id) == H.Frames(h.events, id) &&
            h'.stream[id].units == if at == id then h.stream[id].units + [au] else h.stream[id].units
  {
    var h' := V.SeeUnit(cx, h, at, au);
    H.OneMore(h.events, h'.events[|h.events|], id);
    assert H.Frames(h.events, id) + [] == H.Frames(h.events, id);
  }

  lemma HeardElsewhere(cx: V.Codecs, h: V.Hub, at: nat, au: AccessUnit, id: nat)
    requires id < STREAMS && at < STREAMS && id != at && !V.HearUnit(cx, h, at, au).mix.crashed
    ensures var h' := V.HearUnit(cx, h, at, au);
            h'.stream[id] == h.stream[id] && H.Frames(h'.events, id) == H.Frames(h.events, id)
  {
    var h' := V.HearUnit(cx, h, at, au);
    if h'.events != h.events {
      H.OneMore(h.events, h'.events[|h.events|], id);
      assert H.Frames(h.events, id) + [] == H.Frames(h.events, id);
    }
  }

  lemma DeliveredKinds(m: Memory, t: RawTag, globalAudio: nat)
    requires |t.data| >= 11 && ParseFrame(m, t, globalAudio).1.Delivered?
    ensures var au := ParseFrame(m, t, globalAudio).1.au; au.kind == C.Video || (au.kind == C.Audio && au.ctype < 256)
  {
  }

  /** A call hears nothing. */
  lemma AnswerOnStream(h: V.Hub, metadata: seq<byte>, codec: Codec, id: nat)
    requires id < STREAMS
    ensures var h' := V.Answer(h, metadata, codec);
            h'.stream == h.stream && H.Frames(h'.events, id) == H.Frames(h.events, id) &&
            (h.mix.crashed ==> h'.mix.crashed)
  {
    if !h.mix.crashed {
      H.OneMore(h.events, OutputAsked(codec), id);
      assert H.Frames(h.events, id) + [] == H.Frames(h.events, id);
    }
  }

  /** The same for a stride. */
  lemma StrideOnStream(cx: V.Codecs, metadata: seq<byte>, h: V.Hub, w: Stride, id: nat)
    requires id < STREAMS && !Take(cx, metadata, h, w).mix.crashed
    ensures var st, h' := h.stream[id], Take(cx, metadata, h, w);
            (h'.stream[id].units == st.units && h'.stream[id].ear == st.ear &&
             H.Frames(h'.events, id) == H.Frames(h.events, id)) ||
            (exists au: AccessUnit :: au.kind == C.Video && h'.stream[id].units == st.units + [au] &&
               h'.stream[id].ear == st.ear && H.Frames(h'.events, id) == H.Frames(h.events, id)) ||
            (exists h1: V.Hub, au: AccessUnit :: IsHeard(cx, h, h', id, h1, au))
  {
    match w
    case Logged(e) => EventOnStream(cx, h, e, id);
    case Called(codec) => AnswerOnStream(h, metadata, codec, id);
  }

  lemma {:induction false} UnitsGrow(cx: V.Codecs, metadata: seq<byte>, h: V.Hub, ws: seq<Stride>, id: nat)
    requires id < STREAMS && !Walk(cx, metadata, h, ws).mix.crashed
    ensures h.stream[id].units <= Walk(cx, metadata, h, ws).stream[id].units
    ensures ws != [] ==> !Take(cx, metadata, h, ws[0]).mix.crashed
    decreases |ws|
  {
    if ws != [] {
      var h1 := Take(cx, metadata, h, ws[0]);
      if h1.mix.crashed {
        CrashStays(cx, metadata, h1, ws[1..]);
      }
      UnitsGrow(cx, metadata, h1, ws[1..], id);
      StrideOnStream(cx, metadata, h, ws[0], id);
      OneUnitMore(cx, h, h1, id);
    }
  }

  lemma OneUnitMore(cx: V.Codecs, h: V.Hub, h': V.Hub, id: nat)
    requires id < STREAMS && !h'.mix.crashed
    requires h'.stream[id].units == h.stream[id].units ||
             (exists au: AccessUnit :: h'.stream[id].units == h.stream[id].units + [au]) ||
             (exists h1: V.Hub, au: AccessUnit :: IsHeard(cx, h, h', id, h1, au))
    ensures h.stream[id].units <= h'.stream[id].units
  {
    if h1: V.Hub, au: AccessUnit :| IsHeard(cx, h, h', id, h1, au) {
      HeardUnits(cx, h1, id, au);
    }
  }

  lemma HeardUnits(cx: V.Codecs, h: V.Hub, id: nat, au: AccessUnit)
    requires id < STREAMS
    ensures var h' := V.HearUnit(cx, h, id, au); h.stream[id].units <= h'.stream[id].units
  {
  }

  lemma {:induction false} CrashStays(cx: V.Codecs, metadata: seq<byte>, h: V.Hub, ws: seq<Stride>)
    requires h.mix.crashed
    ensures Walk(cx, metadata, h, ws).mix.crashed
    decreases |ws|
  {
    if ws != [] {
      CrashStays(cx, metadata, Take(cx, metadata, h, ws[0]), ws[1..]);
    }
  }

  // ----- putting runs together

  lemma StampsJoin(clock: K.Mapper, x: nat, ins: seq<nat>)
    ensures K.After(clock, [x] + ins) == K.After(K.Next(clock, x), ins)
    ensures K.StampAt(clock, [x] + ins, 0) == K.Stamp(clock, x)
    ensures forall k :: 0 <= k < |ins| ==> K.StampAt(clock, [x] + ins, k + 1) == K.StampAt(K.Next(clock, x), ins, k)
  {
    var all := [x] + ins;
    assert all[1..] == ins && all[..0] == [];
    forall k | 0 <= k < |ins|
      ensures K.StampAt(clock, all, k + 1) == K.StampAt(K.Next(clock, x), ins, k)
    {
      assert all[..k + 1][1..] == ins[..k];
    }
  }

  /** One more frame in front. */
  lemma MadeJoin(cx: V.Codecs, stereo: bool, clock: K.Mapper, x: nat, ins: seq<nat>, f: seq<int>, fs: seq<seq<int>>,
                 a: AudioRaw, queued: seq<AudioRaw>)
    requires MadeOf(cx, stereo, clock, [x], [f], [a]) && MadeOf(cx, stereo, K.Next(clock, x), ins, fs, queued)
    ensures MadeOf(cx, stereo, clock, [x] + ins, [f] + fs, [a] + queued)
  {
    StampsJoin(clock, x, ins);
    assert [x][..0] == [] && K.StampAt(clock, [x], 0) == K.Stamp(clock, x);
    var fs', qs := [f] + fs, [a] + queued;
    forall k | 0 <= k < |fs'|
      ensures |fs'[k]| == 1152 &&
              qs[k] == AudioRaw(K.StampAt(clock, [x] + ins, k), stereo, cx.interleave(stereo, fs'[k]))
    {
      if k > 0 {
        assert fs'[k] == fs[k - 1] && qs[k] == queued[k - 1];
        assert K.StampAt(clock, [x] + ins, k - 1 + 1) == K.StampAt(K.Next(clock, x), ins, k - 1);
      } else {
        assert [f][0] == f && [a][0] == a;
      }
    }
  }

  /** A unit that is not heard changes nothing of the account. */
  lemma UnheardFirst(cx: V.Codecs, us: seq<AccessUnit>, id: nat, n: nat, cnt: nat)
    requires n < |us| && us[n].kind != C.Audio && cnt < 1152
    ensures SamplesFrom(cx, id, us, n) == SamplesFrom(cx, id, us, n + 1)
    ensures StampsFrom(cx, id, us, n, cnt) == StampsFrom(cx, id, us, n + 1, cnt)
    ensures ManageableFrom(cx, id, us, n, cnt) ==> ManageableFrom(cx, id, us, n + 1, cnt)
  {
    assert [] + SamplesFrom(cx, id, us, n + 1) == SamplesFrom(cx, id, us, n + 1);
    assert [] + StampsFrom(cx, id, us, n + 1, cnt) == StampsFrom(cx, id, us, n + 1, cnt);
  }

  lemma EarFits(e: V.Ear, c: nat, ctype: nat)
    requires Ready(e, c) && ctype < 256 && SameCodec(c, ctype)
    ensures var e1 := V.EarFor(e, ctype);
            Ready(e1, c) && e1.setting != V.NO_SETTING && e1.clock == e.clock && HeldCount(e1) == HeldCount(e) &&
            Residual(e1) == Residual(e) && (IsStereo(e1.setting) <==> IsStereo(c)) &&
            (e.setting == V.NO_SETTING || Ready(e, e.setting))
  {
    EarExactly(e, ctype);
    CodecsAlike(c, ctype, ctype);
    if e.setting != V.NO_SETTING {
      CodecsAlike(e.setting, c, ctype);
    }
  }

  /** The first audio unit, then the rest. */
  lemma HeardFirst(cx: V.Codecs, h: V.Hub, h1: V.Hub, h': V.Hub, id: nat, c: nat, au: AccessUnit, mid: V.Hub,
                   fs2: seq<seq<int>>, queued2: seq<AudioRaw>) returns (fs: seq<seq<int>>, queued: seq<AudioRaw>)
    requires id < STREAMS && c < 256 && IsHeard(cx, h, h1, id, mid, au) && Ready(h.stream[id].ear, c) && !h1.mix.crashed
    requires h1.stream[id].units == h.stream[id].units + [au] && h1.stream[id].units <= h'.stream[id].units
    requires SameCodec(c, au.ctype)
    requires ManageableFrom(cx, id, h'.stream[id].units, |h.stream[id].units|, HeldCount(h.stream[id].ear))
    requires HeardOn(cx, h1, h', id, c, fs2, queued2)
    ensures HeardOn(cx, h, h', id, c, fs, queued)
  {
    var fs1, frames, ins, samples := FirstHeard(cx, h, h1, h', id, c, au, mid);
    fs, queued := fs1 + fs2, frames + queued2;
    Joined(cx, id, c, h, h1, h', fs1, frames, ins, samples, fs2, queued2);
  }

  lemma FirstHeard(cx: V.Codecs, h: V.Hub, h1: V.Hub, h': V.Hub, id: nat, c: nat, au: AccessUnit, mid: V.Hub)
    returns (fs: seq<seq<int>>, frames: seq<AudioRaw>, ins: seq<nat>, samples: seq<int>)
    requires id < STREAMS && c < 256 && IsHeard(cx, h, h1, id, mid, au) && Ready(h.stream[id].ear, c) && !h1.mix.crashed
    requires h1.stream[id].units == h.stream[id].units + [au] && h1.stream[id].units <= h'.stream[id].units
    requires SameCodec(c, au.ctype)
    requires ManageableFrom(cx, id, h'.stream[id].units, |h.stream[id].units|, HeldCount(h.stream[id].ear))
    ensures OneHeard(cx, id, c, h, h1, h', fs, frames, ins, samples) && Ready(h1.stream[id].ear, c)
  {
    var st, us, n := h.stream[id], h'.stream[id].units, |h.stream[id].units|;
    var e1 := V.EarFor(st.ear, au.ctype);
    EarFits(st.ear, c, au.ctype);
    assert us[..n + 1] == st.units + [au] && us[n] == au;
    samples := cx.samples(id, st.units + [au]);
    assert SamplesAt(cx, id, us, n) == samples;
    fs, frames := UnitHeard(cx, mid, id, au);
    ins := if e1.resampler.cnt + |samples| >= 1152 then [au.pts] else [];
    H.OneMore(mid.events, AudioParsed(id, frames), id);
  }

  lemma Joined(cx: V.Codecs, id: nat, c: nat, h: V.Hub, h1: V.Hub, h': V.Hub, fs1: seq<seq<int>>, frames: seq<AudioRaw>,
               ins: seq<nat>, samples: seq<int>, fs2: seq<seq<int>>, queued2: seq<AudioRaw>)
    requires id < STREAMS && |h1.stream[id].units| == |h.stream[id].units| + 1 <= |h'.stream[id].units|
    ensures OneHeard(cx, id, c, h, h1, h', fs1, frames, ins, samples) && HeardOn(cx, h1, h', id, c, fs2, queued2) ==>
              HeardOn(cx, h, h', id, c, fs1 + fs2, frames + queued2)
  {
    if OneHeard(cx, id, c, h, h1, h', fs1, frames, ins, samples) && HeardOn(cx, h1, h', id, c, fs2, queued2) {
      var e, e1, e', us, n :=
          h.stream[id].ear, h1.stream[id].ear, h'.stream[id].ear, h'.stream[id].units, |h.stream[id].units|;
      var ins2, rest := StampsFrom(cx, id, us, n + 1, HeldCount(e1)), SamplesFrom(cx, id, us, n + 1);
      SamplesJoin(Flatten(fs1), Residual(e1), Residual(e), samples, Flatten(fs2), Residual(e'), rest);
      FlattenConcat(fs1, fs2);
      ConcatAssoc(H.Frames(h.events, id), frames, queued2);
      FewJoin(cx, IsStereo(c), e.clock, ins, ins2, fs1, fs2, frames, queued2);
      assert StampsFrom(cx, id, us, n, HeldCount(e)) == ins + ins2;
      assert SamplesFrom(cx, id, us, n) == samples + rest;
    }
  }

  /** From h to h1 one unit of h' is heard: these samples, completing these frames. */
  ghost predicate OneHeard(cx: V.Codecs, id: nat, c: nat, h: V.Hub, h1: V.Hub, h': V.Hub, fs: seq<seq<int>>,
                           frames: seq<AudioRaw>, ins: seq<nat>, samples: seq<int>)
    requires id < STREAMS && |h.stream[id].units| < |h'.stream[id].units|
  {
    var e, e1, us, n := h.stream[id].ear, h1.stream[id].ear, h'.stream[id].units, |h.stream[id].units|;
    Flatten(fs) + Residual(e1) == Residual(e) + samples && e1.clock == K.After(e.clock, ins) &&
    HeldCount(e1) == R.NextCount(HeldCount(e), |samples|) && MadeOf(cx, IsStereo(c), e.clock, ins, fs, frames) &&
    H.Frames(h1.events, id) == H.Frames(h.events, id) + frames && SamplesAt(cx, id, us, n) == samples &&
    ins == if HeldCount(e) + |samples| >= 1152 then [us[n].pts] else []
  }

  lemma SamplesJoin(f1: seq<int>, mid: seq<int>, before: seq<int>, s1: seq<int>, f2: seq<int>, after: seq<int>,
      s2: seq<int>)
    requires f1 + mid == before + s1 && f2 + after == mid + s2
    ensures (f1 + f2) + after == before + (s1 + s2)
  {
    ConcatAssoc(f1, f2, after);
    ConcatAssoc(f1, mid, s2);
    ConcatAssoc(before, s1, s2);
  }

  /** At most one frame in front. */
  lemma FewJoin(cx: V.Codecs, stereo: bool, clock: K.Mapper, ins1: seq<nat>, ins2: seq<nat>, fs1: seq<seq<int>>,
                fs2: seq<seq<int>>, q1: seq<AudioRaw>, q2: seq<AudioRaw>)
    requires |ins1| <= 1 && MadeOf(cx, stereo, clock, ins1, fs1, q1)
    requires MadeOf(cx, stereo, K.After(clock, ins1), ins2, fs2, q2)
    ensures MadeOf(cx, stereo, clock, ins1 + ins2, fs1 + fs2, q1 + q2)
    ensures K.After(clock, ins1 + ins2) == K.After(K.After(clock, ins1), ins2)
  {
    if ins1 == [] {
      assert fs1 + fs2 == fs2 && q1 + q2 == q2 && ins1 + ins2 == ins2;
    } else {
      assert ins1[1..] == [] && K.After(clock, ins1) == K.Next(clock, ins1[0]);
      assert fs1 == [fs1[0]] && q1 == [q1[0]] && ins1 == [ins1[0]];
      MadeJoin(cx, stereo, clock, ins1[0], ins2, fs1[0], fs2, q1[0], q2);
      StampsJoin(clock, ins1[0], ins2);
    }
  }

  /** What may be asked of the units still to come. */
  ghost predicate Smooth(cx: V.Codecs, h: V.Hub, us: seq<AccessUnit>, id: nat, c: nat)
    requires id < STREAMS
  {
    var e, n := h.stream[id].ear, |h.stream[id].units|;
    n <= |us| && Ready(e, c) && OneCodec(us, n, c) && ManageableFrom(cx, id, us, n, HeldCount(e))
  }

  lemma NothingHeard(cx: V.Codecs, h: V.Hub, id: nat, c: nat)
    requires id < STREAMS && Ready(h.stream[id].ear, c)
    ensures HeardOn(cx, h, h, id, c, [], [])
  {
    assert H.Frames(h.events, id) + [] == H.Frames(h.events, id);
    var e := h.stream[id].ear;
    assert Residual(e) + [] == Residual(e) && [] + Residual(e) == Residual(e) && Flatten<int>([]) == [];
  }

  /** After a step that is not heard, what is heard from there on is what is heard from before it. */
  lemma QuietFirst(cx: V.Codecs, h: V.Hub, h1: V.Hub, h': V.Hub, id: nat, c: nat)
    requires id < STREAMS && Smooth(cx, h, h'.stream[id].units, id, c) && h1.stream[id].units <= h'.stream[id].units
    requires h1.stream[id].ear == h.stream[id].ear && H.Frames(h1.events, id) == H.Frames(h.events, id)
    requires h1.stream[id].units == h.stream[id].units ||
             exists au: AccessUnit :: au.kind == C.Video && h1.stream[id].units == h.stream[id].units + [au]
    ensures Smooth(cx, h1, h'.stream[id].units, id, c)
    ensures forall fs, queued :: HeardOn(cx, h1, h', id, c, fs, queued) ==> HeardOn(cx, h, h', id, c, fs, queued)
  {
    var us, n, n1, cnt := h'.stream[id].units, |h.stream[id].units|, |h1.stream[id].units|, HeldCount(h.stream[id].ear);
    if n1 != n {
      var au: AccessUnit :| au.kind == C.Video && h1.stream[id].units == h.stream[id].units + [au];
      assert us[n] == au;
      UnheardFirst(cx, us, id, n, cnt);
    }
    assert StampsFrom(cx, id, us, n, cnt) == StampsFrom(cx, id, us, n1, cnt);
    assert SamplesFrom(cx, id, us, n) == SamplesFrom(cx, id, us, n1);
    forall fs, queued | HeardOn(cx, h1, h', id, c, fs, queued)
      ensures HeardOn(cx, h, h', id, c, fs, queued)
    {
    }
  }

  lemma SmoothOn(cx: V.Codecs, h: V.Hub, h1: V.Hub, h': V.Hub, id: nat, c: nat, au: AccessUnit, mid: V.Hub)
    requires id < STREAMS && c < 256 && IsHeard(cx, h, h1, id, mid, au) && !h1.mix.crashed
    requires Smooth(cx, h, h'.stream[id].units, id, c) && h1.stream[id].units <= h'.stream[id].units
    ensures h1.stream[id].units == h.stream[id].units + [au] && SameCodec(c, au.ctype)
    ensures Smooth(cx, h1, h'.stream[id].units, id, c)
  {
    var st, us, n := h.stream[id], h'.stream[id].units, |h.stream[id].units|;
    HeardAppends(cx, mid, id, au);
    assert us[n] == au && us[..n + 1] == st.units + [au];
    EarFits(st.ear, c, au.ctype);
    var e1 := V.EarFor(st.ear, au.ctype);
    assert SamplesAt(cx, id, us, n) == cx.samples(id, st.units + [au]);
    var fs, frames := UnitHeard(cx, mid, id, au);
    CodecsAlike(e1.setting, c, c);
  }

  /** Heard or crashed, nothing else. */
  lemma HeardAppends(cx: V.Codecs, h: V.Hub, id: nat, au: AccessUnit)
    requires id < STREAMS && !h.mix.crashed
    ensures var h' := V.HearUnit(cx, h, id, au);
            h'.mix.crashed || h'.stream[id].units == h.stream[id].units + [au]
  {
  }

  /** Over any events of the demultiplexer, of this and other streams, and any calls. */
  lemma {:induction false} WalkHeard(cx: V.Codecs, metadata: seq<byte>, h: V.Hub, ws: seq<Stride>, id: nat, c: nat)
    returns (fs: seq<seq<int>>, queued: seq<AudioRaw>)
    requires id < STREAMS && c < 256 && !Walk(cx, metadata, h, ws).mix.crashed
    requires Smooth(cx, h, Walk(cx, metadata, h, ws).stream[id].units, id, c)
    ensures h.stream[id].units <= Walk(cx, metadata, h, ws).stream[id].units
    ensures HeardOn(cx, h, Walk(cx, metadata, h, ws), id, c, fs, queued)
    decreases |ws|
  {
    UnitsGrow(cx, metadata, h, ws, id);
    if ws == [] {
      NothingHeard(cx, h, id, c);
      fs, queued := [], [];
    } else {
      var h1, h' := Take(cx, metadata, h, ws[0]), Walk(cx, metadata, h, ws);
      UnitsGrow(cx, metadata, h1, ws[1..], id);
      StrideOnStream(cx, metadata, h, ws[0], id);
      if mid: V.Hub, au: AccessUnit :| IsHeard(cx, h, h1, id, mid, au) {
        SmoothOn(cx, h, h1, h', id, c, au, mid);
        var fs2, queued2 := WalkHeard(cx, metadata, h1, ws[1..], id, c);
        fs, queued := HeardFirst(cx, h, h1, h', id, c, au, mid, fs2, queued2);
      } else {
        QuietFirst(cx, h, h1, h', id, c);
        fs, queued := WalkHeard(cx, metadata, h1, ws[1..], id, c);
      }
    }
  }

  /**
   From any state of the whole server, over any reads and calls, with any other streams beside: while
   stream id's audio units share a codec and are manageable, the frames its events queue are made,
   in order, of frames of 1152 samples that, followed by what its resampler holds, are what the
   resampler held followed by the samples of those units; and each is stamped by the sample clock
   with the stamp of the unit that completed it.
   */
  lemma ServerHears(cx: V.Codecs, metadata: seq<byte>, h: V.Hub, r: Reader<D.Ctl>, todo: seq<V.Action>, id: nat, c: nat)
    returns (fs: seq<seq<int>>, queued: seq<AudioRaw>)
    requires id < STREAMS && c < 256 && !V.Serve(cx, metadata, h, r, todo).mix.crashed
    requires Smooth(cx, h, V.Serve(cx, metadata, h, r, todo).stream[id].units, id, c)
    ensures h.stream[id].units <= V.Serve(cx, metadata, h, r, todo).stream[id].units
    ensures HeardOn(cx, h, V.Serve(cx, metadata, h, r, todo), id, c, fs, queued)
  {
    ServeIsWalk(cx, metadata, h, r, todo);
    fs, queued := WalkHeard(cx, metadata, h, StridesOf(r, todo), id, c);
  }

  /** From the first byte: all samples of the stream, in order, are in its frames and then its residual. */
  lemma AllHeard(cx: V.Codecs, metadata: seq<byte>, todo: seq<V.Action>, id: nat, c: nat)
    returns (fs: seq<seq<int>>, queued: seq<AudioRaw>)
    requires id < STREAMS && c < 256 && !V.Serve(cx, metadata, V.START, D.START, todo).mix.crashed
    requires var us := V.Serve(cx, metadata, V.START, D.START, todo).stream[id].units;
             OneCodec(us, 0, c) && ManageableFrom(cx, id, us, 0, 0)
    ensures var h := V.Serve(cx, metadata, V.START, D.START, todo); var st := h.stream[id];
            H.Frames(h.events, id) == queued && Flatten(fs) + Residual(st.ear) == SamplesFrom(cx, id, st.units, 0) &&
            MadeOf(cx, IsStereo(c), K.START, StampsFrom(cx, id, st.units, 0, 0), fs, queued)
  {
    fs, queued := HearsFrom(cx, metadata, V.START, D.START, todo, id, c);
  }

  lemma HearsFrom(cx: V.Codecs, metadata: seq<byte>, h0: V.Hub, r: Reader<D.Ctl>, todo: seq<V.Action>, id: nat, c: nat)
    returns (fs: seq<seq<int>>, queued: seq<AudioRaw>)
    requires id < STREAMS && c < 256 && !V.Serve(cx, metadata, h0, r, todo).mix.crashed
    requires h0.events == [] && h0.stream[id].units == [] && h0.stream[id].ear.setting == V.NO_SETTING
    requires var us := V.Serve(cx, metadata, h0, r, todo).stream[id].units;
             OneCodec(us, 0, c) && ManageableFrom(cx, id, us, 0, 0)
    ensures var h := V.Serve(cx, metadata, h0, r, todo); var st := h.stream[id];
            H.Frames(h.events, id) == queued && Flatten(fs) + Residual(st.ear) == SamplesFrom(cx, id, st.units, 0) &&
            MadeOf(cx, IsStereo(c), h0.stream[id].ear.clock, StampsFrom(cx, id, st.units, 0, 0), fs, queued)
  {
    fs, queued := ServerHears(cx, metadata, h0, r, todo, id, c);
    var us := V.Serve(cx, metadata, h0, r, todo).stream[id].units;
    assert H.Frames([], id) + queued == queued;
    assert Residual(h0.stream[id].ear) == [] && [] + SamplesFrom(cx, id, us, 0) == SamplesFrom(cx, id, us, 0);
  }

  /**
   A unit of another codec: only what was held is dropped; the sample clock, the stream's memory
   and its units go on.
   */
  lemma CodecChanged(cx: V.Codecs, h: V.Hub, id: nat, au: AccessUnit) returns (fs: seq<seq<int>>, frames: seq<AudioRaw>)
    requires id < STREAMS && !h.mix.crashed && au.ctype < 256
    requires h.stream[id].ear.setting < 256 && !SameCodec(h.stream[id].ear.setting, au.ctype)
    requires |cx.samples(id, h.stream[id].units + [au])| <= 1152
    requires Ready(h.stream[id].ear, h.stream[id].ear.setting)
    ensures var st, h' := h.stream[id], V.HearUnit(cx, h, id, au);
            var st', samples := h'.stream[id], cx.samples(id, st.units + [au]);
            var ins := if |samples| >= 1152 then [au.pts] else [];
            !h'.mix.crashed && st'.memory == st.memory && st'.units == st.units + [au] && st'.ear.setting == au.ctype &&
            st'.ear.clock == K.After(st.ear.clock, ins) && Flatten(fs) + Residual(st'.ear) == samples &&
            h'.events == h.events + [AudioParsed(id, frames)] &&
            MadeOf(cx, IsStereo(au.ctype), st.ear.clock, ins, fs, frames)
  {
    var st := h.stream[id];
    EarExactly(st.ear, au.ctype);
    var e := V.EarFor(st.ear, au.ctype);
    fs, frames := UnitHeard(cx, h, id, au);
    var samples := cx.samples(id, st.units + [au]);
    assert Residual(e) == [] && Residual(e) + samples == samples;
    R.ManageableConserves(e.resampler, samples);
    HubHeard(cx, h, id, au, R.Resampled(e.resampler, |samples|, 0, samples).value);
  }
}
