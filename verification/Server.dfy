/**
 The server put together: bytes from the pipe, through demultiplexer, tag parsers, clocks,
 decoders and resamplers, into the scheduler's queues, and through getOutput to the bytes
 written. Streams are coupled: each new audio frame moves the global audio clock that every
 stream's next tag may be stamped with. Decoders are functions of what their stream has been
 given so far.
 */
module Server {
  import opened BitMask
  import opened Bytes
  import opened Chunked
  import opened FlvWriting
  import opened FlvReading
  import D = SegmentInReading
  import StreamClock
  import opened Scheduling
  import opened Mixing
  import opened SegmentWriting
  import opened OutputStreams
  import R = Reframing
  import SampleClock
  import SegmentOutReading

  /**
   What the libraries return for a stream's latest access unit, given all of them: a decoded
   picture, and audio samples converted to 44.1 kHz. `interleave` turns a frame of samples into
   the shorts the mixer reads.
   */
  datatype Codecs = Codecs(picture: (nat, seq<AccessUnit>) -> Option<Planes>,
                           samples: (nat, seq<AccessUnit>) -> seq<int>,
                           interleave: (bool, seq<int>) -> seq<int>)

  /** A stream's audio decoder: the settings byte it was made for, its resampler, and the stream's sample clock. */
  datatype Ear = Ear(setting: nat, resampler: R.Resampler, clock: SampleClock.Mapper)

  const NO_SETTING: nat := 256

  datatype Stream = Stream(memory: Memory, ear: Ear, units: seq<AccessUnit>)

  type Streams = s: seq<Stream> | |s| == 32 witness seq(32, _ => SILENT)

  const SILENT: Stream :=
    Stream(Memory(StreamClock.START, []), Ear(NO_SETTING, R.Resampler([], 0, []), SampleClock.START), [])

  /** `events` is the run of the mixer's state machine so far, `written` what main has written. */
  datatype Hub = Hub(stream: Streams, mix: Mix, events: seq<Event>, written: seq<byte>)

  const START: Hub := Hub(seq(32, _ => SILENT), Mixing.START, [], [])

  function Play(h: Hub, e: Event): Hub {
    h.(mix := Step(h.mix, e), events := h.events + [e])
  }

  function With(h: Hub, id: nat, st: Stream): Hub
    requires id < STREAMS
  {
    h.(stream := h.stream[id := st])
  }

  const SPEEX: nat := 11

  /** AudioDecoderFactory::isSameDecoder: all Speex settings are one. */
  predicate SameDecoder(setting: nat, ctype: nat) {
    setting == ctype || (setting < 256 && setting / 16 == SPEEX && ctype / 16 == SPEEX)
  }

  /** Speex is decoded as mono whatever its settings byte says. */
  predicate IsStereo(ctype: nat) {
    ctype / 16 != SPEEX && ctype % 2 == 1
  }

  /** A new decoder starts with an empty resampler; the sample clock belongs to the stream and goes on. */
  function EarFor(e: Ear, ctype: nat): Ear {
    if SameDecoder(e.setting, ctype) then e
    else
      var capacity := if IsStereo(ctype) then R.FRAME else 2 * R.FRAME;
      e.(setting := ctype, resampler := R.Resampler(seq(capacity, _ => 0), 0, []))
  }

  /** Frames taken from the resampler, each stamped by the sample clock. */
  function StampFrames(cx: Codecs, clock: SampleClock.Mapper, stereo: bool, frames: seq<seq<int>>, pts: nat)
    : (seq<AudioRaw>, SampleClock.Mapper)
    decreases |frames|
  {
    if frames == [] then ([], clock)
    else
      var a := AudioRaw(SampleClock.Stamp(clock, pts), stereo, cx.interleave(stereo, frames[0]));
      var (rest, clock') := StampFrames(cx, SampleClock.Next(clock, pts), stereo, frames[1..], pts);
      ([a] + rest, clock')
  }

  function Crashed(h: Hub): Hub {
    h.(mix := h.mix.(crashed := true))
  }

  function HearUnit(cx: Codecs, h: Hub, id: nat, au: AccessUnit): Hub
    requires id < STREAMS
  {
    var st := h.stream[id];
    var ear := EarFor(st.ear, au.ctype);
    var units := st.units + [au];
    var samples := cx.samples(id, units);
    if |ear.resampler.rem| < R.FRAME then Crashed(h)
    else match R.Resampled(ear.resampler, |samples|, 0, samples)
      case None => Crashed(h)
      case Some(r) =>
        var (frames, clock) := StampFrames(cx, ear.clock, IsStereo(ear.setting), R.Drained(r.list), au.pts);
        var st' := Stream(st.memory, Ear(ear.setting, r.(list := []), clock), units);
        Play(With(h, id, st'), AudioParsed(id, frames))
  }

  function SeeUnit(cx: Codecs, h: Hub, id: nat, au: AccessUnit): Hub
    requires id < STREAMS
  {
    var units := h.stream[id].units + [au];
    var h1 := With(h, id, h.stream[id].(units := units));
    Play(h1, VideoParsed(id, VideoUnit(au.pts, au.sp == SpsPps, cx.picture(id, units))))
  }

  /** parseNextFLVFrame, then onFLVFrameParsed. */
  ghost function HandleTag(cx: Codecs, h: Hub, id: nat, tag: RawTag): Hub
    requires id < STREAMS && |tag.data| >= 11
  {
    var (memory, outcome) := ParseFrame(h.stream[id].memory, tag, h.mix.parser.globalAudio);
    var h1 := With(h, id, h.stream[id].(memory := memory));
    match outcome
    case Failed => Crashed(h)
    case Nothing => h1
    case Delivered(au) => if au.kind == StreamClock.Video then SeeUnit(cx, h1, id, au) else HearUnit(cx, h1, id, au)
  }

  ghost function Handle(cx: Codecs, h: Hub, e: D.Event): Hub {
    if h.mix.crashed then h
    else match e
      case Masked(mask) => Play(h, MaskSeen(mask))
      case Sourced(id, source) => Play(h, SourceSeen(id, source))
      case TagParsed(id, tag) => if id < STREAMS && |tag.data| >= 11 then HandleTag(cx, h, id, tag) else h
      case AssertFailed => Crashed(h)
  }

  ghost function Absorb(cx: Codecs, h: Hub, es: seq<D.Event>): Hub
    decreases |es|
  {
    if es == [] then h else Absorb(cx, Handle(cx, h, es[0]), es[1..])
  }

  lemma {:induction false} AbsorbConcat(cx: Codecs, h: Hub, a: seq<D.Event>, b: seq<D.Event>)
    ensures Absorb(cx, h, a + b) == Absorb(cx, Absorb(cx, h, a), b)
    decreases |a|
  {
    if a == [] {
      assert a + b == b;
    } else {
      assert (a + b)[0] == a[0] && (a + b)[1..] == a[1..] + b;
      AbsorbConcat(cx, Handle(cx, h, a[0]), a[1..], b);
    }
  }

  lemma FinishGrows(c: D.Ctl, buf: seq<byte>)
    ensures c.log <= D.Finish(c, buf).log
  {
  }

  lemma ByteGrows(r: Reader<D.Ctl>, b: byte)
    ensures r.ctl.log <= FeedByte(D.Sgi, r, b).ctl.log
  {
    FinishGrows(r.ctl, r.buf);
    var s := Settle(D.Sgi, r);
    FinishGrows(s.ctl, s.buf + [b]);
  }

  lemma {:induction false} LogGrows(r: Reader<D.Ctl>, d: seq<byte>)
    ensures r.ctl.log <= Feed(D.Sgi, r, d).ctl.log
    decreases |d|
  {
    if d != [] {
      ByteGrows(r, d[0]);
      LogGrows(FeedByte(D.Sgi, r, d[0]), d[1..]);
    }
  }

  /** newInput: parse a read and act on what it completes. */
  ghost function NewInput(cx: Codecs, h: Hub, r: Reader<D.Ctl>, data: seq<byte>): (Hub, Reader<D.Ctl>) {
    LogGrows(r, data);
    var r' := Feed(D.Sgi, r, data);
    (Absorb(cx, h, r'.ctl.log[|r.ctl.log|..]), r')
  }

  ghost function NewInputs(cx: Codecs, h: Hub, r: Reader<D.Ctl>, chunks: seq<seq<byte>>): (Hub, Reader<D.Ctl>)
    decreases |chunks|
  {
    if chunks == [] then (h, r)
    else
      var (h', r') := NewInput(cx, h, r, chunks[0]);
      NewInputs(cx, h', r', chunks[1..])
  }

  /**
   However the pipe splits the bytes into reads, the whole server - parsers, clocks, decoders,
   resamplers, queues and the global audio clock - is left in the state one big read would leave it in.
   */
  lemma {:induction false} ReadsDoNotMatter(cx: Codecs, h: Hub, r: Reader<D.Ctl>, chunks: seq<seq<byte>>)
    ensures NewInputs(cx, h, r, chunks) == NewInput(cx, h, r, Flatten(chunks))
    decreases |chunks|
  {
    if chunks == [] {
      assert r.ctl.log[|r.ctl.log|..] == [];
    } else {
      var first, rest := chunks[0], Flatten(chunks[1..]);
      var (h1, r1) := NewInput(cx, h, r, first);
      ReadsDoNotMatter(cx, h1, r1, chunks[1..]);
      FeedConcat(D.Sgi, r, first, rest);
      LogGrows(r, first);
      LogGrows(r1, rest);
      var log0, log1, log2 := r.ctl.log, r1.ctl.log, Feed(D.Sgi, r1, rest).ctl.log;
      assert log2[|log0|..] == log1[|log0|..] + log2[|log1|..];
      AbsorbConcat(cx, h, log1[|log0|..], log2[|log1|..]);
    }
  }

  // ----- reads and calls

  /** What main does: hand over a read, or ask for output. */
  datatype Action = Read(data: seq<byte>) | Ask(codec: Codec)

  function Answer(h: Hub, metadata: seq<byte>, codec: Codec): Hub {
    if h.mix.crashed then h
    else
      var h' := Play(h, OutputAsked(codec));
      h'.(written := h.written + OutputBytes(h.mix, metadata, codec).GetOr([]))
  }

  ghost function Serve(cx: Codecs, metadata: seq<byte>, h: Hub, r: Reader<D.Ctl>, todo: seq<Action>): Hub
    decreases |todo|
  {
    if todo == [] then h
    else match todo[0]
      case Read(data) =>
        var (h', r') := NewInput(cx, h, r, data);
        Serve(cx, metadata, h', r', todo[1..])
      case Ask(codec) => Serve(cx, metadata, Answer(h, metadata, codec), r, todo[1..])
  }

  /**
   The server is where its events have brought the mixer from `m0`, unless a parser has crashed
   it since, and has written what that run writes.
   */
  ghost predicate Follows(h: Hub, m0: Mix, metadata: seq<byte>) {
    (h.mix == Run(m0, h.events) || h.mix == Run(m0, h.events).(crashed := true)) &&
    h.written == BytesOf(m0, metadata, h.events) && AllFit(h.events)
  }

  lemma PlayFollows(h: Hub, m0: Mix, metadata: seq<byte>, e: Event)
    requires Follows(h, m0, metadata) && !h.mix.crashed && !e.OutputAsked?
    ensures Follows(Play(h, e), m0, metadata)
  {
    RunSnoc(m0, metadata, h.events, e);
    assert h.written + [] == h.written;
  }

  lemma AnswerFollows(h: Hub, m0: Mix, metadata: seq<byte>, codec: Codec)
    requires Follows(h, m0, metadata) && Fits(codec)
    ensures Follows(Answer(h, metadata, codec), m0, metadata)
  {
    RunSnoc(m0, metadata, h.events, OutputAsked(codec));
  }

  /** The mixer's run is only added to by a played event; otherwise the mixer stays as it is or crashes. */
  ghost predicate Moves(h: Hub, h': Hub) {
    h'.written == h.written &&
    if h'.events == h.events then h'.mix == h.mix || h'.mix == h.mix.(crashed := true)
    else |h'.events| == |h.events| + 1 && !h'.events[|h.events|].OutputAsked? &&
         h' == Play(h.(stream := h'.stream), h'.events[|h.events|])
  }

  lemma HandleMoves(cx: Codecs, h: Hub, e: D.Event)
    ensures Moves(h, Handle(cx, h, e)) && (h.mix.crashed ==> Handle(cx, h, e) == h)
  {
  }

  lemma HandleFollows(cx: Codecs, h: Hub, m0: Mix, metadata: seq<byte>, e: D.Event)
    requires Follows(h, m0, metadata)
    ensures Follows(Handle(cx, h, e), m0, metadata)
  {
    HandleMoves(cx, h, e);
    var h' := Handle(cx, h, e);
    if h'.events != h.events {
      PlayFollows(h.(stream := h'.stream), m0, metadata, h'.events[|h.events|]);
    }
  }

  lemma {:induction false} AbsorbFollows(cx: Codecs, h: Hub, m0: Mix, metadata: seq<byte>, es: seq<D.Event>)
    requires Follows(h, m0, metadata)
    ensures Follows(Absorb(cx, h, es), m0, metadata)
    decreases |es|
  {
    if es != [] {
      HandleFollows(cx, h, m0, metadata, es[0]);
      AbsorbFollows(cx, Handle(cx, h, es[0]), m0, metadata, es[1..]);
    }
  }

  /** Every run of the server on bytes is a run of the mixer on events, so what holds of those holds of it. */
  lemma {:induction false} ServeFollows(cx: Codecs, metadata: seq<byte>, h: Hub, m0: Mix, r: Reader<D.Ctl>,
                                        todo: seq<Action>)
    requires Follows(h, m0, metadata) && forall a :: a in todo && a.Ask? ==> Fits(a.codec)
    ensures Follows(Serve(cx, metadata, h, r, todo), m0, metadata)
    decreases |todo|
  {
    if todo != [] {
      match todo[0]
      case Read(data) =>
        LogGrows(r, data);
        AbsorbFollows(cx, h, m0, metadata, Feed(D.Sgi, r, data).ctl.log[|r.ctl.log|..]);
        var (h', r') := NewInput(cx, h, r, data);
        ServeFollows(cx, metadata, h', m0, r', todo[1..]);
      case Ask(codec) =>
        AnswerFollows(h, m0, metadata, codec);
        ServeFollows(cx, metadata, Answer(h, metadata, codec), m0, r, todo[1..]);
    }
  }

  /**
   From bytes to bytes: feed any bytes to a server just started, in any reads with any calls
   between them; then cut what it writes into any reads of the SGO parser. Viewer i gets nothing
   or an FLV file of exactly the tags made for slot i, in order.
   */
  lemma BytesToViewers(cx: Codecs, metadata: seq<byte>, todo: seq<Action>, chunks: seq<seq<byte>>, i: nat)
    requires i < SLOTS && |metadata| == METADATA_SIZE && forall a :: a in todo && a.Ask? ==> Fits(a.codec)
    requires Flatten(chunks) == Serve(cx, metadata, START, D.START, todo).written
    requires FewViewers(FramesOf(Mixing.START, metadata, Serve(cx, metadata, START, D.START, todo).events))
    ensures var h := Serve(cx, metadata, START, D.START, todo);
            ViewerHas(FeedAll(SegmentOutReading.Sgo, SegmentOutReading.START, chunks), i, metadata,
                      SlotTags(Mixing.START, h.events, i))
  {
    assert Follows(START, Mixing.START, metadata);
    ServeFollows(cx, metadata, START, Mixing.START, D.START, todo);
    ViewersGetTheirTags(Serve(cx, metadata, START, D.START, todo).events, metadata, chunks, i);
  }

  // ----- how many viewers there can be

  /** All the bytes read. */
  function BytesRead(todo: seq<Action>): seq<byte> {
    if todo == [] then [] else (if todo[0].Read? then todo[0].data else []) + BytesRead(todo[1..])
  }

  lemma HandleSources(cx: Codecs, h: Hub, e: D.Event, i: nat)
    ensures SourceSeen(i, MOBILE) in Handle(cx, h, e).events ==>
              SourceSeen(i, MOBILE) in h.events || e == D.Sourced(i, MOBILE)
  {
    HandleMoves(cx, h, e);
  }

  lemma {:induction false} AbsorbSources(cx: Codecs, h: Hub, es: seq<D.Event>, i: nat)
    ensures SourceSeen(i, MOBILE) in Absorb(cx, h, es).events ==>
              SourceSeen(i, MOBILE) in h.events || D.Sourced(i, MOBILE) in es
    decreases |es|
  {
    if es != [] {
      HandleSources(cx, h, es[0], i);
      AbsorbSources(cx, Handle(cx, h, es[0]), es[1..], i);
    }
  }

  /** A stream is a mobile source only if a segment header says so. */
  lemma {:induction false} ServeSources(cx: Codecs, metadata: seq<byte>, h: Hub, r: Reader<D.Ctl>, todo: seq<Action>,
                                        i: nat)
    ensures SourceSeen(i, MOBILE) in Serve(cx, metadata, h, r, todo).events ==>
              SourceSeen(i, MOBILE) in h.events || D.Sourced(i, MOBILE) in Feed(D.Sgi, r, BytesRead(todo)).ctl.log
    decreases |todo|
  {
    if todo != [] {
      var rest := BytesRead(todo[1..]);
      match todo[0]
      case Read(data) =>
        var (h', r') := NewInput(cx, h, r, data);
        LogGrows(r, data);
        LogGrows(r', rest);
        FeedConcat(D.Sgi, r, data, rest);
        AbsorbSources(cx, h, r'.ctl.log[|r.ctl.log|..], i);
        ServeSources(cx, metadata, h', r', todo[1..], i);
      case Ask(codec) =>
        assert [] + rest == rest;
        ServeSources(cx, metadata, Answer(h, metadata, codec), r, todo[1..], i);
    }
  }

  /** The streams that some segment header marks as mobile. */
  function MobileHeaders(log: seq<D.Event>): (p: seq<bool>)
    ensures |p| == 32
  {
    seq(32, i requires 0 <= i < 32 => D.Sourced(i, MOBILE) in log)
  }

  /** At most 30 of them, among the bytes read from parser state r on. */
  ghost predicate FewMobilesRead(r: Reader<D.Ctl>, todo: seq<Action>) {
    Count(MobileHeaders(Feed(D.Sgi, r, BytesRead(todo)).ctl.log)) <= 30
  }

  lemma FewHeadersFewViewers(cx: Codecs, metadata: seq<byte>, todo: seq<Action>)
    requires FewMobilesRead(D.START, todo)
    ensures FewViewers(FramesOf(Mixing.START, metadata, Serve(cx, metadata, START, D.START, todo).events))
  {
    var es := Serve(cx, metadata, START, D.START, todo).events;
    var log := Feed(D.Sgi, D.START, BytesRead(todo)).ctl.log;
    forall i | 0 <= i < STREAMS && EverMobile(Mixing.START, es, i)
      ensures MobileHeaders(log)[i]
    {
      ServeSources(cx, metadata, START, D.START, todo, i);
    }
    CountMonotone(MobileSources(Mixing.START, es), MobileHeaders(log));
    FewMobilesFewViewers(Mixing.START, metadata, es);
  }

  /** The same, with nothing assumed but what the bytes read and the encoders say. */
  lemma BytesToMobileViewers(cx: Codecs, metadata: seq<byte>, todo: seq<Action>, chunks: seq<seq<byte>>, i: nat)
    requires i < SLOTS && |metadata| == METADATA_SIZE && forall a :: a in todo && a.Ask? ==> Fits(a.codec)
    ensures var h := Serve(cx, metadata, START, D.START, todo);
            Flatten(chunks) == h.written && FewMobilesRead(D.START, todo) ==>
              ViewerHas(FeedAll(SegmentOutReading.Sgo, SegmentOutReading.START, chunks), i, metadata,
                        SlotTags(Mixing.START, h.events, i))
  {
    if FewMobilesRead(D.START, todo) && Flatten(chunks) == Serve(cx, metadata, START, D.START, todo).written {
      FewHeadersFewViewers(cx, metadata, todo);
      BytesToViewers(cx, metadata, todo, chunks, i);
    }
  }
}
