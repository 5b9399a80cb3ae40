/**
 The video path of the whole server: what becomes of a tag, and over any run, that the mixer
 is given exactly the video units the stream's tags were read as, each with its own picture.
 */
module Seeing {
  import opened BitMask
  import opened Bytes
  import opened Chunked
  import opened FlvReading
  import opened Scheduling
  import opened Mixing
  import C = StreamClock
  import D = SegmentInReading
  import V = Server

  /** The video units the mixer was given for stream i. */
  function Given(es: seq<Event>, i: nat): seq<VideoUnit> {
    if es == [] then [] else Given(es[..|es| - 1], i) + GivenIn(es[|es| - 1], i)
  }

  function GivenIn(e: Event, i: nat): seq<VideoUnit> {
    if e.VideoParsed? && e.id == i then [e.u] else []
  }

  /** What a stream's video units are to the mixer: a stamp, and a header or what the decoder makes of a picture. */
  function Seen(cx: V.Codecs, id: nat, us: seq<AccessUnit>): seq<VideoUnit> {
    if us == [] then []
    else
      var au := us[|us| - 1];
      Seen(cx, id, us[..|us| - 1]) +
      (if au.kind == C.Video then [VideoUnit(au.pts, au.sp == SpsPps, cx.picture(id, us))] else [])
  }

  ghost predicate AllSeen(cx: V.Codecs, h: V.Hub) {
    forall id :: 0 <= id < STREAMS ==> Given(h.events, id) == Seen(cx, id, h.stream[id].units)
  }

  lemma OneMoreGiven(es: seq<Event>, e: Event, i: nat)
    ensures Given(es + [e], i) == Given(es, i) + GivenIn(e, i)
  {
    assert (es + [e])[..|es|] == es;
  }

  lemma OneMoreSeen(cx: V.Codecs, id: nat, us: seq<AccessUnit>, au: AccessUnit)
    ensures Seen(cx, id, us + [au]) == Seen(cx, id, us) +
            if au.kind == C.Video then [VideoUnit(au.pts, au.sp == SpsPps, cx.picture(id, us + [au]))] else []
  {
    assert (us + [au])[..|us|] == us;
  }

  /**
   One tag of stream id that crashes nothing: its parser remembers what reading it leaves behind; a unit
   delivered is the stream's next, and the mixer is told of it once; no other stream is touched.
   */
  lemma TagHandled(cx: V.Codecs, h: V.Hub, id: nat, tag: RawTag)
    requires id < STREAMS && |tag.data| >= 11 && !h.mix.crashed && !V.HandleTag(cx, h, id, tag).mix.crashed
    ensures var st, h' := h.stream[id], V.HandleTag(cx, h, id, tag);
            var (memory, outcome) := ParseFrame(st.memory, tag, h.mix.parser.globalAudio);
            !outcome.Failed? && h'.stream[id].memory == memory &&
            (forall j :: 0 <= j < STREAMS && j != id ==> h'.stream[j] == h.stream[j]) &&
            (outcome.Nothing? ==> h'.stream[id].units == st.units && h'.events == h.events) &&
            (outcome.Delivered? ==>
               h'.stream[id].units == st.units + [outcome.au] &&
               exists e :: h'.events == h.events + [e] && Tells(cx, e, id, h'.stream[id].units))
  {
    var st, h' := h.stream[id], V.HandleTag(cx, h, id, tag);
    var (memory, outcome) := ParseFrame(st.memory, tag, h.mix.parser.globalAudio);
    if outcome.Delivered? {
      var e := h'.events[|h.events|];
      assert h'.events == h.events + [e];
    }
  }

  /** The event tells of the last of these units. */
  ghost predicate Tells(cx: V.Codecs, e: Event, id: nat, us: seq<AccessUnit>)
    requires us != []
  {
    var au := us[|us| - 1];
    if au.kind == C.Video then e == VideoParsed(id, VideoUnit(au.pts, au.sp == SpsPps, cx.picture(id, us)))
    else e.AudioParsed? && e.id == id
  }

  lemma HandleSees(cx: V.Codecs, h: V.Hub, e: D.Event)
    requires AllSeen(cx, h) && !V.Handle(cx, h, e).mix.crashed
    ensures AllSeen(cx, V.Handle(cx, h, e))
  {
    var h' := V.Handle(cx, h, e);
    if e.TagParsed? && e.id < STREAMS && |e.tag.data| >= 11 {
      TagHandled(cx, h, e.id, e.tag);
      var outcome := ParseFrame(h.stream[e.id].memory, e.tag, h.mix.parser.globalAudio).1;
      if outcome.Delivered? {
        var v :| h'.events == h.events + [v] && Tells(cx, v, e.id, h'.stream[e.id].units);
        forall j | 0 <= j < STREAMS
          ensures Given(h'.events, j) == Seen(cx, j, h'.stream[j].units)
        {
          UnitTold(cx, h, h', v, e.id, outcome.au, j);
        }
      }
    } else if h'.events != h.events {
      QuietGiven(h, h', h'.events[|h.events|]);
    }
  }

  lemma UnitTold(cx: V.Codecs, h: V.Hub, h': V.Hub, v: Event, id: nat, au: AccessUnit, j: nat)
    requires id < STREAMS && j < STREAMS && Given(h.events, j) == Seen(cx, j, h.stream[j].units)
    requires h'.stream[j].units == if j == id then h.stream[j].units + [au] else h.stream[j].units
    requires h'.events == h.events + [v] && Tells(cx, v, id, h.stream[id].units + [au])
    ensures Given(h'.events, j) == Seen(cx, j, h'.stream[j].units)
  {
    OneMoreSeen(cx, id, h.stream[id].units, au);
    OneMoreGiven(h.events, v, j);
  }

  lemma QuietGiven(h: V.Hub, h': V.Hub, e: Event)
    requires h'.events == h.events + [e] && !e.VideoParsed?
    ensures forall j :: 0 <= j < STREAMS ==> Given(h'.events, j) == Given(h.events, j)
  {
    forall j | 0 <= j < STREAMS
      ensures Given(h'.events, j) == Given(h.events, j)
    {
      OneMoreGiven(h.events, e, j);
    }
  }

  lemma CrashKeptByHandle(cx: V.Codecs, h: V.Hub, es: seq<D.Event>)
    requires h.mix.crashed
    ensures V.Absorb(cx, h, es) == h
    decreases |es|
  {
    if es != [] {
      CrashKeptByHandle(cx, h, es[1..]);
    }
  }

  lemma {:induction false} AbsorbSees(cx: V.Codecs, h: V.Hub, es: seq<D.Event>)
    requires AllSeen(cx, h) && !V.Absorb(cx, h, es).mix.crashed
    ensures AllSeen(cx, V.Absorb(cx, h, es))
    decreases |es|
  {
    if es != [] {
      var h' := V.Handle(cx, h, es[0]);
      if h'.mix.crashed {
        CrashKeptByHandle(cx, h', es[1..]);
      }
      HandleSees(cx, h, es[0]);
      AbsorbSees(cx, h', es[1..]);
    }
  }

  lemma {:induction false} CrashKept(cx: V.Codecs, metadata: seq<byte>, h: V.Hub, r: Reader<D.Ctl>, todo: seq<V.Action>)
    requires h.mix.crashed
    ensures V.Serve(cx, metadata, h, r, todo).mix.crashed
    decreases |todo|
  {
    if todo != [] {
      match todo[0]
      case Read(data) =>
        var (h', r') := V.NewInput(cx, h, r, data);
        V.LogGrows(r, data);
        CrashKeptByHandle(cx, h, r'.ctl.log[|r.ctl.log|..]);
        CrashKept(cx, metadata, h', r', todo[1..]);
      case Ask(codec) => CrashKept(cx, metadata, V.Answer(h, metadata, codec), r, todo[1..]);
    }
  }

  lemma {:induction false} ServeSees(cx: V.Codecs, metadata: seq<byte>, h: V.Hub, r: Reader<D.Ctl>, todo: seq<V.Action>)
    ensures AllSeen(cx, h) ==>
              var h' := V.Serve(cx, metadata, h, r, todo); h'.mix.crashed || AllSeen(cx, h')
    decreases |todo|
  {
    if todo != [] && AllSeen(cx, h) && !V.Serve(cx, metadata, h, r, todo).mix.crashed {
      match todo[0]
      case Read(data) =>
        var (h', r') := V.NewInput(cx, h, r, data);
        if h'.mix.crashed {
          CrashKept(cx, metadata, h', r', todo[1..]);
        }
        V.LogGrows(r, data);
        AbsorbSees(cx, h, r'.ctl.log[|r.ctl.log|..]);
        ServeSees(cx, metadata, h', r', todo[1..]);
      case Ask(codec) =>
        var h' := V.Answer(h, metadata, codec);
        if h'.mix.crashed {
          CrashKept(cx, metadata, h', r, todo[1..]);
        }
        if h'.events != h.events {
          QuietGiven(h, h', OutputAsked(codec));
        }
        ServeSees(cx, metadata, h', r, todo[1..]);
    }
  }

  /**
   From the first byte, over any reads and calls: the mixer is given exactly the stream's video
   units, in order, each with its adjusted stamp, headers as headers, and pictures as the decoder
   makes them of all units up to then.
   */
  lemma ServerSees(cx: V.Codecs, metadata: seq<byte>, todo: seq<V.Action>, id: nat)
    requires id < STREAMS && !V.Serve(cx, metadata, V.START, D.START, todo).mix.crashed
    ensures var h := V.Serve(cx, metadata, V.START, D.START, todo);
            Given(h.events, id) == Seen(cx, id, h.stream[id].units)
  {
    NothingSeen(cx, V.START);
    ServeSees(cx, metadata, V.START, D.START, todo);
  }

  lemma NothingSeen(cx: V.Codecs, h: V.Hub)
    requires h.events == [] && forall id :: 0 <= id < STREAMS ==> h.stream[id].units == []
    ensures AllSeen(cx, h)
  {
  }
}
