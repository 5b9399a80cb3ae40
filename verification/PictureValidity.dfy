/**
 When a stream marked valid for compositing has a decoded picture in its cache, and when it
 has an SPS/PPS record without planes. The header comment of the parser promises queues in
 order of their stamps. The code does not enforce that, and what decides is not order but
 traps: a record that holds the queue back directly behind an SPS/PPS record, while the first
 picture behind it is due before it.
 */
module PictureValidity {
  import opened BitMask
  import opened Bytes
  import opened Scheduling
  import opened Mixing

  predicate IsPicture(v: VideoRaw) {
    !v.isSpsPps && v.planes.Some?
  }

  ghost predicate AllPictures(q: seq<VideoRaw>) {
    forall k :: 0 <= k < |q| ==> IsPicture(q[k])
  }

  /** Something is cached, and it is an SPS/PPS record. */
  predicate NoPicture(cached: Option<VideoRaw>) {
    cached.Some? && !IsPicture(cached.value)
  }

  /**
   Where the first picture since the last SPS/PPS (stamped f) is: already popped, with
   only pictures since, or still queued, with only pictures behind it.
   */
  ghost predicate Held(q: seq<VideoRaw>, cached: Option<VideoRaw>, f: nat) {
    (cached.Some? && IsPicture(cached.value) && AllPictures(q)) ||
    exists k :: 0 <= k < |q| && q[k].pts == f && AllPictures(q[k..])
  }

  ghost predicate StreamHeld(d: Decoder, q: seq<VideoRaw>, cached: Option<VideoRaw>) {
    d.firstFrameStarted ==> Held(q, cached, d.firstFramePts)
  }

  ghost predicate Inv(m: Mix) {
    forall i :: 0 <= i < STREAMS ==> StreamHeld(m.parser.decoder[i], m.parser.videoQueue[i], m.rawVideo[i])
  }

  // ----- traps

  /** What is cached when popping stops in front of the j-th record. */
  function Before(q: seq<VideoRaw>, cached: Option<VideoRaw>, j: nat): Option<VideoRaw>
    requires j <= |q|
  {
    if j == 0 then cached else Some(q[j - 1])
  }

  /** Popping up to t stops in front of the j-th record. */
  ghost predicate StopsAt(q: seq<VideoRaw>, t: nat, j: nat) {
    j <= |q| && (forall i :: 0 <= i < j ==> q[i].pts <= t) && (j < |q| ==> t < q[j].pts)
  }

  /** Popping can stop in front of the j-th record with an SPS/PPS record cached, f being due. */
  ghost predicate TrapAt(q: seq<VideoRaw>, cached: Option<VideoRaw>, f: nat, j: nat) {
    j < |q| && f < q[j].pts && NoPicture(Before(q, cached, j)) && forall i :: 0 <= i < j ==> q[i].pts < q[j].pts
  }

  ghost predicate Trap(q: seq<VideoRaw>, cached: Option<VideoRaw>, f: nat) {
    exists j: nat :: TrapAt(q, cached, f, j)
  }

  lemma {:induction false} PopsUntil(q: seq<VideoRaw>, t: nat, cached: Option<VideoRaw>) returns (j: nat)
    ensures StopsAt(q, t, j) && DrainTo(q, t) == q[j..] && LastDrained(q, t, cached) == Before(q, cached, j)
    decreases |q|
  {
    if q != [] && q[0].pts <= t {
      var k := PopsUntil(q[1..], t, Some(q[0]));
      j := k + 1;
      assert forall i :: 0 < i < j ==> q[i] == q[1..][i - 1];
    } else {
      j := 0;
    }
  }

  lemma StopsOnce(q: seq<VideoRaw>, t: nat, j: nat, k: nat)
    requires StopsAt(q, t, j) && StopsAt(q, t, k)
    ensures j == k
  {
  }

  /** A queue popped to its end leaves a picture, if one is held. */
  lemma EndIsPicture(q: seq<VideoRaw>, cached: Option<VideoRaw>, f: nat)
    requires Held(q, cached, f)
    ensures !NoPicture(Before(q, cached, |q|))
  {
    if q != [] && !AllPictures(q) {
      var k :| 0 <= k < |q| && q[k].pts == f && AllPictures(q[k..]);
      assert q[k..][|q| - 1 - k] == q[|q| - 1];
    }
  }

  /** Some bucket time at which f is due leaves an SPS/PPS record cached. */
  ghost predicate Exposed(q: seq<VideoRaw>, cached: Option<VideoRaw>, f: nat) {
    exists t: nat :: f <= t && NoPicture(LastDrained(q, t, cached))
  }

  /** That is so exactly when the queue has a trap. */
  lemma TrapExact(q: seq<VideoRaw>, cached: Option<VideoRaw>, f: nat)
    requires Held(q, cached, f)
    ensures Exposed(q, cached, f) <==> Trap(q, cached, f)
  {
    if t: nat :| f <= t && NoPicture(LastDrained(q, t, cached)) {
      var j := PopsUntil(q, t, cached);
      EndIsPicture(q, cached, f);
      assert TrapAt(q, cached, f, j);
    }
    if j: nat :| TrapAt(q, cached, f, j) {
      var t := q[j].pts - 1;
      var k := PopsUntil(q, t, cached);
      assert StopsAt(q, t, j);
      StopsOnce(q, t, j, k);
      assert f <= t && NoPicture(LastDrained(q, t, cached));
    }
  }

  // ----- popping

  /** Popping one record keeps the first picture accounted for. */
  lemma PopHeld(q: seq<VideoRaw>, cached: Option<VideoRaw>, f: nat)
    requires Held(q, cached, f) && q != []
    ensures Held(q[1..], Some(q[0]), f)
  {
    if !(cached.Some? && IsPicture(cached.value) && AllPictures(q)) {
      var k :| 0 <= k < |q| && q[k].pts == f && AllPictures(q[k..]);
      if k == 0 {
        assert q[0..] == q;
      } else {
        assert q[1..][k - 1] == q[k] && q[1..][k - 1..] == q[k..];
      }
    }
  }

  lemma {:induction false} DrainHeld(q: seq<VideoRaw>, t: nat, cached: Option<VideoRaw>, f: nat)
    requires Held(q, cached, f)
    ensures Held(DrainTo(q, t), LastDrained(q, t, cached), f)
    decreases |q|
  {
    if q != [] && q[0].pts <= t {
      PopHeld(q, cached, f);
      DrainHeld(q[1..], t, Some(q[0]), f);
    }
  }

  /** Popping sets no trap. */
  lemma DrainSetsNoTrap(q: seq<VideoRaw>, t: nat, cached: Option<VideoRaw>, f: nat)
    requires Trap(DrainTo(q, t), LastDrained(q, t, cached), f)
    ensures Trap(q, cached, f)
  {
    var at := PopsUntil(q, t, cached);
    var rest, left := q[at..], Before(q, cached, at);
    var j: nat :| TrapAt(rest, left, f, j);
    assert Before(rest, left, j) == Before(q, cached, at + j);
    forall i | 0 <= i < at + j
      ensures q[i].pts < q[at + j].pts
    {
      if i >= at {
        assert rest[i - at] == q[i];
      } else {
        assert q[i].pts <= t < rest[0].pts <= rest[j].pts;
      }
    }
    assert TrapAt(q, cached, f, at + j);
  }

  // ----- arrivals

  /** A picture that joins a held one sets no trap and springs none. */
  lemma PictureSetsNoTrap(q: seq<VideoRaw>, cached: Option<VideoRaw>, f: nat, v: VideoRaw)
    requires Held(q, cached, f) && IsPicture(v)
    ensures Held(q + [v], cached, f)
    ensures Trap(q + [v], cached, f) <==> Trap(q, cached, f)
  {
    var q' := q + [v];
    if cached.Some? && IsPicture(cached.value) && AllPictures(q) {
      assert AllPictures(q');
    } else {
      var k :| 0 <= k < |q| && q[k].pts == f && AllPictures(q[k..]);
      assert q'[k..] == q[k..] + [v] && q'[k].pts == f;
    }
    if j: nat :| TrapAt(q', cached, f, j) {
      EndIsPicture(q, cached, f);
      assert Before(q', cached, j) == Before(q, cached, j);
      assert j < |q|;
      assert forall i :: 0 <= i < j ==> q'[i] == q[i];
      assert TrapAt(q, cached, f, j);
    }
    if j: nat :| TrapAt(q, cached, f, j) {
      assert Before(q', cached, j) == Before(q, cached, j);
      assert TrapAt(q', cached, f, j);
    }
  }

  /** The first picture since an SPS/PPS is held; it is trapped exactly by what was queued before it. */
  lemma FirstPictureHeld(q: seq<VideoRaw>, cached: Option<VideoRaw>, v: VideoRaw)
    requires IsPicture(v)
    ensures Held(q + [v], cached, v.pts)
    ensures Trap(q + [v], cached, v.pts) <==> Trap(q, cached, v.pts)
  {
    var q' := q + [v];
    assert q'[|q|..] == [v] && q'[|q|].pts == v.pts;
    if j: nat :| TrapAt(q', cached, v.pts, j) {
      assert j < |q|;
      assert Before(q', cached, j) == Before(q, cached, j);
      assert TrapAt(q, cached, v.pts, j);
    }
    if j: nat :| TrapAt(q, cached, v.pts, j) {
      assert Before(q', cached, j) == Before(q, cached, j);
      assert TrapAt(q', cached, v.pts, j);
    }
  }

  /** Whatever bucket time comes, the stream is not composed from an SPS/PPS record. */
  ghost predicate StreamSafe(d: Decoder, q: seq<VideoRaw>, cached: Option<VideoRaw>) {
    d.firstFrameStarted ==> !Exposed(q, cached, d.firstFramePts)
  }

  ghost predicate Safe(m: Mix) {
    forall i :: 0 <= i < STREAMS ==> StreamSafe(m.parser.decoder[i], m.parser.videoQueue[i], m.rawVideo[i])
  }

  lemma SafeIsNoTrap(d: Decoder, q: seq<VideoRaw>, cached: Option<VideoRaw>)
    requires StreamHeld(d, q, cached)
    ensures StreamSafe(d, q, cached) <==> (d.firstFrameStarted ==> !Trap(q, cached, d.firstFramePts))
  {
    if d.firstFrameStarted {
      TrapExact(q, cached, d.firstFramePts);
    }
  }

  /**
   The event that matters: the first decoded picture since an SPS/PPS arrives behind a record
   stamped after it that itself stands directly behind an SPS/PPS record.
   */
  ghost predicate SetsTrap(m: Mix, e: Event) {
    e.VideoParsed? && e.id < STREAMS && !m.crashed && !e.u.isSpsPps && e.u.decoded.Some? &&
    m.parser.decoder[e.id].hasSpsPps && !m.parser.decoder[e.id].firstFrameStarted &&
    Trap(m.parser.videoQueue[e.id], m.rawVideo[e.id], e.u.pts)
  }

  /** What arrives keeps account of the first picture, and sets a trap exactly then. */
  lemma VideoInKeeps(m: Mix, i: nat, u: VideoUnit)
    requires Inv(m) && i < STREAMS && !m.crashed
    ensures Inv(m.(parser := VideoIn(m.parser, i, u)))
    ensures Safe(m) ==> (Safe(m.(parser := VideoIn(m.parser, i, u))) <==> !SetsTrap(m, VideoParsed(i, u)))
  {
    var s, s', cached := m.parser, VideoIn(m.parser, i, u), m.rawVideo[i];
    var q, d, d' := s.videoQueue[i], s.decoder[i], s'.decoder[i];
    assert StreamHeld(d, q, cached);
    OneArrival(d, q, cached, u);
    SafeIsNoTrap(d, q, cached);
    SafeIsNoTrap(d', s'.videoQueue[i], cached);
    forall j | 0 <= j < STREAMS && j != i
      ensures s'.decoder[j] == s.decoder[j] && s'.videoQueue[j] == s.videoQueue[j]
    {
    }
    OtherStreams(m, m.(parser := s'), i);
  }

  lemma OneArrival(d: Decoder, q: seq<VideoRaw>, cached: Option<VideoRaw>, u: VideoUnit)
    requires StreamHeld(d, q, cached)
    ensures var d', q' := DecoderAfter(d, u), QueueAfter(d, q, u);
            StreamHeld(d', q', cached) &&
            (d'.firstFrameStarted ==>
               (Trap(q', cached, d'.firstFramePts) <==> Trap(q, cached, d'.firstFramePts)))
  {
    if !u.isSpsPps && d.hasSpsPps && u.decoded.Some? {
      var v := VideoRaw(u.pts, false, u.decoded);
      if d.firstFrameStarted {
        PictureSetsNoTrap(q, cached, d.firstFramePts, v);
      } else {
        FirstPictureHeld(q, cached, v);
      }
    }
  }

  /** States that differ in one stream only. */
  lemma OtherStreams(m: Mix, m': Mix, i: nat)
    requires i < STREAMS && Inv(m) && m'.rawVideo == m.rawVideo
    requires forall j :: 0 <= j < STREAMS && j != i ==>
               m'.parser.decoder[j] == m.parser.decoder[j] && m'.parser.videoQueue[j] == m.parser.videoQueue[j]
    requires StreamHeld(m'.parser.decoder[i], m'.parser.videoQueue[i], m.rawVideo[i])
    ensures Inv(m')
    ensures Safe(m) ==> (Safe(m') <==> StreamSafe(m'.parser.decoder[i], m'.parser.videoQueue[i], m.rawVideo[i]))
  {
    forall j | 0 <= j < STREAMS
      ensures StreamHeld(m'.parser.decoder[j], m'.parser.videoQueue[j], m'.rawVideo[j])
      ensures Safe(m) && j != i ==> StreamSafe(m'.parser.decoder[j], m'.parser.videoQueue[j], m'.rawVideo[j])
    {
      assert StreamHeld(m.parser.decoder[j], m.parser.videoQueue[j], m.rawVideo[j]);
    }
  }

  // ----- calls

  lemma PopVideoKeeps(m: Mix, t: nat)
    requires Inv(m)
    ensures Inv(PopVideo(m, t)) && (Safe(m) ==> Safe(PopVideo(m, t)))
  {
    var m' := PopVideo(m, t);
    forall i | 0 <= i < STREAMS
      ensures StreamHeld(m'.parser.decoder[i], m'.parser.videoQueue[i], m'.rawVideo[i])
      ensures Safe(m) ==> StreamSafe(m'.parser.decoder[i], m'.parser.videoQueue[i], m'.rawVideo[i])
    {
      var d, q, cached := m.parser.decoder[i], m.parser.videoQueue[i], m.rawVideo[i];
      assert StreamHeld(d, q, cached);
      if d.firstFrameStarted {
        DrainHeld(q, t, cached, d.firstFramePts);
        SafeIsNoTrap(d, q, cached);
        SafeIsNoTrap(m'.parser.decoder[i], m'.parser.videoQueue[i], m'.rawVideo[i]);
        if m.parser.videoStatus[i] == Started && Trap(DrainTo(q, t), LastDrained(q, t, cached), d.firstFramePts) {
          DrainSetsNoTrap(q, t, cached, d.firstFramePts);
        }
      }
    }
  }

  lemma InvIgnoresRest(m: Mix, m': Mix)
    requires Inv(m) && m'.rawVideo == m.rawVideo
    requires m'.parser.decoder == m.parser.decoder && m'.parser.videoQueue == m.parser.videoQueue
    ensures Inv(m') && (Safe(m') <==> Safe(m))
  {
    forall i | 0 <= i < STREAMS
      ensures StreamHeld(m'.parser.decoder[i], m'.parser.videoQueue[i], m'.rawVideo[i])
    {
      assert StreamHeld(m.parser.decoder[i], m.parser.videoQueue[i], m.rawVideo[i]);
    }
  }

  /** When a call composes a video frame, every stream it composes has a picture cached. */
  ghost predicate ComposesPictures(m: Mix) {
    var (m1, choice) := Popped(m);
    choice.VideoStream? ==> forall i :: 0 <= i < STREAMS && VideoOn(m1, i) ==> IsPicture(m1.rawVideo[i].value)
  }

  /**
   A started stream whose first picture is due by t, and whose queue is held back by a record
   not due by t that stands directly behind an SPS/PPS record.
   */
  ghost predicate HeldBack(m: Mix, i: nat, t: nat)
    requires i < STREAMS
  {
    m.parser.videoStatus[i] == Started && HasFirstFrameDecoded(m.parser, i, t) &&
    var q := m.parser.videoQueue[i];
    exists j :: 0 <= j < |q| && StopsAt(q, t, j) && NoPicture(Before(q, m.rawVideo[i], j))
  }

  /** Exactly the streams held back are composed from an SPS/PPS record. */
  lemma PopVideoExact(m: Mix, t: nat, i: nat)
    requires Inv(m) && i < STREAMS
    ensures var m' := PopVideo(m, t);
            VideoOn(m', i) && !IsPicture(m'.rawVideo[i].value) <==> HeldBack(m, i, t)
  {
    var q, cached, d := m.parser.videoQueue[i], m.rawVideo[i], m.parser.decoder[i];
    assert StreamHeld(d, q, cached);
    if m.parser.videoStatus[i] == Started && HasFirstFrameDecoded(m.parser, i, t) {
      var j := PopsUntil(q, t, cached);
      EndIsPicture(q, cached, d.firstFramePts);
      if k :| 0 <= k < |q| && StopsAt(q, t, k) && NoPicture(Before(q, cached, k)) {
        StopsOnce(q, t, j, k);
      }
    }
  }

  /** The call that is due composes from SPS/PPS records exactly the streams held back at its bucket time. */
  ghost predicate NoneHeldBack(m: Mix) {
    var (s, choice) := Pick(m.parser);
    choice.VideoStream? ==> forall i :: 0 <= i < STREAMS ==> !HeldBack(m, i, choice.pts)
  }

  lemma ComposesExact(m: Mix)
    requires Inv(m)
    ensures ComposesPictures(m) <==> NoneHeldBack(m)
  {
    var (s, choice) := Pick(m.parser);
    if choice.VideoStream? {
      var m1, t := m.(parser := s), choice.pts;
      InvIgnoresRest(m, m1);
      var m2 := PopVideo(m1, t);
      assert Popped(m) == (m2, choice);
      forall i | 0 <= i < STREAMS
        ensures (VideoOn(m2, i) ==> IsPicture(m2.rawVideo[i].value)) <==> !HeldBack(m, i, t)
      {
        PopVideoExact(m1, t, i);
        assert HeldBack(m1, i, t) <==> HeldBack(m, i, t);
      }
    }
  }

  /** A safe state holds no stream back. */
  lemma SafeComposes(m: Mix)
    requires Inv(m) && Safe(m)
    ensures ComposesPictures(m)
  {
    ComposesExact(m);
    var (s, choice) := Pick(m.parser);
    if choice.VideoStream? {
      forall i | 0 <= i < STREAMS
        ensures !HeldBack(m, i, choice.pts)
      {
        var t, q := choice.pts, m.parser.videoQueue[i];
        assert StreamSafe(m.parser.decoder[i], q, m.rawVideo[i]);
        var j := PopsUntil(q, t, m.rawVideo[i]);
        if k :| 0 <= k < |q| && StopsAt(q, t, k) && NoPicture(Before(q, m.rawVideo[i], k)) {
          StopsOnce(q, t, j, k);
        }
      }
    }
  }

  lemma CallKeeps(m: Mix)
    requires Inv(m)
    ensures Inv(Popped(m).0) && (Safe(m) ==> Safe(Popped(m).0))
  {
    var (s, choice) := Pick(m.parser);
    var m1 := m.(parser := s);
    InvIgnoresRest(m, m1);
    match choice
    case VideoStream(t) => PopVideoKeeps(m1, t);
    case AudioStream(a) => InvIgnoresRest(m1, PopAudio(m1));
    case Crash => InvIgnoresRest(m1, m1.(crashed := true));
    case NoStream =>
  }

  // ----- runs

  lemma StepKeeps(m: Mix, e: Event)
    requires Inv(m)
    ensures Inv(Step(m, e))
    ensures Safe(m) ==> (Safe(Step(m, e)) <==> !SetsTrap(m, e))
  {
    if !m.crashed {
      match e
      case VideoParsed(i, u) =>
        if i < STREAMS {
          VideoInKeeps(m, i, u);
          InvIgnoresRest(m, m.(crashed := true));
        }
      case OutputAsked(codec) =>
        CallKeeps(m);
        InvIgnoresRest(Popped(m).0, Step(m, e));
      case _ => InvIgnoresRest(m, Step(m, e));
    }
  }

  /** No event of the run sets a trap. */
  ghost predicate TrapFree(m: Mix, es: seq<Event>)
    decreases |es|
  {
    es == [] || (!SetsTrap(m, es[0]) && TrapFree(Step(m, es[0]), es[1..]))
  }

  /** At no point of the run could any bucket time compose an SPS/PPS record. */
  ghost predicate AlwaysSafe(m: Mix, es: seq<Event>)
    decreases |es|
  {
    Safe(m) && (es == [] || AlwaysSafe(Step(m, es[0]), es[1..]))
  }

  /** Every call of the run that composes a video frame only touches decoded pictures. */
  ghost predicate AlwaysPictures(m: Mix, es: seq<Event>)
    decreases |es|
  {
    es == [] || ((es[0].OutputAsked? ==> ComposesPictures(m)) && AlwaysPictures(Step(m, es[0]), es[1..]))
  }

  /** No call of the run finds a stream held back. */
  ghost predicate NeverHeldBack(m: Mix, es: seq<Event>)
    decreases |es|
  {
    es == [] || ((es[0].OutputAsked? ==> NoneHeldBack(m)) && NeverHeldBack(Step(m, es[0]), es[1..]))
  }

  lemma {:induction false} RunSafe(m: Mix, es: seq<Event>)
    requires Inv(m) && Safe(m)
    ensures AlwaysSafe(m, es) <==> TrapFree(m, es)
    decreases |es|
  {
    if es != [] {
      StepKeeps(m, es[0]);
      if !SetsTrap(m, es[0]) {
        RunSafe(Step(m, es[0]), es[1..]);
      }
    }
  }

  lemma {:induction false} RunComposes(m: Mix, es: seq<Event>)
    requires Inv(m)
    ensures AlwaysPictures(m, es) <==> NeverHeldBack(m, es)
    ensures AlwaysSafe(m, es) ==> AlwaysPictures(m, es)
    decreases |es|
  {
    if es != [] {
      StepKeeps(m, es[0]);
      ComposesExact(m);
      if Safe(m) {
        SafeComposes(m);
      }
      RunComposes(Step(m, es[0]), es[1..]);
    }
  }

  lemma StartIsSafe()
    ensures Inv(Mixing.START) && Safe(Mixing.START)
  {
  }

  /** From start-up, over any run: only pictures are ever composed exactly when no call finds a stream held back. */
  lemma PicturesExactly(es: seq<Event>)
    ensures AlwaysPictures(Mixing.START, es) <==> NeverHeldBack(Mixing.START, es)
  {
    StartIsSafe();
    RunComposes(Mixing.START, es);
  }

  /**
   From start-up, over any run, judged by what arrives: if no first picture walks into a trap,
   only pictures are ever composed, and only then is every state of the run safe for any bucket time.
   */
  lemma ValidStreamsArePictures(es: seq<Event>)
    ensures AlwaysSafe(Mixing.START, es) <==> TrapFree(Mixing.START, es)
    ensures TrapFree(Mixing.START, es) ==> AlwaysPictures(Mixing.START, es)
  {
    StartIsSafe();
    RunSafe(Mixing.START, es);
    RunComposes(Mixing.START, es);
  }

  // ----- ordered queues

  ghost predicate Sorted(q: seq<VideoRaw>) {
    forall j, k :: 0 <= j < k < |q| ==> q[j].pts <= q[k].pts
  }

  /**
   In order, but for the front while nothing was ever popped: an SPS/PPS record is stamped 1
   and the first picture with the audio clock, which may still be 0.
   */
  ghost predicate Ordered(q: seq<VideoRaw>, cached: Option<VideoRaw>) {
    Sorted(q) || (cached.None? && q != [] && Sorted(q[1..]))
  }

  ghost predicate AllOrdered(m: Mix) {
    forall i :: 0 <= i < STREAMS ==> Ordered(m.parser.videoQueue[i], m.rawVideo[i])
  }

  /** A record may follow the last one queued if not stamped before it, or if that is the stream's very first. */
  predicate MayFollow(q: seq<VideoRaw>, pts: nat, cached: Option<VideoRaw>) {
    q == [] || q[|q| - 1].pts <= pts || (|q| == 1 && cached.None?)
  }

  /** The run keeps every video queue in order, as the header comment promises. */
  ghost predicate OrderedRun(m: Mix, es: seq<Event>)
    decreases |es|
  {
    es == [] ||
    ((es[0].VideoParsed? && es[0].id < STREAMS ==>
        MayFollow(m.parser.videoQueue[es[0].id], es[0].u.pts, m.rawVideo[es[0].id])) &&
     OrderedRun(Step(m, es[0]), es[1..]))
  }

  lemma OrderedSnoc(q: seq<VideoRaw>, v: VideoRaw, cached: Option<VideoRaw>)
    requires Ordered(q, cached) && MayFollow(q, v.pts, cached)
    ensures Ordered(q + [v], cached)
  {
    if q != [] {
      assert (q + [v])[1..] == q[1..] + [v];
    }
  }

  lemma DrainOrdered(q: seq<VideoRaw>, t: nat, cached: Option<VideoRaw>)
    requires Ordered(q, cached)
    ensures Ordered(DrainTo(q, t), LastDrained(q, t, cached))
  {
    var j := PopsUntil(q, t, cached);
    if !Sorted(q) && j > 0 {
      assert q[j..] == q[1..][j - 1..];
    }
  }

  /** Behind an ordered queue there is no trap for a picture that may follow. */
  lemma OrderedHasNoTrap(q: seq<VideoRaw>, cached: Option<VideoRaw>, f: nat)
    requires Ordered(q, cached) && MayFollow(q, f, cached)
    ensures !Trap(q, cached, f)
  {
    forall j | 0 <= j < |q|
      ensures !TrapAt(q, cached, f, j)
    {
      if j > 0 && !Sorted(q) {
        assert q[1..][j - 1] == q[j] && q[1..][|q| - 2] == q[|q| - 1];
      }
    }
  }

  lemma PopVideoOrdered(m: Mix, t: nat)
    requires AllOrdered(m)
    ensures AllOrdered(PopVideo(m, t))
  {
    var m' := PopVideo(m, t);
    forall i | 0 <= i < STREAMS
      ensures Ordered(m'.parser.videoQueue[i], m'.rawVideo[i])
    {
      DrainOrdered(m.parser.videoQueue[i], t, m.rawVideo[i]);
    }
  }

  lemma CallOrdered(m: Mix)
    requires AllOrdered(m)
    ensures AllOrdered(Popped(m).0)
  {
    var (s, choice) := Pick(m.parser);
    if choice.VideoStream? {
      PopVideoOrdered(m.(parser := s), choice.pts);
    }
  }

  lemma StepOrdered(m: Mix, e: Event)
    requires AllOrdered(m) && OrderedRun(m, [e])
    ensures AllOrdered(Step(m, e)) && !SetsTrap(m, e)
  {
    if e.VideoParsed? && e.id < STREAMS {
      var q, cached := m.parser.videoQueue[e.id], m.rawVideo[e.id];
      assert Ordered(q, cached);
      OrderedHasNoTrap(q, cached, e.u.pts);
      OrderedSnoc(q, VideoRaw(e.u.pts, e.u.isSpsPps, if e.u.isSpsPps then None else e.u.decoded), cached);
    } else if e.OutputAsked? && !m.crashed {
      CallOrdered(m);
    }
  }

  lemma {:induction false} OrderedIsTrapFree(m: Mix, es: seq<Event>)
    requires AllOrdered(m) && OrderedRun(m, es)
    ensures TrapFree(m, es)
    decreases |es|
  {
    if es != [] {
      assert OrderedRun(m, [es[0]]) by { assert OrderedRun(Step(m, es[0]), [es[0]][1..]); }
      StepOrdered(m, es[0]);
      OrderedIsTrapFree(Step(m, es[0]), es[1..]);
    }
  }

  /** Queues in order are enough. */
  lemma OrderedQueuesSuffice(es: seq<Event>)
    requires OrderedRun(Mixing.START, es)
    ensures AlwaysPictures(Mixing.START, es)
  {
    OrderedIsTrapFree(Mixing.START, es);
    ValidStreamsArePictures(es);
  }
}
