/** Properties of getOutput over whole runs of parsed frames and calls. */
module MixingRuns {
  import opened BitMask
  import opened Scheduling
  import opened BucketClock
  import opened Mixing

  lemma AskIsCall(m: Mix, codec: Codec)
    ensures Step(m, OutputAsked(codec)) == GetOutput(m, codec)
  {
  }

  /** A call does to queues and caches what popping does. */
  lemma CallPops(m: Mix, codec: Codec)
    requires !m.crashed
    ensures var m', popped := GetOutput(m, codec), Popped(m).0;
            m'.parser == popped.parser && m'.rawVideo == popped.rawVideo && m'.rawAudio == popped.rawAudio &&
            m'.videoValid == popped.videoValid && m'.audioValid == popped.audioValid &&
            m'.source == popped.source == m.source && m'.crashed == popped.crashed
  {
  }

  // ----- what each call selected

  /** One call: its choice, the audio query's answer, the bucket clock afterwards, and what the call found. */
  datatype Call = Call(choice: Choice, audio: Readiness, bucket: nat, found: Sched)

  function CallOf(m: Mix): Call {
    var (s, choice) := Pick(m.parser);
    Call(choice, AudioReady(m.parser), s.lastBucket, m.parser)
  }

  /** The calls of a run, up to a crash. */
  function Calls(m: Mix, es: seq<Event>): seq<Call>
    decreases |es|
  {
    if es == [] then []
    else (if es[0].OutputAsked? && !m.crashed then [CallOf(m)] else []) + Calls(Step(m, es[0]), es[1..])
  }

  // ----- the bucket grid

  /**
   From `last` on, the bucket clock moves only in calls that take the video branch, each
   time by a positive number of whole intervals, and the stamp it yields is the bucket in
   whole milliseconds, never past the audio. With proper stamps queued the bucket is the one
   that is due: the next, unless some front that takes part lies beyond it; and a call that
   takes audio found none due.
   */
  ghost predicate OnGrid(last: nat, calls: seq<Call>)
    decreases |calls|
  {
    calls == [] ||
    (var c := calls[0];
     (if c.choice.VideoStream? then
        c.bucket > last && (c.bucket - last) % INTERVAL == 0 && c.choice.pts == c.bucket / 3 &&
        c.audio.Ready? && c.choice.pts <= c.audio.ts
      else c.bucket == last) &&
     (QueuesStamped(c.found) ==> RightBucket(last, c)) &&
     OnGrid(c.bucket, calls[1..]))
  }

  ghost predicate RightBucket(last: nat, c: Call) {
    c.found.lastBucket == last &&
    (c.choice.VideoStream? ==> c.audio.Ready? && c.bucket == BucketFor(c.found, c.audio.ts)) &&
    (c.choice.AudioStream? ==>
       c.audio.Ready? && !(3 * c.audio.ts >= last + 100 && FrontBy(c.found, LimitMs(last, c.audio.ts))))
  }

  lemma CallRight(m: Mix)
    requires m.parser.hasStarted && QueuesStamped(m.parser)
    ensures RightBucket(m.parser.lastBucket, CallOf(m))
  {
    var s, r := m.parser, AudioReady(m.parser);
    if r.Ready? && !VideoReady(s, r.ts).1.AssertFails? {
      HeadersInTime(s, r.ts);
      BucketExactly(s, r.ts);
      BucketStep(s, r.ts);
    }
  }

  lemma ClockOnlyMovesInCalls(m: Mix, e: Event)
    requires m.parser.hasStarted && !m.crashed
    ensures Step(m, e).parser.hasStarted
    ensures Step(m, e).parser.lastBucket == if e.OutputAsked? then CallOf(m).bucket else m.parser.lastBucket
  {
  }

  lemma CallOnGrid(m: Mix)
    requires m.parser.hasStarted
    ensures OnGrid(m.parser.lastBucket, [CallOf(m)])
  {
    if AudioReady(m.parser).Ready? {
      BucketStep(m.parser, AudioReady(m.parser).ts);
    }
    if QueuesStamped(m.parser) {
      CallRight(m);
    }
    assert OnGrid(CallOf(m).bucket, [CallOf(m)][1..]);
  }

  lemma {:induction false} CrashedStays(m: Mix, es: seq<Event>)
    requires m.crashed
    ensures Calls(m, es) == [] && Run(m, es) == m
    decreases |es|
  {
    if es != [] {
      CrashedStays(Step(m, es[0]), es[1..]);
    }
  }

  /** Once video has started, every run keeps the grid, and no bucket the query advances is lost. */
  lemma {:induction false} GridOverRuns(m: Mix, es: seq<Event>)
    requires m.parser.hasStarted
    ensures OnGrid(m.parser.lastBucket, Calls(m, es))
    decreases |es|
  {
    if m.crashed {
      CrashedStays(m, es);
    } else if es != [] {
      var m' := Step(m, es[0]);
      ClockOnlyMovesInCalls(m, es[0]);
      GridOverRuns(m', es[1..]);
      if es[0].OutputAsked? {
        CallOnGrid(m);
        assert Calls(m, es) == [CallOf(m)] + Calls(m', es[1..]);
      } else {
        assert Calls(m, es) == Calls(m', es[1..]);
      }
    }
  }

  /** Over runs of proper stamps every bucket is the one due, and no call passes over one. */
  lemma {:induction false} BucketsOverRuns(m: Mix, es: seq<Event>, j: nat)
    requires m.parser.hasStarted && QueuesStamped(m.parser) && j < |Calls(m, es)|
    requires forall e :: e in es ==> ProperStamps(e)
    ensures RightBucket(Calls(m, es)[j].found.lastBucket, Calls(m, es)[j])
    decreases |es|
  {
    if m.crashed {
      CrashedStays(m, es);
    } else {
      StepKeepsStamps(m, es[0]);
      ClockOnlyMovesInCalls(m, es[0]);
      var m', here := Step(m, es[0]), if es[0].OutputAsked? then [CallOf(m)] else [];
      assert Calls(m, es) == here + Calls(m', es[1..]);
      if j < |here| {
        CallRight(m);
      } else {
        BucketsOverRuns(m', es[1..], j - |here|);
      }
    }
  }

  lemma WholeIntervals(a: int, b: int)
    requires a % INTERVAL == 0 && b % INTERVAL == 0
    ensures (a + b) % INTERVAL == 0
  {
  }

  /** Every later bucket is a whole number of intervals after `last`, and a video output is strictly after it. */
  lemma {:induction false} GridFrom(last: nat, calls: seq<Call>, j: nat)
    requires OnGrid(last, calls) && j < |calls|
    ensures last <= calls[j].bucket && (calls[j].bucket - last) % INTERVAL == 0
    ensures calls[j].choice.VideoStream? ==> last < calls[j].bucket
    decreases |calls|
  {
    if j > 0 {
      var c := calls[0];
      GridFrom(c.bucket, calls[1..], j - 1);
      WholeIntervals(c.bucket - last, calls[j].bucket - c.bucket);
    }
  }

  lemma {:induction false} GridSuffix(last: nat, calls: seq<Call>, i: nat)
    requires OnGrid(last, calls) && i < |calls|
    ensures OnGrid(calls[i].bucket, calls[i + 1..])
    decreases |calls|
  {
    if i > 0 {
      GridSuffix(calls[0].bucket, calls[1..], i - 1);
      assert calls[1..][i..] == calls[i + 1..];
    }
  }

  /** Any two video outputs of such a run are a positive number of whole intervals apart. */
  lemma GridTimes(last: nat, calls: seq<Call>, i: nat, j: nat)
    requires OnGrid(last, calls) && i < j < |calls| && calls[j].choice.VideoStream?
    ensures calls[i].bucket < calls[j].bucket && (calls[j].bucket - calls[i].bucket) % INTERVAL == 0
  {
    GridSuffix(last, calls, i);
    var rest := calls[i + 1..];
    assert calls[j] == rest[j - i - 1];
    GridFrom(calls[i].bucket, rest, j - i - 1);
  }

  /**
   The very first bucket is different: it is taken exactly when its picture is not past the
   audio; otherwise audio goes first.
   */
  lemma FirstBucketTaken(m: Mix)
    requires !m.parser.hasStarted && QueuesStamped(m.parser) && AnyPicture(m.parser, STREAMS) &&
             AudioReady(m.parser).Ready?
    ensures var (s, choice) := Pick(m.parser); var a := AudioReady(m.parser).ts;
            s.hasStarted && choice == if s.lastBucket <= 3 * a then VideoStream(s.lastBucket / 3) else AudioStream(a)
  {
    FirstBucket(m.parser, AudioReady(m.parser).ts);
  }

  // ----- termination of the drain loop

  function Total<T>(qs: seq<seq<T>>): nat {
    if qs == [] then 0 else |qs[0]| + Total(qs[1..])
  }

  lemma {:induction false} TotalShrinks<T>(a: seq<seq<T>>, b: seq<seq<T>>)
    requires |a| == |b| && forall i :: 0 <= i < |a| ==> |a[i]| <= |b[i]|
    ensures Total(a) <= Total(b)
    ensures (exists i :: 0 <= i < |a| && |a[i]| < |b[i]|) ==> Total(a) < Total(b)
  {
    if a != [] {
      TotalShrinks(a[1..], b[1..]);
      if i :| 0 <= i < |a| && |a[i]| < |b[i]| {
        assert i > 0 ==> a[1..][i - 1] == a[i] && b[1..][i - 1] == b[i];
      }
    }
  }

  /** How far audio is ahead of the bucket clock, in thirds of a millisecond. */
  function Gap(s: Sched): nat {
    match AudioReady(s)
    case Ready(a) => if 3 * a >= s.lastBucket then 3 * a - s.lastBucket else 0
    case _ => 0
  }

  function NotStartedYet(s: Sched): nat {
    if s.hasStarted then 0 else 1
  }

  /** Queued audio, then the start, then queued video, then the gap. */
  ghost predicate Decreases(s': Sched, s: Sched) {
    var a', a := Total(s'.audioQueue), Total(s.audioQueue);
    var v', v := Total(s'.videoQueue), Total(s.videoQueue);
    a' < a ||
    (a' == a && (NotStartedYet(s') < NotStartedYet(s) ||
                 (NotStartedYet(s') == NotStartedYet(s) && (v' < v || (v' == v && Gap(s') < Gap(s))))))
  }

  lemma {:induction false} DrainShorter(q: seq<VideoRaw>, t: nat)
    ensures |DrainTo(q, t)| <= |q|
    ensures q != [] && q[0].pts <= t ==> |DrainTo(q, t)| < |q|
  {
    if q != [] && q[0].pts <= t {
      DrainShorter(q[1..], t);
    }
  }

  lemma VideoPopShrinks(m: Mix, t: nat)
    ensures var q', q := PopVideo(m, t).parser.videoQueue, m.parser.videoQueue;
            Total(q') <= Total(q) &&
            ((exists i :: 0 <= i < STREAMS && HasFront(m.parser, i) && q[i][0].pts <= t) ==> Total(q') < Total(q))
  {
    var q', q := PopVideo(m, t).parser.videoQueue, m.parser.videoQueue;
    forall i | 0 <= i < STREAMS
      ensures |q'[i]| <= |q[i]| && (HasFront(m.parser, i) && q[i][0].pts <= t ==> |q'[i]| < |q[i]|)
    {
      DrainShorter(q[i], t);
    }
    TotalShrinks(q', q);
  }

  lemma AudioPopShrinks(m: Mix)
    requires AnyAudio(m.parser, STREAMS) && AudioFilled(m.parser, STREAMS)
    ensures Total(PopAudio(m).parser.audioQueue) < Total(m.parser.audioQueue)
  {
    var q', q := PopAudio(m).parser.audioQueue, m.parser.audioQueue;
    var i :| 0 <= i < STREAMS && m.parser.audioStatus[i] == Started;
    assert |q'[i]| < |q[i]|;
    TotalShrinks(q', q);
  }

  /** Every call that selects a stream decreases the measure, so draining ends. */
  lemma CallDecreases(m: Mix)
    requires !m.crashed && Popped(m).1 != NoStream && Popped(m).1 != Crash
    ensures Decreases(Popped(m).0.parser, m.parser)
  {
    var (s1, choice) := Pick(m.parser);
    if choice.AudioStream? {
      AudioPopShrinks(m.(parser := s1));
    } else {
      VideoCallDecreases(m, s1, choice.pts);
    }
  }

  /** A video call starts the clock, pops a record, or moves the bucket closer to the audio. */
  lemma VideoCallDecreases(m: Mix, s1: Sched, t: nat)
    requires Pick(m.parser) == (s1, VideoStream(t))
    ensures Decreases(PopVideo(m.(parser := s1), t).parser, m.parser)
  {
    var s, m1 := m.parser, m.(parser := s1);
    VideoPopShrinks(m1, t);
    SameAudio(PopVideo(m1, t).parser, s);
    if s.hasStarted {
      BucketStep(s, AudioReady(s).ts);
    } else if !AnyPicture(s, STREAMS) {
      SpsPpsStampIsFront(s, |s.videoQueue|);
      var i :| 0 <= i < STREAMS && FrontIsSpsPps(s, i) && s.videoQueue[i][0].pts == SpsPpsStamp(s, |s.videoQueue|);
      assert HasFront(s1, i) && s1.videoQueue[i][0].pts <= t;
    }
  }

  lemma {:induction false} SameAudioStamp(s: Sched, s': Sched, n: nat)
    requires n <= STREAMS && s.audioQueue == s'.audioQueue && s.audioStatus == s'.audioStatus
    ensures AudioStamp(s, n) == AudioStamp(s', n)
  {
    if n > 0 {
      SameAudioStamp(s, s', n - 1);
    }
  }

  lemma SameAudio(s: Sched, s': Sched)
    requires s.audioQueue == s'.audioQueue && s.audioStatus == s'.audioStatus
    ensures AudioReady(s) == AudioReady(s')
  {
    SameAudioStamp(s, s', |s.audioQueue|);
  }

  // ----- popping keeps stamps proper; what crashes a run

  lemma {:induction false} DrainSuffix(q: seq<VideoRaw>, t: nat)
    ensures forall k :: 0 <= k < |DrainTo(q, t)| ==> DrainTo(q, t)[k] in q
    decreases |q|
  {
    if q != [] && q[0].pts <= t {
      DrainSuffix(q[1..], t);
    }
  }

  lemma PopsKeepStamps(m: Mix, t: nat)
    requires QueuesStamped(m.parser)
    ensures QueuesStamped(PopVideo(m, t).parser) && QueuesStamped(PopAudio(m).parser)
  {
    var s, v, a := m.parser, PopVideo(m, t).parser, PopAudio(m).parser;
    forall i, k | 0 <= i < STREAMS && 0 <= k < |v.videoQueue[i]|
      ensures v.videoQueue[i][k].pts < NO_STAMP
    {
      DrainSuffix(s.videoQueue[i], t);
      assert v.videoQueue[i][k] in s.videoQueue[i];
    }
    forall i, k | 0 <= i < STREAMS && 0 <= k < |a.audioQueue[i]|
      ensures a.audioQueue[i][k].pts < NO_STAMP
    {
      assert a.audioQueue[i][k] in s.audioQueue[i];
    }
  }

  lemma CallKeepsStamps(m: Mix)
    requires QueuesStamped(m.parser)
    ensures QueuesStamped(Popped(m).0.parser)
  {
    var (s, choice) := Pick(m.parser);
    var m1 := m.(parser := s);
    assert s.videoQueue == m.parser.videoQueue && s.audioQueue == m.parser.audioQueue;
    PopsKeepStamps(m1, if choice.VideoStream? then choice.pts else 0);
  }

  ghost predicate ProperStamps(e: Event) {
    match e
    case VideoParsed(_, u) => u.pts < NO_STAMP
    case AudioParsed(_, frames) => forall k :: 0 <= k < |frames| ==> frames[k].pts < NO_STAMP
    case _ => true
  }

  lemma AudioInStamped(s: Sched, i: nat, frames: seq<AudioRaw>)
    requires QueuesStamped(s) && i < STREAMS && forall k :: 0 <= k < |frames| ==> frames[k].pts < NO_STAMP
    ensures QueuesStamped(AudioIn(s, i, frames))
  {
    var s' := AudioIn(s, i, frames);
    assert s'.videoQueue == s.videoQueue;
    forall j, k | 0 <= j < STREAMS && 0 <= k < |s'.audioQueue[j]|
      ensures s'.audioQueue[j][k].pts < NO_STAMP
    {
      assert s'.audioQueue[j][k] in s.audioQueue[j] || s'.audioQueue[j][k] in frames;
    }
  }

  lemma StepKeepsStamps(m: Mix, e: Event)
    requires QueuesStamped(m.parser) && ProperStamps(e)
    ensures QueuesStamped(Step(m, e).parser)
  {
    CallKeepsStamps(m);
    if e.AudioParsed? && e.id < STREAMS {
      AudioInStamped(m.parser, e.id, e.frames);
    }
  }

  /** A picture before any SPS/PPS, or a call while a started clock sees an SPS/PPS front past its limit. */
  ghost predicate Hazard(m: Mix, e: Event) {
    match e
    case VideoParsed(i, u) => i < STREAMS && DecoderAsserts(m.parser, i, u)
    case OutputAsked(_) =>
      AudioReady(m.parser).Ready? && m.parser.hasStarted && LateSpsPps(m.parser, AudioReady(m.parser).ts)
    case _ => false
  }

  ghost predicate HazardFree(m: Mix, es: seq<Event>)
    decreases |es|
  {
    es == [] || (!Hazard(m, es[0]) && HazardFree(Step(m, es[0]), es[1..]))
  }

  lemma CrashExact(m: Mix, e: Event)
    requires !m.crashed && QueuesStamped(m.parser)
    ensures Step(m, e).crashed <==> Hazard(m, e)
  {
    if e.OutputAsked? && AudioReady(m.parser).Ready? {
      AssertsExact(m.parser, AudioReady(m.parser).ts);
    }
  }

  /** A run fails an assert or dereferences null exactly when it meets one of these two hazards. */
  lemma {:induction false} RunCrashExact(m: Mix, es: seq<Event>)
    requires !m.crashed && QueuesStamped(m.parser) && forall e :: e in es ==> ProperStamps(e)
    ensures Run(m, es).crashed <==> !HazardFree(m, es)
    decreases |es|
  {
    if es != [] {
      CrashExact(m, es[0]);
      StepKeepsStamps(m, es[0]);
      if Hazard(m, es[0]) {
        CrashedStays(Step(m, es[0]), es[1..]);
      } else {
        RunCrashExact(Step(m, es[0]), es[1..]);
      }
    }
  }
}
