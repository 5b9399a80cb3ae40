/**
 Audio is continuous: every audio output takes one frame from every started stream, and output
 stamps never go back.
 */
module AudioLockstep {
  import opened BitMask
  import opened Scheduling
  import opened BucketClock
  import opened Mixing
  import opened MixingRuns

  /**
   An audio call never meets an empty queue, so the cached-frame fallback that would
   dereference a null frame is unreachable; exactly the fronts of the started streams are
   popped, cached and marked valid.
   */
  lemma LockstepPops(m: Mix)
    requires !m.crashed && Popped(m).1.AudioStream?
    ensures var m' := Popped(m).0; var s, s' := m.parser, Popped(m).0.parser;
            !m'.crashed && s'.videoQueue == s.videoQueue &&
            forall i :: 0 <= i < STREAMS ==>
              if s.audioStatus[i] == Started then
                AudioOn(m', i) && s.audioQueue[i] == [m'.rawAudio[i].value] + s'.audioQueue[i]
              else s'.audioQueue[i] == s.audioQueue[i] && !AudioOn(m', i)
    ensures AnyAudioOn(Popped(m).0)
  {
    var s := m.parser;
    var m' := Popped(m).0;
    var k :| 0 <= k < STREAMS && s.audioStatus[k] == Started;
    assert AudioOn(m', k);
    forall i | 0 <= i < STREAMS && s.audioStatus[i] == Started
      ensures AudioOn(m', i) && s.audioQueue[i] == [m'.rawAudio[i].value] + m'.parser.audioQueue[i]
    {
      assert s.audioQueue[i] == [s.audioQueue[i][0]] + s.audioQueue[i][1..];
    }
  }

  /** The stamp last queued for each stream. */
  type Stamps = s: seq<nat> | |s| == 32 witness seq(32, _ => 0)

  ghost predicate Ascending(frames: seq<AudioRaw>) {
    forall j, k :: 0 <= j < k < |frames| ==> frames[j].pts <= frames[k].pts
  }

  function LastStamp(frames: seq<AudioRaw>, before: nat): nat {
    if frames == [] then before else frames[|frames| - 1].pts
  }

  /**
   What may arrive for stream i when the last audio output was stamped `low`: for a started
   stream, frames in order behind its last; for a stream that joins (or comes back after a
   mask took it offline), frames that leave its whole queue in order and not before `low`.
   */
  ghost predicate ArrivesInOrder(s: Sched, i: nat, frames: seq<AudioRaw>, low: nat, last: Stamps)
    requires i < STREAMS
  {
    (forall k :: 0 <= k < |frames| ==> frames[k].pts < NO_STAMP) &&
    if s.audioStatus[i] == Started then
      Ascending(frames) && forall k :: 0 <= k < |frames| ==> last[i] <= frames[k].pts
    else
      Ascending(s.audioQueue[i] + frames) && forall v :: v in s.audioQueue[i] + frames ==> low <= v.pts
  }

  function LastAfter(s: Sched, i: nat, frames: seq<AudioRaw>, low: nat, last: Stamps): Stamps
    requires i < STREAMS
  {
    var stamp := if s.audioStatus[i] == Started then LastStamp(frames, last[i])
                 else LastStamp(s.audioQueue[i] + frames, low);
    last[i := stamp]
  }

  /** The stamp no later audio output may fall behind. */
  function LowAfter(m: Mix, low: nat): nat {
    if !m.crashed && CallOf(m).choice.AudioStream? then CallOf(m).choice.pts else low
  }

  /**
   Every stream's stamps arrive in order, and no stream joins behind the audio output so far.
   Masks may take any stream offline.
   */
  ghost predicate InOrderRun(m: Mix, es: seq<Event>, low: nat, last: Stamps)
    decreases |es|
  {
    es == [] ||
    (match es[0]
     case AudioParsed(i, frames) =>
       if i < STREAMS then
         ArrivesInOrder(m.parser, i, frames, low, last) &&
         InOrderRun(Step(m, es[0]), es[1..], low, LastAfter(m.parser, i, frames, low, last))
       else InOrderRun(Step(m, es[0]), es[1..], low, last)
     case VideoParsed(_, u) => u.pts < NO_STAMP && InOrderRun(Step(m, es[0]), es[1..], low, last)
     case OutputAsked(_) => InOrderRun(Step(m, es[0]), es[1..], LowAfter(m, low), last)
     case _ => InOrderRun(Step(m, es[0]), es[1..], low, last))
  }

  /** A queue in order, holding nothing stamped before `low` or after `last`. */
  ghost predicate QueueFrom(q: seq<AudioRaw>, low: nat, last: nat) {
    low <= last && Ascending(q) && forall k :: 0 <= k < |q| ==> low <= q[k].pts <= last
  }

  /** Every started stream's queue is like that. */
  ghost predicate QueuesFrom(s: Sched, low: nat, last: Stamps) {
    QueuesStamped(s) &&
    forall i :: 0 <= i < STREAMS && s.audioStatus[i] == Started ==> QueueFrom(s.audioQueue[i], low, last[i])
  }

  /** Stamps of the audio calls of a run. */
  function AudioStamps(calls: seq<Call>): seq<nat>
    decreases |calls|
  {
    if calls == [] then []
    else (if calls[0].choice.AudioStream? then [calls[0].choice.pts] else []) + AudioStamps(calls[1..])
  }

  ghost predicate NeverBack(low: nat, stamps: seq<nat>)
    decreases |stamps|
  {
    stamps == [] || (low <= stamps[0] && NeverBack(stamps[0], stamps[1..]))
  }

  lemma QueueGrows(q: seq<AudioRaw>, frames: seq<AudioRaw>, low: nat, last: nat)
    requires QueueFrom(q, low, last) && Ascending(frames) && forall k :: 0 <= k < |frames| ==> last <= frames[k].pts
    ensures QueueFrom(q + frames, low, LastStamp(frames, last))
  {
  }

  lemma QueueJoins(q: seq<AudioRaw>, low: nat)
    requires Ascending(q) && forall v :: v in q ==> low <= v.pts
    ensures QueueFrom(q, low, LastStamp(q, low))
  {
    assert forall k :: 0 <= k < |q| ==> q[k] in q;
  }

  lemma AudioInKeeps(s: Sched, i: nat, frames: seq<AudioRaw>, low: nat, last: Stamps)
    requires QueuesFrom(s, low, last) && i < STREAMS && ArrivesInOrder(s, i, frames, low, last)
    ensures QueuesFrom(AudioIn(s, i, frames), low, LastAfter(s, i, frames, low, last))
  {
    AudioInStamped(s, i, frames);
    if s.audioStatus[i] == Started {
      QueueGrows(s.audioQueue[i], frames, low, last[i]);
    } else {
      QueueJoins(s.audioQueue[i] + frames, low);
    }
  }

  /** A mask only takes streams away. */
  lemma MaskKeeps(s: Sched, mask: nat, low: nat, last: Stamps)
    requires QueuesFrom(s, low, last)
    ensures QueuesFrom(ApplyMask(s, mask), low, last)
  {
    var s' := ApplyMask(s, mask);
    assert forall i :: 0 <= i < STREAMS && s'.audioStatus[i] == Started ==> s.audioStatus[i] == Started;
  }

  lemma VideoInKeeps(s: Sched, i: nat, u: VideoUnit, low: nat, last: Stamps)
    requires QueuesFrom(s, low, last) && i < STREAMS && u.pts < NO_STAMP
    ensures QueuesFrom(VideoIn(s, i, u), low, last)
  {
    var s' := VideoIn(s, i, u);
    assert s'.audioQueue == s.audioQueue && s'.audioStatus == s.audioStatus;
  }

  lemma PopVideoKeeps(m: Mix, t: nat, low: nat, last: Stamps)
    requires QueuesFrom(m.parser, low, last)
    ensures QueuesFrom(PopVideo(m, t).parser, low, last)
  {
    var s, s' := m.parser, PopVideo(m, t).parser;
    assert s'.audioQueue == s.audioQueue;
    PopsKeepStamps(m, t);
  }

  lemma QueuePops(q: seq<AudioRaw>, low: nat, last: nat, a: nat)
    requires QueueFrom(q, low, last) && q != [] && a <= q[0].pts
    ensures QueueFrom(q[1..], a, last)
  {
    assert forall k :: 0 <= k < |q[1..]| ==> q[1..][k] == q[k + 1];
  }

  /** After an audio call nothing stamped before it is left. */
  lemma PopAudioKeeps(m: Mix, low: nat, last: Stamps)
    requires QueuesFrom(m.parser, low, last) && AudioReady(m.parser).Ready?
    ensures var a := AudioReady(m.parser).ts; low <= a && QueuesFrom(PopAudio(m).parser, a, last)
  {
    var s, s' := m.parser, PopAudio(m).parser;
    var a := AudioReady(s).ts;
    AudioStampIsMin(s, |s.audioQueue|);
    forall i | 0 <= i < STREAMS && s.audioStatus[i] == Started
      ensures QueueFrom(s'.audioQueue[i], a, last[i])
    {
      QueuePops(s.audioQueue[i], low, last[i], a);
    }
    PopsKeepStamps(m, a);
  }

  /** Only the queues and the audio statuses matter. */
  lemma SameQueues(s: Sched, s': Sched, low: nat, last: Stamps)
    requires QueuesFrom(s, low, last)
    requires s'.audioQueue == s.audioQueue && s'.videoQueue == s.videoQueue && s'.audioStatus == s.audioStatus
    ensures QueuesFrom(s', low, last)
  {
  }

  lemma CallKeeps(m: Mix, low: nat, last: Stamps)
    requires QueuesFrom(m.parser, low, last) && !m.crashed
    ensures var (m', choice) := Popped(m);
            if choice.AudioStream? then low <= choice.pts && QueuesFrom(m'.parser, choice.pts, last)
            else QueuesFrom(m'.parser, low, last)
  {
    var (s, choice) := Pick(m.parser);
    var m1 := m.(parser := s);
    SameQueues(m.parser, s, low, last);
    if choice.AudioStream? {
      SameAudio(s, m.parser);
      PopAudioKeeps(m1, low, last);
    } else if choice.VideoStream? {
      PopVideoKeeps(m1, choice.pts, low, last);
    }
  }

  /** The step is a call that outputs audio. */
  predicate OutputsAudio(m: Mix, e: Event) {
    e.OutputAsked? && !m.crashed && CallOf(m).choice.AudioStream?
  }

  lemma StampsSplit(m: Mix, es: seq<Event>)
    requires es != []
    ensures var rest := AudioStamps(Calls(Step(m, es[0]), es[1..]));
            AudioStamps(Calls(m, es)) == if OutputsAudio(m, es[0]) then [CallOf(m).choice.pts] + rest else rest
  {
    var rest := Calls(Step(m, es[0]), es[1..]);
    if es[0].OutputAsked? && !m.crashed {
      assert Calls(m, es) == [CallOf(m)] + rest;
      assert ([CallOf(m)] + rest)[1..] == rest;
    } else {
      assert Calls(m, es) == rest;
    }
  }

  lemma QuietStepKeeps(m: Mix, e: Event, low: nat, last: Stamps)
    requires QueuesFrom(m.parser, low, last) && !e.OutputAsked? && !e.AudioParsed?
    requires e.VideoParsed? ==> e.u.pts < NO_STAMP
    ensures QueuesFrom(Step(m, e).parser, low, last)
  {
    if e.VideoParsed? && e.id < STREAMS {
      VideoInKeeps(m.parser, e.id, e.u, low, last);
    } else if e.MaskSeen? {
      MaskKeeps(m.parser, e.mask, low, last);
    }
  }

  /**
   Over any run in which every stream's stamps arrive in order and none joins behind the output,
   audio stamps never decrease.
   */
  lemma {:induction false} AudioNeverBack(m: Mix, es: seq<Event>, low: nat, last: Stamps)
    requires QueuesFrom(m.parser, low, last) && InOrderRun(m, es, low, last)
    ensures NeverBack(low, AudioStamps(Calls(m, es)))
    decreases |es|
  {
    if m.crashed {
      CrashedStays(m, es);
    } else if es != [] {
      var m' := Step(m, es[0]);
      StampsSplit(m, es);
      match es[0]
      case AudioParsed(i, frames) =>
        if i < STREAMS {
          AudioInKeeps(m.parser, i, frames, low, last);
          AudioNeverBack(m', es[1..], low, LastAfter(m.parser, i, frames, low, last));
        } else {
          AudioNeverBack(m', es[1..], low, last);
        }
      case OutputAsked(codec) =>
        CallKeeps(m, low, last);
        AudioNeverBack(m', es[1..], LowAfter(m, low), last);
        if CallOf(m).choice.AudioStream? {
          var a, rest := CallOf(m).choice.pts, AudioStamps(Calls(m', es[1..]));
          assert ([a] + rest)[1..] == rest;
        }
      case _ =>
        QuietStepKeeps(m, es[0], low, last);
        AudioNeverBack(m', es[1..], low, last);
    }
  }

  const NOTHING_QUEUED: Stamps := seq(32, _ => 0)

  /** From start-up. */
  lemma AudioNeverBackFromStart(es: seq<Event>)
    requires InOrderRun(START, es, 0, NOTHING_QUEUED)
    ensures NeverBack(0, AudioStamps(Calls(START, es)))
  {
    AudioNeverBack(START, es, 0, NOTHING_QUEUED);
  }

  /** A call goes back behind `low` exactly when some started stream's front is stamped before it. */
  lemma GoesBackExact(s: Sched, low: nat)
    requires QueuesStamped(s) && AudioReady(s).Ready?
    ensures AudioReady(s).ts < low <==>
            exists i :: 0 <= i < STREAMS && s.audioStatus[i] == Started && s.audioQueue[i][0].pts < low
  {
    AudioStampIsMin(s, |s.audioQueue|);
  }
}
