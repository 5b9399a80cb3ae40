/** What the 30 fps bucket clock guarantees: its asserts, its grid, and when a bucket is due. */
module BucketClock {
  import opened BitMask
  import opened Scheduling

  /** Every queued stamp is a proper u32 stamp. */
  ghost predicate QueuesStamped(s: Sched) {
    (forall i, k :: 0 <= i < STREAMS && 0 <= k < |s.videoQueue[i]| ==> s.videoQueue[i][k].pts < NO_STAMP) &&
    (forall i, k :: 0 <= i < STREAMS && 0 <= k < |s.audioQueue[i]| ==> s.audioQueue[i][k].pts < NO_STAMP)
  }

  /** The fold is the maximum over the fronts that take part. */
  lemma {:induction false} FrameStampIsMax(s: Sched, limit: nat, n: nat)
    requires n <= STREAMS && QueuesStamped(s)
    ensures var f := FrameStamp(s, limit, n);
            (f == NO_STAMP <==> forall i :: 0 <= i < n ==> !Recorded(s, limit, i)) &&
            (f != NO_STAMP ==> exists i :: 0 <= i < n && Recorded(s, limit, i) && s.videoQueue[i][0].pts == f) &&
            (forall i :: 0 <= i < n && Recorded(s, limit, i) ==> s.videoQueue[i][0].pts <= f)
    ensures FrameStamp(s, limit, n) <= NO_STAMP
  {
    if n > 0 {
      FrameStampIsMax(s, limit, n - 1);
      if Recorded(s, limit, n - 1) {
        assert s.videoQueue[n - 1][0].pts < NO_STAMP;
      }
    }
  }

  lemma {:induction false} AudioStampIsMin(s: Sched, n: nat)
    requires n <= STREAMS && QueuesStamped(s) && AudioFilled(s, n)
    ensures var a := AudioStamp(s, n);
            (!AnyAudio(s, n) ==> a == NO_STAMP) &&
            (AnyAudio(s, n) ==>
                a < NO_STAMP && exists i :: 0 <= i < n && s.audioStatus[i] == Started && s.audioQueue[i][0].pts == a) &&
            (forall i :: 0 <= i < n && s.audioStatus[i] == Started ==> a <= s.audioQueue[i][0].pts)
  {
    if n > 0 {
      AudioStampIsMin(s, n - 1);
      if s.audioStatus[n - 1] == Started {
        var front, rest := s.audioQueue[n - 1][0].pts, AudioStamp(s, n - 1);
        assert front < NO_STAMP;
        if !AnyAudio(s, n - 1) || front <= rest {
          assert s.audioStatus[n - 1] == Started && s.audioQueue[n - 1][0].pts == AudioStamp(s, n);
        } else {
          var i :| 0 <= i < n - 1 && s.audioStatus[i] == Started && s.audioQueue[i][0].pts == rest;
          assert s.audioStatus[i] == Started && s.audioQueue[i][0].pts == AudioStamp(s, n);
        }
      }
    }
  }

  /** An SPS/PPS record at the front of a started queue whose stamp is past the limit. */
  ghost predicate LateSpsPps(s: Sched, audioTs: nat) {
    exists i :: 0 <= i < STREAMS && FrontIsSpsPps(s, i) && s.videoQueue[i][0].pts > Limit(s, audioTs)
  }

  /**
   The two asserts of the query fail exactly when an SPS/PPS front, which the limit does not
   filter, is past the limit.
   */
  lemma AssertsExact(s: Sched, audioTs: nat)
    requires QueuesStamped(s)
    ensures VideoReady(s, audioTs).1.AssertFails? <==> s.hasStarted && LateSpsPps(s, audioTs)
  {
    var limit := Limit(s, audioTs);
    FrameStampIsMax(s, limit, |s.videoQueue|);
    var f := FrameStamp(s, limit, |s.videoQueue|);
    if s.hasStarted {
      if LateSpsPps(s, audioTs) {
        var i :| 0 <= i < STREAMS && FrontIsSpsPps(s, i) && s.videoQueue[i][0].pts > limit;
        assert Recorded(s, limit, i);
        assert f > limit;
      } else if f != NO_STAMP {
        var i :| 0 <= i < STREAMS && Recorded(s, limit, i) && s.videoQueue[i][0].pts == f;
        assert f <= limit;
      }
    }
  }

  /** Once started, a bucket moves forward along the grid, and never past the audio. */
  lemma BucketStep(s: Sched, audioTs: nat)
    requires s.hasStarted
    ensures var (s', r) := VideoReady(s, audioTs);
            s'.hasStarted &&
            if r.Ready? then
              s'.lastBucket > s.lastBucket && (s'.lastBucket - s.lastBucket) % INTERVAL == 0 &&
              s'.lastBucket <= 3 * audioTs && r.ts == s'.lastBucket / 3 <= audioTs
            else s' == s
  {
  }

  /** Once started, a bucket is reported exactly when audio has reached it and some front takes part. */
  lemma BucketDue(s: Sched, audioTs: nat)
    requires s.hasStarted && QueuesStamped(s) && !LateSpsPps(s, audioTs)
    ensures VideoReady(s, audioTs).1.Ready? <==>
            3 * audioTs >= NextBucket(s) && exists i :: 0 <= i < STREAMS && Recorded(s, Limit(s, audioTs), i)
  {
    AssertsExact(s, audioTs);
    FrameStampIsMax(s, Limit(s, audioTs), |s.videoQueue|);
  }

  /** The first bucket starts the grid at the latest picture or SPS/PPS front. */
  lemma FirstBucket(s: Sched, audioTs: nat)
    requires !s.hasStarted && QueuesStamped(s) && AnyPicture(s, STREAMS)
    ensures var (s', r) := VideoReady(s, audioTs);
            s'.hasStarted && r.Ready? && s'.lastBucket == 3 * r.ts && r.ts < NO_STAMP &&
            (exists i :: 0 <= i < STREAMS && HasFront(s, i) && s.videoQueue[i][0].pts == r.ts) &&
            (forall i :: 0 <= i < STREAMS && HasFront(s, i) ==> s.videoQueue[i][0].pts <= r.ts)
  {
    var limit := Limit(s, audioTs);
    FrameStampIsMax(s, limit, |s.videoQueue|);
    var p :| 0 <= p < STREAMS && FrontIsPicture(s, p);
    assert Recorded(s, limit, p);
    assert forall i :: 0 <= i < STREAMS && HasFront(s, i) ==> Recorded(s, limit, i);
  }

  /** Before the start, an SPS/PPS front is reported at its own stamp, so that it is popped at once. */
  lemma {:induction false} SpsPpsStampIsFront(s: Sched, n: nat)
    requires n <= STREAMS && AnySpsPps(s, n)
    ensures exists i :: 0 <= i < n && FrontIsSpsPps(s, i) && s.videoQueue[i][0].pts == SpsPpsStamp(s, n)
  {
    if !FrontIsSpsPps(s, n - 1) {
      SpsPpsStampIsFront(s, n - 1);
    }
  }

  // ----- which bucket is reported, in terms of the fronts alone

  /** The last grid point not past the audio; the grid goes on before its start. */
  function LastGridPoint(last: nat, audioTs: nat): (g: int)
    ensures (g - last) % 100 == 0 && g <= 3 * audioTs < g + 100
  {
    last + 100 * ((3 * audioTs - last) / 100)
  }

  /** What a picture may be stamped to take part: the larger of next bucket and last grid point, in whole ms. */
  function LimitMs(last: nat, audioTs: nat): nat {
    var g := LastGridPoint(last, audioTs);
    if g > last + 100 then g / 3 else (last + 100) / 3
  }

  /** Some started stream's front, picture or header, is stamped at or before `ms`. */
  ghost predicate FrontBy(s: Sched, ms: nat) {
    exists i :: 0 <= i < 32 && s.videoStatus[i] == Started && s.videoQueue[i] != [] && s.videoQueue[i][0].pts <= ms
  }

  /** Every front stamped at or before `ms` is stamped at or before `due`. */
  ghost predicate FrontsBy(s: Sched, ms: nat, due: nat) {
    forall i :: 0 <= i < 32 && s.videoStatus[i] == Started && s.videoQueue[i] != [] && s.videoQueue[i][0].pts <= ms ==>
      s.videoQueue[i][0].pts <= due
  }

  /** No started stream's front is a header stamped after `ms`. */
  ghost predicate HeadersBy(s: Sched, ms: nat) {
    forall i :: 0 <= i < 32 && s.videoStatus[i] == Started && s.videoQueue[i] != [] && s.videoQueue[i][0].isSpsPps ==>
      s.videoQueue[i][0].pts <= ms
  }

  /**
   The bucket due: the next one while every front that takes part is due by then, and otherwise
   the last grid point not past the audio.
   */
  ghost function BucketFor(s: Sched, audioTs: nat): int {
    if FrontsBy(s, LimitMs(s.lastBucket, audioTs), (s.lastBucket + 100) / 3) then s.lastBucket + 100
    else LastGridPoint(s.lastBucket, audioTs)
  }

  lemma GridPointUnique(last: nat, a: int, b: int, t: int)
    requires (a - last) % 100 == 0 && (b - last) % 100 == 0 && a <= t < a + 100 && b <= t < b + 100
    ensures a == b
  {
  }

  lemma LimitIsLimit(s: Sched, audioTs: nat)
    ensures Limit(s, audioTs) == LimitMs(s.lastBucket, audioTs)
    ensures 3 * audioTs >= s.lastBucket ==> AudioBucket(s, audioTs) == LastGridPoint(s.lastBucket, audioTs)
    ensures 3 * audioTs < s.lastBucket ==> AudioBucket(s, audioTs) <= s.lastBucket
  {
    var g := LastGridPoint(s.lastBucket, audioTs);
    if 3 * audioTs >= s.lastBucket {
      GridPointUnique(s.lastBucket, g, AudioBucket(s, audioTs), 3 * audioTs);
    }
  }

  /** A started clock's answer, whole: whether a bucket is reported, which, and that nothing else changes. */
  lemma BucketExactly(s: Sched, audioTs: nat)
    requires s.hasStarted && QueuesStamped(s) && HeadersBy(s, LimitMs(s.lastBucket, audioTs))
    ensures var limit, b := LimitMs(s.lastBucket, audioTs), BucketFor(s, audioTs);
            VideoReady(s, audioTs) ==
            if 3 * audioTs >= s.lastBucket + 100 && FrontBy(s, limit) then (s.(lastBucket := b), Ready(b / 3))
            else (s, NotReady)
  {
    var limit := LimitMs(s.lastBucket, audioTs);
    LimitIsLimit(s, audioTs);
    FrameStampIsMax(s, limit, |s.videoQueue|);
    assert forall i :: 0 <= i < STREAMS ==>
      (Recorded(s, limit, i) <==>
       s.videoStatus[i] == Started && s.videoQueue[i] != [] && s.videoQueue[i][0].pts <= limit);
    var f := FrameStamp(s, limit, |s.videoQueue|);
    if f != NO_STAMP {
      var i :| 0 <= i < STREAMS && Recorded(s, limit, i) && s.videoQueue[i][0].pts == f;
      assert FrontBy(s, limit) && f <= limit;
      assert FrontsBy(s, limit, (s.lastBucket + 100) / 3) <==> f <= (s.lastBucket + 100) / 3;
    }
  }

  /** A query that fails no assert has met no late header. */
  lemma HeadersInTime(s: Sched, audioTs: nat)
    requires s.hasStarted && QueuesStamped(s) && !VideoReady(s, audioTs).1.AssertFails?
    ensures HeadersBy(s, LimitMs(s.lastBucket, audioTs))
  {
    AssertsExact(s, audioTs);
    LimitIsLimit(s, audioTs);
    assert forall i :: 0 <= i < STREAMS ==>
      (FrontIsSpsPps(s, i) <==>
       s.videoStatus[i] == Started && s.videoQueue[i] != [] && s.videoQueue[i][0].isSpsPps);
  }

  /** Before the start, with a picture at some front: the clock starts at the latest front. */
  lemma StartExactly(s: Sched, audioTs: nat, k: nat)
    requires !s.hasStarted && QueuesStamped(s) && k < 32
    requires s.videoStatus[k] == Started && s.videoQueue[k] != [] && !s.videoQueue[k][0].isSpsPps
    ensures var (s', r) := VideoReady(s, audioTs);
            r.Ready? && s' == s.(hasStarted := true, lastBucket := 3 * r.ts) &&
            (exists i :: 0 <= i < 32 && s.videoStatus[i] == Started && s.videoQueue[i] != [] &&
                         s.videoQueue[i][0].pts == r.ts) &&
            forall i :: 0 <= i < 32 && s.videoStatus[i] == Started && s.videoQueue[i] != [] ==>
              s.videoQueue[i][0].pts <= r.ts
  {
    assert FrontIsPicture(s, k);
    FirstBucket(s, audioTs);
  }

  /**
   Before the start, with headers only: the header of the last stream that has one; the grid
   moves up to the audio.
   */
  lemma HeaderExactly(s: Sched, audioTs: nat, k: nat)
    requires !s.hasStarted && k < 32 && s.videoStatus[k] == Started && s.videoQueue[k] != []
    requires forall i :: 0 <= i < 32 && s.videoStatus[i] == Started && s.videoQueue[i] != [] ==>
               s.videoQueue[i][0].isSpsPps && i <= k
    ensures var (s', r) := VideoReady(s, audioTs);
            r == Ready(s.videoQueue[k][0].pts) && s' == s.(lastBucket := s'.lastBucket) &&
            if 3 * audioTs >= s.lastBucket then s'.lastBucket == LastGridPoint(s.lastBucket, audioTs)
            else (s.lastBucket - s'.lastBucket) % 100 == 0 && s'.lastBucket - 100 < 3 * audioTs <= s'.lastBucket
  {
    LimitIsLimit(s, audioTs);
    assert FrontIsSpsPps(s, k);
    LastHeader(s, k, |s.videoQueue|);
  }

  /** Before the start, with nothing to show. */
  lemma NothingExactly(s: Sched, audioTs: nat)
    requires !s.hasStarted && forall i :: 0 <= i < 32 && s.videoStatus[i] == Started ==> s.videoQueue[i] == []
    ensures VideoReady(s, audioTs) == (s, NotReady)
  {
    assert !AnyPicture(s, STREAMS) && !AnySpsPps(s, STREAMS);
  }

  lemma {:induction false} LastHeader(s: Sched, k: nat, n: nat)
    requires k < n <= STREAMS && FrontIsSpsPps(s, k) && forall i :: k < i < n ==> !FrontIsSpsPps(s, i)
    ensures SpsPpsStamp(s, n) == s.videoQueue[k][0].pts
    decreases n
  {
    if n > k + 1 {
      LastHeader(s, k, n - 1);
    }
  }

  /** Audio is ready exactly when some stream is started and no started one is out of frames, at the least front. */
  lemma AudioExactly(s: Sched)
    requires QueuesStamped(s)
    ensures AudioReady(s).Ready? <==>
            (exists i :: 0 <= i < 32 && s.audioStatus[i] == Started) &&
            forall i :: 0 <= i < 32 && s.audioStatus[i] == Started ==> s.audioQueue[i] != []
    ensures AudioReady(s).Ready? ==>
              (exists i :: 0 <= i < 32 && s.audioStatus[i] == Started && s.audioQueue[i][0].pts == AudioReady(s).ts) &&
              forall i :: 0 <= i < 32 && s.audioStatus[i] == Started ==> AudioReady(s).ts <= s.audioQueue[i][0].pts
    ensures !AudioReady(s).AssertFails?
  {
    if AudioReady(s).Ready? {
      AudioStampIsMin(s, |s.audioQueue|);
    }
  }
}
