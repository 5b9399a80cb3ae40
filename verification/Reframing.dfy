/**
 AudioResampler's reframing loop: converted samples are cut into frames of 1152, with a
 residual kept between calls. A sample is one value per channel group; rate conversion
 itself is left to libsamplerate.
 */
module Reframing {
  import opened Bytes

  const FRAME: nat := 1152

  /**
   `rem` is the whole residual buffer (2304 samples for mono, 1152 for stereo), of which the
   first `cnt` are live; `list` is mp3FrameList_.
   */
  datatype Resampler = Resampler(rem: seq<int>, cnt: nat, list: seq<seq<int>>)

  /** `s` with `d` written over it from `at` on. */
  function Overwrite(s: seq<int>, at: nat, d: seq<int>): (r: seq<int>)
    requires at + |d| <= |s|
    ensures |r| == |s|
  {
    s[..at] + d + s[at + |d|..]
  }

  /** One turn of the loop: the new state, how many samples it used up, and samplesToSkip. */
  datatype Turned = Turned(r: Resampler, used: nat, skip: nat) | Overflow

  /** `left` samples of this call's output remain; the residual branch always reads from its beginning. */
  function Turn(r: Resampler, left: nat, skip: nat, out: seq<int>): (t: Turned)
    requires 0 < left && skip + left <= |out| && FRAME <= |r.rem|
    ensures t.Turned? ==> 0 < t.used <= left && t.skip <= t.used && |t.r.rem| == |r.rem|
  {
    if r.cnt != 0 then
      if r.cnt + left >= FRAME then
        if r.cnt >= FRAME then Overflow
        else
          var take := FRAME - r.cnt;
          Turned(Resampler(r.rem, 0, r.list + [r.rem[..r.cnt] + out[..take]]), take, take)
      else Turned(Resampler(Overwrite(r.rem, r.cnt, out[..left]), r.cnt + left, r.list), left, 0)
    else
      if left >= FRAME then Turned(Resampler(r.rem, left - FRAME, r.list + [out[..FRAME]]), FRAME, FRAME)
      else Turned(Resampler(Overwrite(r.rem, 0, out[skip..skip + left]), left, r.list), left, 0)
  }

  /** The whole loop; `None` when a residual longer than a frame would overrun the frame buffer. */
  function Resampled(r: Resampler, left: nat, skip: nat, out: seq<int>): Option<Resampler>
    requires skip + left <= |out| && FRAME <= |r.rem|
    decreases left
  {
    if left == 0 then Some(r)
    else match Turn(r, left, skip, out)
      case Overflow => None
      case Turned(r', used, skip') => Resampled(r', left - used, skip', out)
  }

  /** Frames in order, then what is left over. */
  function Held(r: Resampler): seq<int>
    requires r.cnt <= |r.rem|
  {
    Flatten(r.list) + r.rem[..r.cnt]
  }

  ghost predicate Valid(r: Resampler) {
    FRAME <= |r.rem| && r.cnt < FRAME
  }

  /** No sample is lost, repeated or moved. */
  ghost predicate Conserves(r: Resampler, out: seq<int>)
    requires Valid(r)
  {
    match Resampled(r, |out|, 0, out)
    case None => false
    case Some(r') => r'.cnt <= |r'.rem| && Held(r') == Held(r) + out
  }

  /** What a caller can check: the residual and the new samples do not make more than the loop can handle. */
  predicate Manageable(cnt: nat, n: nat) {
    if cnt == 0 then n <= FRAME else cnt + n < 2 * FRAME
  }

  lemma ManageableConserves(r: Resampler, out: seq<int>)
    requires Valid(r) && Manageable(r.cnt, |out|)
    ensures Conserves(r, out)
    ensures var r' := Resampled(r, |out|, 0, out).value;
            Valid(r') && r'.cnt == NextCount(r.cnt, |out|) && |r'.list| <= |r.list| + 1 && r.list <= r'.list &&
                |r'.rem| == |r.rem| &&
            forall k :: |r.list| <= k < |r'.list| ==> |r'.list[k]| == FRAME
  {
    if out == [] {
      assert Held(r) + out == Held(r);
    } else if r.cnt + |out| < FRAME {
      assert out[..|out|] == out && out[0..0 + |out|] == out;
      var r' := Resampler(Overwrite(r.rem, r.cnt, out), r.cnt + |out|, r.list);
      assert Turn(r, |out|, 0, out) == Turned(r', |out|, 0);
      assert Resampled(r', 0, 0, out) == Some(r');
      assert r'.rem[..r'.cnt] == r.rem[..r.cnt] + out;
      ConcatAssoc(Flatten(r.list), r.rem[..r.cnt], out);
    } else {
      FrameCompleted(r, out);
    }
  }

  /** A call that completes a frame: the frame joins residual and samples, and the rest is the new residual. */
  lemma FrameCompleted(r: Resampler, out: seq<int>)
    requires Valid(r) && Manageable(r.cnt, |out|) && r.cnt + |out| >= FRAME
    ensures Resampled(r, |out|, 0, out) == Some(WithFrame(r, out))
    ensures Conserves(r, out)
  {
    var take := FRAME - r.cnt;
    AfterFrame(r, out);
    HeldAfterFrame(r, WithFrame(r, out), out, take);
  }

  lemma AfterFrame(r: Resampler, out: seq<int>)
    requires Valid(r) && Manageable(r.cnt, |out|) && r.cnt + |out| >= FRAME
    ensures Resampled(r, |out|, 0, out) == Some(WithFrame(r, out))
  {
    var take := FRAME - r.cnt;
    var r1 := Resampler(r.rem, 0, r.list + [r.rem[..r.cnt] + out[..take]]);
    FirstTurn(r, out);
    OneTurn(r, |out|, 0, out);
    if take == |out| {
      assert Overwrite(r.rem, 0, []) == r.rem;
      assert out[take..] == [];
    } else {
      RestKept(r1, WithFrame(r, out), out, take);
    }
  }

  lemma OneTurn(r: Resampler, left: nat, skip: nat, out: seq<int>)
    requires 0 < left && skip + left <= |out| && FRAME <= |r.rem|
    ensures var t := Turn(r, left, skip, out);
            Resampled(r, left, skip, out) == if t.Overflow? then None else Resampled(t.r, left - t.used, t.skip, out)
  {
  }

  function WithFrame(r: Resampler, out: seq<int>): Resampler
    requires Valid(r) && FRAME - r.cnt <= |out| < 2 * FRAME - r.cnt
  {
    var take := FRAME - r.cnt;
    Resampler(Overwrite(r.rem, 0, out[take..]), |out| - take, r.list + [r.rem[..r.cnt] + out[..take]])
  }

  lemma FirstTurn(r: Resampler, out: seq<int>)
    requires Valid(r) && Manageable(r.cnt, |out|) && r.cnt + |out| >= FRAME
    ensures var take := FRAME - r.cnt;
            Turn(r, |out|, 0, out) == Turned(Resampler(r.rem, 0, r.list + [r.rem[..r.cnt] + out[..take]]), take, take)
  {
    if r.cnt == 0 {
      assert r.rem[..0] + out[..FRAME] == out[..FRAME];
    }
  }

  lemma RestKept(r1: Resampler, r2: Resampler, out: seq<int>, take: nat)
    requires FRAME <= |r1.rem| && r1.cnt == 0 && take < |out| && |out| - take < FRAME
    requires r2 == Resampler(Overwrite(r1.rem, 0, out[take..]), |out| - take, r1.list)
    ensures Resampled(r1, |out| - take, take, out) == Some(r2)
  {
    assert out[take..take + (|out| - take)] == out[take..];
    assert Turn(r1, |out| - take, take, out) == Turned(r2, |out| - take, 0);
    assert Resampled(r2, 0, 0, out) == Some(r2);
  }

  lemma HeldAfterFrame(r: Resampler, r2: Resampler, out: seq<int>, take: nat)
    requires Valid(r) && take <= |out| && |out| - take < FRAME
    requires r2 == Resampler(Overwrite(r.rem, 0, out[take..]), |out| - take, r.list + [r.rem[..r.cnt] + out[..take]])
    ensures Held(r2) == Held(r) + out
  {
    var a, b, c, d := Flatten(r.list), r.rem[..r.cnt], out[..take], out[take..];
    FlattenSnoc(r.list, b + c);
    assert r2.rem[..r2.cnt] == d;
    assert out == c + d;
    ConcatAssoc(a, b, c);
    ConcatAssoc(a + b, c, d);
  }

  /**
   A turn never makes the held samples fewer than it used up, and one that starts without
   residual on more than a frame makes them more.
   */
  lemma {:induction false} NeverShorter(r: Resampler, left: nat, skip: nat, out: seq<int>)
    requires skip + left <= |out| && FRAME <= |r.rem|
    ensures var r' := Resampled(r, left, skip, out);
            r'.Some? ==> |Flatten(r'.value.list)| + r'.value.cnt >= |Flatten(r.list)| + r.cnt + left
    ensures var r' := Resampled(r, left, skip, out);
            r'.Some? && r.cnt == 0 && left > FRAME ==>
                |Flatten(r'.value.list)| + r'.value.cnt > |Flatten(r.list)| + r.cnt + left
    decreases left
  {
    if left > 0 {
      var t := Turn(r, left, skip, out);
      if t.Turned? {
        if t.r.list != r.list {
          FlattenSnoc(r.list, t.r.list[|r.list|]);
        }
        NeverShorter(t.r, left - t.used, t.skip, out);
      }
    }
  }

  /** Samples that tell every position of the call apart from every other and from the residual. */
  function Counting(n: nat): (s: seq<int>)
    ensures |s| == n
  {
    seq(n, k => k + 1)
  }

  /** Beyond that the loop always fails: it loses or repeats samples, or overruns. */
  lemma UnmanageableFails(r: Resampler, n: nat)
    requires Valid(r) && !Manageable(r.cnt, n)
    ensures !Conserves(r, Counting(n))
  {
    var out := Counting(n);
    if r.cnt == 0 {
      NeverShorter(r, n, 0, out);
    } else {
      var take := FRAME - r.cnt;
      var frame := r.rem[..r.cnt] + out[..take];
      var r1 := Resampler(r.rem, 0, r.list + [frame]);
      FlattenSnoc(r.list, frame);
      NeverShorter(r1, n - take, take, out);
      if n - take == FRAME {
        SecondFrameWrong(r, r1, n);
      }
    }
  }

  /** Exactly two frames: the second is cut from the beginning of the call's samples again. */
  lemma SecondFrameWrong(r: Resampler, r1: Resampler, n: nat)
    requires Valid(r) && r.cnt > 0 && r.cnt + n == 2 * FRAME && FRAME <= |r1.rem|
    requires r1 == Resampler(r.rem, 0, r.list + [r.rem[..r.cnt] + Counting(n)[..FRAME - r.cnt]])
    ensures !Conserves(r, Counting(n))
  {
    var out := Counting(n);
    var take := FRAME - r.cnt;
    var r2 := Resampler(r.rem, 0, r1.list + [out[..FRAME]]);
    assert Turn(r, n, 0, out) == Turned(r1, take, take);
    assert Turn(r1, FRAME, take, out) == Turned(r2, FRAME, FRAME);
    assert Resampled(r2, 0, FRAME, out) == Some(r2);
    assert Resampled(r, n, 0, out) == Some(r2);
    FlattenSnoc(r.list, r1.list[|r.list|]);
    FlattenSnoc(r1.list, out[..FRAME]);
    var at := |Flatten(r1.list)|;
    var kept := Flatten(r.list) + r.rem[..r.cnt];
    assert Held(r2)[at] == out[0];
    assert at == |kept| + take;
    assert (Held(r) + out)[at] == out[take];
  }

  /** Conservation for every content of the buffers holds exactly when the sizes are manageable. */
  lemma ConservesExactly(cnt: nat, n: nat, cap: nat)
    requires cnt < FRAME <= cap
    ensures Manageable(cnt, n) <==>
            forall r: Resampler, out: seq<int> :: |r.rem| == cap && r.cnt == cnt && |out| == n && Valid(r) ==>
                Conserves(r, out)
  {
    if Manageable(cnt, n) {
      forall r: Resampler, out: seq<int> | |r.rem| == cap && r.cnt == cnt && |out| == n && Valid(r)
        ensures Conserves(r, out)
      {
        ManageableConserves(r, out);
      }
    } else {
      var r := Resampler(seq(cap, _ => 0), cnt, []);
      UnmanageableFails(r, n);
      assert |r.rem| == cap && |Counting(n)| == n;
    }
  }

  // ----- whole runs

  /** getNextRawMp3Frame until empty: the list is emptied from its back. */
  function Drained(list: seq<seq<int>>): seq<seq<int>> {
    if list == [] then [] else [list[|list| - 1]] + Drained(list[..|list| - 1])
  }

  /** The back comes first: any list comes out reversed, so that only one frame at a time keeps its place. */
  lemma {:induction false} DrainReverses(list: seq<seq<int>>)
    ensures |Drained(list)| == |list|
    ensures forall k :: 0 <= k < |list| ==> Drained(list)[k] == list[|list| - 1 - k]
  {
    if list != [] {
      DrainReverses(list[..|list| - 1]);
    }
  }

  /** The residual after a manageable call. */
  function NextCount(cnt: nat, n: nat): nat {
    if cnt + n < FRAME then cnt + n else cnt + n - FRAME
  }

  /** Every call of the run is manageable with the residual the calls before it leave. */
  predicate ManageableRun(cnt: nat, outs: seq<seq<int>>)
    decreases |outs|
  {
    outs == [] || (Manageable(cnt, |outs[0]|) && ManageableRun(NextCount(cnt, |outs[0]|), outs[1..]))
  }

  /** Calls of at most 1152 samples always are. */
  lemma {:induction false} SmallCallsManageable(cnt: nat, outs: seq<seq<int>>)
    requires cnt < FRAME && forall o :: o in outs ==> |o| <= FRAME
    ensures ManageableRun(cnt, outs)
    decreases |outs|
  {
    if outs != [] {
      assert outs[0] in outs;
      SmallCallsManageable(NextCount(cnt, |outs[0]|), outs[1..]);
    }
  }

  /** A run of calls, each drained before the next: the frames taken out, and the final state. */
  function RunCalls(r: Resampler, outs: seq<seq<int>>): (res: (seq<seq<int>>, Resampler))
    requires Valid(r) && ManageableRun(r.cnt, outs)
    decreases |outs|
  {
    if outs == [] then ([], r)
    else
      ManageableConserves(r, outs[0]);
      var r1 := Resampled(r, |outs[0]|, 0, outs[0]).value;
      var (frames, end) := RunCalls(r1.(list := []), outs[1..]);
      (Drained(r1.list) + frames, end)
  }

  /** Over any run of manageable calls, frames and residual are exactly the samples fed, in order. */
  lemma {:induction false} RunConserves(r: Resampler, outs: seq<seq<int>>)
    requires Valid(r) && r.list == [] && ManageableRun(r.cnt, outs)
    ensures var (frames, end) := RunCalls(r, outs);
            Valid(end) && end.list == [] && Flatten(frames) + end.rem[..end.cnt] == r.rem[..r.cnt] + Flatten(outs) &&
            forall f :: f in frames ==> |f| == FRAME
    decreases |outs|
  {
    if outs == [] {
      assert Flatten<int>([]) + r.rem[..r.cnt] == r.rem[..r.cnt] + Flatten(outs);
    } else {
      var out := outs[0];
      ManageableConserves(r, out);
      var r1 := Resampled(r, |out|, 0, out).value;
      var r2 := r1.(list := []);
      RunConserves(r2, outs[1..]);
      var (frames, end) := RunCalls(r2, outs[1..]);
      OneDrained(r1.list);
      FlattenConcat(r1.list, frames);
      var residual := end.rem[..end.cnt];
      ConcatAssoc(Flatten(r1.list), Flatten(frames), residual);
      ConcatAssoc(Flatten(r1.list), r2.rem[..r2.cnt], Flatten(outs[1..]));
      assert Held(r) == r.rem[..r.cnt];
      ConcatAssoc(r.rem[..r.cnt], out, Flatten(outs[1..]));
    }
  }

  lemma OneDrained(list: seq<seq<int>>)
    requires |list| <= 1
    ensures Drained(list) == list
  {
    DrainReverses(list);
  }

  // ----- the class

  class AudioResampler {
    const resampleShortRemaining: array<int>
    var remainingSampleCnt: nat
    var mp3FrameList: seq<seq<int>>

    ghost function State(): Resampler
      reads this, resampleShortRemaining
    {
      Resampler(resampleShortRemaining[..], remainingSampleCnt, mp3FrameList)
    }

    constructor (inputChannels: nat)
      requires inputChannels == 1 || inputChannels == 2
      ensures Valid(State()) && State().cnt == 0 && State().list == [] && fresh(resampleShortRemaining)
    {
      resampleShortRemaining := new int[2 * FRAME / inputChannels];
      remainingSampleCnt, mp3FrameList := 0, [];
    }

    /** The loop on one call's converted samples, for any sizes that do not overrun the frame buffer. */
    method Resample(out: seq<int>)
      requires FRAME <= resampleShortRemaining.Length && Resampled(State(), |out|, 0, out).Some?
      modifies this, resampleShortRemaining
      ensures Some(State()) == Resampled(old(State()), |out|, 0, out)
    {
      var sampleCount: nat, samplesToSkip: nat := |out|, 0;
      while sampleCount > 0
        invariant samplesToSkip + sampleCount <= |out|
        invariant Resampled(State(), sampleCount, samplesToSkip, out) == Resampled(old(State()), |out|, 0, out)
      {
        var used, skip := TakeTurn(out, sampleCount, samplesToSkip);
        sampleCount, samplesToSkip := sampleCount - used, skip;
      }
    }

    method TakeTurn(out: seq<int>, sampleCount: nat, samplesToSkip: nat) returns (used: nat, skip: nat)
      requires 0 < sampleCount && samplesToSkip + sampleCount <= |out| && FRAME <= resampleShortRemaining.Length
      requires Turn(State(), sampleCount, samplesToSkip, out).Turned?
      modifies this, resampleShortRemaining
      ensures Turned(State(), used, skip) == Turn(old(State()), sampleCount, samplesToSkip, out)
    {
      ghost var r := State();
      if remainingSampleCnt != 0 {
        if remainingSampleCnt + sampleCount >= FRAME {
          used := FRAME - remainingSampleCnt;
          var frame := Join(resampleShortRemaining[..remainingSampleCnt], out[..used]);
          skip := used;
          remainingSampleCnt := 0;
          mp3FrameList := mp3FrameList + [frame];
        } else {
          CopyOver(remainingSampleCnt, out[..sampleCount]);
          remainingSampleCnt := remainingSampleCnt + sampleCount;
          used, skip := sampleCount, 0;
        }
      } else {
        if sampleCount >= FRAME {
          used := FRAME;
          remainingSampleCnt := sampleCount - FRAME;
          skip := used;
          mp3FrameList := mp3FrameList + [out[..FRAME]];
        } else {
          CopyOver(0, out[samplesToSkip..samplesToSkip + sampleCount]);
          remainingSampleCnt := sampleCount;
          used, skip := sampleCount, 0;
        }
      }
    }

    /** memcpy into the residual buffer. */
    method CopyOver(at: nat, d: seq<int>)
      requires at + |d| <= resampleShortRemaining.Length
      modifies resampleShortRemaining
      ensures resampleShortRemaining[..] == Overwrite(old(resampleShortRemaining[..]), at, d)
    {
      for k := 0 to |d|
        invariant forall j :: 0 <= j < resampleShortRemaining.Length ==>
                    resampleShortRemaining[j] == if at <= j < at + k then d[j - at] else old(resampleShortRemaining[j])
      {
        resampleShortRemaining[at + k] := d[k];
      }
      assert resampleShortRemaining[..] == Overwrite(old(resampleShortRemaining[..]), at, d);
    }

    /** Two memcpys into a new frame. */
    method Join(a: seq<int>, b: seq<int>) returns (frame: seq<int>)
      ensures frame == a + b
    {
      var data := new int[|a| + |b|];
      for k := 0 to |a|
        invariant data[..k] == a[..k]
      {
        data[k] := a[k];
      }
      for k := 0 to |b|
        invariant data[..|a| + k] == a + b[..k]
      {
        data[|a| + k] := b[k];
      }
      frame := data[..];
    }

    method GetNextRawMp3Frame() returns (res: Option<seq<int>>)
      modifies `mp3FrameList
      ensures Drained(old(mp3FrameList)) == (match res case Some(f) => [f] + Drained(mp3FrameList) case None => [])
    {
      res := None;
      if |mp3FrameList| > 0 {
        res := Some(mp3FrameList[|mp3FrameList| - 1]);
        mp3FrameList := mp3FrameList[..|mp3FrameList| - 1];
      }
    }
  }
}
