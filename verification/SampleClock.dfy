/** AudioTimestampMapper: stamps 1152-sample frames by counting samples at 44.1 kHz, with resets on jumps. */
module SampleClock {
  import opened Bytes

  /** MAX_INT of the source: the start that means "not set". */
  const UNSET: nat := 0xffff_ffff

  datatype Mapper = Mapper(start: nat, cnt: nat, cur: nat)

  const START: Mapper := Mapper(UNSET, 0, UNSET)

  /** The first stamp, or one more than 100 ms past the previous one (in u32 arithmetic). */
  predicate Resets(m: Mapper, ts: nat) {
    m.start == UNSET || ts > (m.cur + 100) % U32
  }

  /** Whole milliseconds of n frames: 1000 * 1152 / 44100 is 1280 / 49. */
  function FramesMs(n: nat): nat {
    1280 * n / 49
  }

  function Next(m: Mapper, ts: nat): Mapper {
    if Resets(m, ts) then Mapper(ts, 1, ts) else m.(cnt := m.cnt + 1, cur := ts)
  }

  function Stamp(m: Mapper, ts: nat): nat {
    if Resets(m, ts) then ts + FramesMs(0) else m.start + FramesMs(m.cnt)
  }

  class AudioTimestampMapper {
    var startingTimestamp: nat
    var cnt: nat
    var curTimestamp: nat

    ghost function State(): Mapper
      reads this
    {
      Mapper(startingTimestamp, cnt, curTimestamp)
    }

    constructor ()
      ensures State() == START
    {
      startingTimestamp, cnt, curTimestamp := UNSET, 0, UNSET;
    }

    method GetNextTimestamp(ts: nat) returns (mapped: nat)
      modifies this
      ensures State() == Next(old(State()), ts) && mapped == Stamp(old(State()), ts)
    {
      if startingTimestamp == UNSET {
        startingTimestamp, cnt := ts, 0;
      } else if ts > (curTimestamp + 100) % U32 {
        startingTimestamp, cnt := ts, 0;
      }
      curTimestamp := ts;
      mapped := startingTimestamp + cnt * 1000 * 1152 / 44100;
      MsOfSamples(cnt);
      cnt := cnt + 1;
    }
  }

  lemma MsOfSamples(n: nat)
    ensures n * 1000 * 1152 / 44100 == FramesMs(n)
  {
    var q := 1280 * n / 49;
    assert 49 * q <= 1280 * n < 49 * q + 49;
    assert 44100 * q <= n * 1000 * 1152 < 44100 * q + 44100;
  }

  function After(m: Mapper, stamps: seq<nat>): Mapper
    decreases |stamps|
  {
    if stamps == [] then m else After(Next(m, stamps[0]), stamps[1..])
  }

  predicate ResetsAt(m: Mapper, stamps: seq<nat>, k: nat)
    requires k < |stamps|
  {
    Resets(After(m, stamps[..k]), stamps[k])
  }

  function StampAt(m: Mapper, stamps: seq<nat>, k: nat): nat
    requires k < |stamps|
  {
    Stamp(After(m, stamps[..k]), stamps[k])
  }

  lemma {:induction false} AfterSnoc(m: Mapper, stamps: seq<nat>, k: nat)
    requires k < |stamps|
    ensures After(m, stamps[..k + 1]) == Next(After(m, stamps[..k]), stamps[k])
    decreases k
  {
    if k > 0 {
      AfterSnoc(Next(m, stamps[0]), stamps[1..], k - 1);
      assert stamps[..k + 1][1..] == stamps[1..][..k];
      assert stamps[..k][1..] == stamps[1..][..k - 1];
    } else {
      assert stamps[..1] == [stamps[0]];
      assert After(Next(m, stamps[0]), stamps[..1][1..]) == Next(m, stamps[0]);
    }
  }

  /** Over any run: j frames after a reset, the stamp is the reset stamp plus exactly j frames, rounded once. */
  lemma {:induction false} NoDrift(m: Mapper, stamps: seq<nat>, k: nat, j: nat)
    requires k <= j < |stamps| && ResetsAt(m, stamps, k) && forall i :: k < i <= j ==> !ResetsAt(m, stamps, i)
    ensures StampAt(m, stamps, j) == stamps[k] + FramesMs(j - k)
    ensures After(m, stamps[..j + 1]) == Mapper(stamps[k], j - k + 1, stamps[j])
    decreases j
  {
    AfterSnoc(m, stamps, j);
    if j > k {
      NoDrift(m, stamps, k, j - 1);
      assert !ResetsAt(m, stamps, j);
    }
  }

  /** Rounding loses less than a millisecond however long the run, and steps are 26 or 27 ms. */
  lemma StepsAndError(n: nat)
    ensures FramesMs(n + 1) - FramesMs(n) == 26 || FramesMs(n + 1) - FramesMs(n) == 27
    ensures 49 * FramesMs(n) <= 1280 * n < 49 * (FramesMs(n) + 1)
  {
  }

  /** While the sum does not wrap, a reset after the first stamp is exactly a jump of more than 100 ms. */
  lemma ResetExact(m: Mapper, stamps: seq<nat>, k: nat)
    requires 0 < k < |stamps| && (forall i :: 0 <= i < |stamps| ==> stamps[i] < U32 - 101) && m == START
    ensures ResetsAt(m, stamps, k) <==> stamps[k] > stamps[k - 1] + 100
  {
    AfterSnoc(m, stamps, k - 1);
    StartIsAStamp(m, stamps, k);
  }

  lemma {:induction false} StartIsAStamp(m: Mapper, stamps: seq<nat>, k: nat)
    requires 0 < k <= |stamps| && (forall i :: 0 <= i < |stamps| ==> stamps[i] < U32 - 101) && m == START
    ensures After(m, stamps[..k]).start != UNSET && After(m, stamps[..k]).cur == stamps[k - 1]
  {
    AfterSnoc(m, stamps, k - 1);
    if k > 1 {
      StartIsAStamp(m, stamps, k - 1);
    } else {
      assert stamps[..0] == [];
    }
  }

  /** One frame on: a reset takes the input stamp, otherwise the clock moves forward. */
  lemma StampStep(m: Mapper, stamps: seq<nat>, k: nat)
    requires 0 < k < |stamps|
    ensures var before := StampAt(m, stamps, k - 1);
            if ResetsAt(m, stamps, k) then StampAt(m, stamps, k) == stamps[k]
            else before < StampAt(m, stamps, k) <= before + 27
  {
    AfterSnoc(m, stamps, k - 1);
    var c := After(m, stamps[..k - 1]);
    if !ResetsAt(m, stamps, k) {
      StepsAndError(if Resets(c, stamps[k - 1]) then 0 else c.cnt);
    }
  }

  /**
   Mapped stamps never decrease exactly when every reset after the first stamp lands at or past
   the last mapped stamp.
   */
  lemma OrderedExactly(m: Mapper, stamps: seq<nat>)
    ensures (forall k :: 0 < k < |stamps| ==> StampAt(m, stamps, k - 1) <= StampAt(m, stamps, k)) <==>
            (forall k :: 0 < k < |stamps| && ResetsAt(m, stamps, k) ==> StampAt(m, stamps, k - 1) <= stamps[k])
  {
    forall k | 0 < k < |stamps|
      ensures StampAt(m, stamps, k - 1) <= StampAt(m, stamps, k) <==>
              (ResetsAt(m, stamps, k) ==> StampAt(m, stamps, k - 1) <= stamps[k])
    {
      StampStep(m, stamps, k);
    }
  }

  /** It can step back: after ten frames stamped at 0 the clock is at 235, and an input of 101 takes it back to 101. */
  lemma StepsBack()
    ensures var stamps := seq(10, _ => 0) + [101];
            StampAt(START, stamps, 9) == 235 && ResetsAt(START, stamps, 10) && StampAt(START, stamps, 10) == 101
  {
    var stamps := seq(10, _ => 0) + [101];
    AfterSnoc(START, stamps, 0);
    forall k | 0 < k < 10
      ensures !ResetsAt(START, stamps, k)
    {
      StartIsAStamp(START, stamps, k);
    }
    NoDrift(START, stamps, 0, 9);
    StartIsAStamp(START, stamps, 10);
  }
}
