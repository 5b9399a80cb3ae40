/**
 The per-stream timestamp adjustment of FLVParser, in the source's u32 and s32
 arithmetic: each stream's own clock is shifted onto the global audio clock.
 */
module StreamClock {
  import opened Bytes

  /** Tag types as far as the clock tells them apart. */
  datatype Kind = Audio | Video | Data | Other

  /** One parsed tag: `isSpsPps` only for video. */
  datatype TimedTag = TimedTag(kind: Kind, isSpsPps: bool, ts: nat)

  /** MAX_S32 as the source defines it: the offset that means "not set yet". */
  const UNSET: int := 0x0fff_ffff

  datatype Clock = Clock(rel: int, prevVideoAdj: nat, prevAudioAdj: nat, prevAudioOrig: nat)

  const START: Clock := Clock(UNSET, 0, 0, 0)

  function ToU32(n: int): (r: nat)
    ensures r < U32
  {
    n % U32
  }

  function ToS32(n: int): (r: int)
    ensures -0x8000_0000 <= r < 0x8000_0000
    ensures ToU32(r) == ToU32(n)
  {
    var u := ToU32(n);
    if u < 0x8000_0000 then u else u - U32
  }

  ghost predicate WellFormed(u: TimedTag) {
    u.ts < U32 && (u.isSpsPps ==> u.kind == Video)
  }

  /** The stream's first unit that is neither data nor SPS/PPS. */
  predicate IsFirst(c: Clock, u: TimedTag) {
    c.rel == UNSET && u.kind != Data && !u.isSpsPps
  }

  /** An audio stamp more than 100 ms past the previous one. */
  predicate IsJump(c: Clock, u: TimedTag) {
    u.kind == Audio && u.ts > ToU32(c.prevAudioOrig + 100)
  }

  predicate Resyncs(c: Clock, u: TimedTag) {
    IsFirst(c, u) || IsJump(c, u)
  }

  function NextRel(c: Clock, u: TimedTag, globalAudio: nat): int {
    if Resyncs(c, u) then ToS32(globalAudio - u.ts) else c.rel
  }

  function Offset(rel: int): int {
    if rel == UNSET then 0 else rel
  }

  /** The shifted stamp is not negative as an s32, or the offset is not. */
  predicate Unclamped(rel: int, ts: nat) {
    Offset(rel) >= 0 || ToS32(ts + Offset(rel)) >= 0
  }

  function PrevOf(c: Clock, u: TimedTag): nat {
    if u.kind == Video then c.prevVideoAdj else c.prevAudioAdj
  }

  function Pts(c: Clock, u: TimedTag, globalAudio: nat): (pts: nat)
    ensures pts < U32
  {
    var rel := NextRel(c, u, globalAudio);
    if u.isSpsPps then ToU32(c.prevVideoAdj + 1)
    else if Unclamped(rel, u.ts) then ToU32(u.ts + Offset(rel))
    else ToU32(PrevOf(c, u) + 1)
  }

  function Tick(c: Clock, u: TimedTag, globalAudio: nat): Clock {
    var pts := Pts(c, u, globalAudio);
    var c1 := c.(rel := NextRel(c, u, globalAudio));
    if u.kind == Video then c1.(prevVideoAdj := pts)
    else if u.kind == Audio then c1.(prevAudioAdj := pts, prevAudioOrig := u.ts)
    else c1
  }

  /**
   A resynchronising unit is stamped with the global audio clock exactly when the new
   offset is not mistaken for the unset one, and the clock is below 2^31 whenever the
   unit has to move backwards. (The third way is a clamped stamp that happens to agree.)
   */
  lemma ResyncExact(c: Clock, u: TimedTag, globalAudio: nat)
    requires WellFormed(u) && Resyncs(c, u) && globalAudio < U32
    ensures var rel := ToS32(globalAudio - u.ts);
            Pts(c, u, globalAudio) == globalAudio <==>
            rel != UNSET && (rel >= 0 || globalAudio < 0x8000_0000 || ToU32(PrevOf(c, u) + 1) == globalAudio)
  {
    var rel := ToS32(globalAudio - u.ts);
    assert ToU32(u.ts + rel) == globalAudio;
    if rel == UNSET {
      assert u.ts != globalAudio;
    }
  }

  /** Below 2^31 - 1 the only failure left is the offset 2^28 - 1. */
  lemma ResyncSmall(c: Clock, u: TimedTag, globalAudio: nat)
    requires WellFormed(u) && Resyncs(c, u) && u.ts < 0x7fff_ffff && globalAudio < 0x7fff_ffff
    ensures Pts(c, u, globalAudio) == globalAudio <==> globalAudio - u.ts != UNSET
  {
    ResyncExact(c, u, globalAudio);
  }

  lemma ResyncMissed()
    ensures var u := TimedTag(Video, false, 1);
            Resyncs(START, u) && Pts(START, u, 0x1000_0000) == 1
  {
  }

  /** A unit and the global audio clock when it was parsed. */
  datatype Tagged = Tagged(u: TimedTag, globalAudio: nat)

  function After(c: Clock, us: seq<Tagged>): Clock
    decreases |us|
  {
    if us == [] then c else After(Tick(c, us[0].u, us[0].globalAudio), us[1..])
  }

  /** The stamp given to the k-th unit of a run. */
  function StampAt(c: Clock, us: seq<Tagged>, k: nat): nat
    requires k < |us|
  {
    Pts(After(c, us[..k]), us[k].u, us[k].globalAudio)
  }

  predicate ResyncsAt(c: Clock, us: seq<Tagged>, k: nat)
    requires k < |us|
  {
    Resyncs(After(c, us[..k]), us[k].u)
  }

  /** The k-th unit is a picture or sound stamped by plain shifting. */
  predicate ShiftedAt(c: Clock, us: seq<Tagged>, k: nat)
    requires k < |us|
  {
    !us[k].u.isSpsPps && Unclamped(After(c, us[..k + 1]).rel, us[k].u.ts)
  }

  lemma {:induction false} AfterSnoc(c: Clock, us: seq<Tagged>, k: nat)
    requires k < |us|
    ensures After(c, us[..k + 1]) == Tick(After(c, us[..k]), us[k].u, us[k].globalAudio)
    decreases k
  {
    if k > 0 {
      AfterSnoc(Tick(c, us[0].u, us[0].globalAudio), us[1..], k - 1);
      assert us[..k + 1][1..] == us[1..][..k];
      assert us[..k][1..] == us[1..][..k - 1];
    } else {
      assert us[..1] == [us[0]];
      assert After(Tick(c, us[0].u, us[0].globalAudio), us[..1][1..]) == Tick(c, us[0].u, us[0].globalAudio);
    }
  }

  /** The offset only changes at a resynchronisation. */
  lemma {:induction false} OffsetKept(c: Clock, us: seq<Tagged>, i: nat, j: nat)
    requires i <= j < |us| && forall k :: i < k <= j ==> !ResyncsAt(c, us, k)
    ensures After(c, us[..i + 1]).rel == After(c, us[..j + 1]).rel
    decreases j
  {
    if i < j {
      OffsetKept(c, us, i, j - 1);
      AfterSnoc(c, us, j);
      assert !ResyncsAt(c, us, j);
    }
  }

  /** Over any run: until the next resynchronisation, adjusted gaps are the original gaps. */
  lemma GapsPreserved(c: Clock, us: seq<Tagged>, i: nat, j: nat)
    requires i <= j < |us| && forall k :: i < k <= j ==> !ResyncsAt(c, us, k)
    requires ShiftedAt(c, us, i) && ShiftedAt(c, us, j)
    ensures ToU32(StampAt(c, us, j) - StampAt(c, us, i)) == ToU32(us[j].u.ts - us[i].u.ts)
  {
    OffsetKept(c, us, i, j);
    var off := Offset(After(c, us[..i + 1]).rel);
    ShiftedStamp(c, us, i);
    ShiftedStamp(c, us, j);
    ShiftCancels(us[i].u.ts, us[j].u.ts, off);
  }

  lemma ShiftedStamp(c: Clock, us: seq<Tagged>, k: nat)
    requires k < |us| && ShiftedAt(c, us, k)
    ensures StampAt(c, us, k) == ToU32(us[k].u.ts + Offset(After(c, us[..k + 1]).rel))
  {
    AfterSnoc(c, us, k);
  }

  lemma ShiftCancels(a: int, b: int, off: int)
    ensures ToU32(ToU32(b + off) - ToU32(a + off)) == ToU32(b - a)
  {
    var qa, qb := (a + off) / U32, (b + off) / U32;
    assert ToU32(b + off) - ToU32(a + off) == b - a + U32 * (qa - qb);
    AddMultiple(b - a, qa - qb);
  }

  lemma AddMultiple(n: int, q: int)
    ensures (n + U32 * q) % U32 == n % U32
  {
  }

  // ----- what the clock remembers, told from the tags alone

  /** The k-th tag is the last of its kind before n. */
  ghost predicate LastOf(us: seq<Tagged>, kind: Kind, k: nat, n: nat) {
    k < n <= |us| && us[k].u.kind == kind && forall j :: k < j < n ==> us[j].u.kind != kind
  }

  /** The memory before the n-th tag: the last stamps given to audio and to video, and the last audio stamp received. */
  lemma {:induction false} RemembersLast(c: Clock, us: seq<Tagged>, k: nat, n: nat)
    requires LastOf(us, Audio, k, n) || LastOf(us, Video, k, n)
    ensures LastOf(us, Audio, k, n) ==>
              After(c, us[..n]).prevAudioAdj == StampAt(c, us, k) && After(c, us[..n]).prevAudioOrig == us[k].u.ts
    ensures LastOf(us, Video, k, n) ==> After(c, us[..n]).prevVideoAdj == StampAt(c, us, k)
    decreases n
  {
    AfterSnoc(c, us, n - 1);
    if k < n - 1 {
      RemembersLast(c, us, k, n - 1);
    }
  }

  /**
   After the first resynchronisation, audio is resynchronised exactly on a jump of more than 100
   ms from the audio tag before.
   */
  lemma JumpExactly(c: Clock, us: seq<Tagged>, k: nat, n: nat)
    requires LastOf(us, Audio, k, n) && n < |us| && us[n].u.kind == Audio && !us[n].u.isSpsPps
    requires us[k].u.ts + 100 < U32 && After(c, us[..n]).rel != UNSET
    ensures ResyncsAt(c, us, n) <==> us[n].u.ts > us[k].u.ts + 100
  {
    RemembersLast(c, us, k, n);
  }

  /** Pictures are resynchronised only while no offset is set, data and SPS/PPS never. */
  lemma OthersResync(c: Clock, us: seq<Tagged>, n: nat)
    requires n < |us| && us[n].u.kind != Audio
    ensures ResyncsAt(c, us, n) <==>
            After(c, us[..n]).rel == UNSET && us[n].u.kind != Data && !us[n].u.isSpsPps
  {
  }

  /**
   An SPS/PPS unit is stamped 1 after the last video stamp; so is a picture that would be stamped
   before 0; a sound, after the last sound.
   */
  lemma StampedAfterLast(c: Clock, us: seq<Tagged>, k: nat, n: nat)
    requires n < |us| && (us[n].u.isSpsPps || !Unclamped(After(c, us[..n + 1]).rel, us[n].u.ts))
    requires LastOf(us, if us[n].u.isSpsPps then Video else us[n].u.kind, k, n)
    requires us[n].u.isSpsPps ==> us[n].u.kind == Video
    requires us[n].u.kind == Audio || us[n].u.kind == Video
    ensures StampAt(c, us, n) == (StampAt(c, us, k) + 1) % U32
  {
    AfterSnoc(c, us, n);
    RemembersLast(c, us, k, n);
  }

  /** A tag of data leaves the clock alone. */
  lemma DataIgnored(c: Clock, u: TimedTag, globalAudio: nat)
    requires u.kind == Data && !u.isSpsPps
    ensures Tick(c, u, globalAudio) == c
  {
  }

  /** Any other shifted stamp is its own plus the offset, when it is not negative. */
  lemma ShiftedInNumbers(c: Clock, us: seq<Tagged>, n: nat)
    requires n < |us| && ShiftedAt(c, us, n)
    ensures var rel := After(c, us[..n + 1]).rel;
            StampAt(c, us, n) == (us[n].u.ts + (if rel == 0x0fff_ffff then 0 else rel)) % 0x1_0000_0000
  {
    ShiftedStamp(c, us, n);
  }
}
