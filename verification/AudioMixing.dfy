/** AudioMixer: the loops specialised to one to four streams against the brute-force clipped sum. */
module AudioMixing {
  import opened BitMask
  import opened Bytes
  import opened Scheduling
  import opened Mixing

  /** excludeStreamId of the all-in mix. */
  const NOBODY: nat := 0xffff_ffff

  predicate On(c: AudioCache, v: Flags, exclude: nat, j: nat)
    requires j < STREAMS
  {
    c[j].Some? && v[j] && j != exclude
  }

  /** A frame of `size` samples per channel, in 16-bit range. */
  ghost predicate Sized(a: AudioRaw, size: nat) {
    |a.frame| == (if a.isStereo then 2 * size else size) &&
    forall k :: 0 <= k < |a.frame| ==> -32768 <= a.frame[k] <= 32767
  }

  ghost predicate Playable(c: AudioCache, v: Flags, size: nat) {
    forall j :: 0 <= j < STREAMS && On(c, v, NOBODY, j) ==> Sized(c[j].value, size)
  }

  /** The k-th interleaved stereo sample; mono streams play on both sides. */
  function Sample(a: AudioRaw, k: nat): int {
    var i := if a.isStereo then k else k / 2;
    if i < |a.frame| then a.frame[i] else 0
  }

  function Clip(val: int): int {
    if val > 32767 then 32767 else if val < -32768 then -32768 else val
  }

  /** The brute force: every valid stream below n but the excluded one. */
  function Sum(c: AudioCache, v: Flags, exclude: nat, k: nat, n: nat): int
    requires n <= STREAMS
  {
    if n == 0 then 0
    else Sum(c, v, exclude, k, n - 1) + (if On(c, v, exclude, n - 1) then Sample(c[n - 1].value, k) else 0)
  }

  function Mixed(c: AudioCache, v: Flags, exclude: nat, k: nat): int {
    Clip(Sum(c, v, exclude, k, |c|))
  }

  /** What findIndexes puts in its array. */
  function Indexes(c: AudioCache, v: Flags, exclude: nat, n: nat): (ix: seq<nat>)
    requires n <= STREAMS
    ensures forall t :: 0 <= t < |ix| ==> ix[t] < n && On(c, v, exclude, ix[t])
  {
    if n == 0 then []
    else Indexes(c, v, exclude, n - 1) + (if On(c, v, exclude, n - 1) then [n - 1] else [])
  }

  function SumOver(c: AudioCache, ix: seq<nat>, k: nat): int
    requires forall t :: 0 <= t < |ix| ==> ix[t] < STREAMS && c[ix[t]].Some?
  {
    if ix == [] then 0 else SumOver(c, ix[..|ix| - 1], k) + Sample(c[ix[|ix| - 1]].value, k)
  }

  lemma {:induction false} SumIsOverIndexes(c: AudioCache, v: Flags, exclude: nat, k: nat, n: nat)
    requires n <= STREAMS
    ensures Sum(c, v, exclude, k, n) == SumOver(c, Indexes(c, v, exclude, n), k)
  {
    if n > 0 {
      SumIsOverIndexes(c, v, exclude, k, n - 1);
      var ix := Indexes(c, v, exclude, n - 1);
      if On(c, v, exclude, n - 1) {
        assert (ix + [n - 1])[..|ix|] == ix;
      } else {
        assert ix + [] == ix;
      }
    }
  }

  /** Excluding one valid stream leaves one less. */
  lemma {:induction false} OneLess(c: AudioCache, v: Flags, exclude: nat, n: nat)
    requires n <= STREAMS && exclude < STREAMS && On(c, v, NOBODY, exclude)
    ensures |Indexes(c, v, exclude, n)| == |Indexes(c, v, NOBODY, n)| - (if exclude < n then 1 else 0)
  {
    if n > 0 {
      OneLess(c, v, exclude, n - 1);
    }
  }

  lemma {:induction false} SumWithout(c: AudioCache, v: Flags, exclude: nat, k: nat, n: nat)
    requires n <= STREAMS && exclude < STREAMS && On(c, v, NOBODY, exclude)
    ensures Sum(c, v, NOBODY, k, n) ==
            Sum(c, v, exclude, k, n) + (if exclude < n then Sample(c[exclude].value, k) else 0)
  {
    if n > 0 {
      SumWithout(c, v, exclude, k, n - 1);
    }
  }

  /** Where nothing clips, the all-in mix is a viewer's mix plus the viewer's own voice. */
  lemma MixMinus(c: AudioCache, v: Flags, exclude: nat, k: nat)
    requires exclude < STREAMS && On(c, v, NOBODY, exclude)
    requires -32768 <= Sum(c, v, NOBODY, k, |c|) <= 32767 && -32768 <= Sum(c, v, exclude, k, |c|) <= 32767
    ensures Mixed(c, v, NOBODY, k) == Mixed(c, v, exclude, k) + Sample(c[exclude].value, k)
  {
    SumWithout(c, v, exclude, k, |c|);
  }

  /** The listed streams have frames to mix. */
  ghost predicate Voices(c: AudioCache, ix: seq<nat>, size: nat) {
    forall t :: 0 <= t < |ix| ==> ix[t] < STREAMS && c[ix[t]].Some? && Sized(c[ix[t]].value, size)
  }

  class AudioMixer {
    constructor () {
    }

    method MixOneStream(a: AudioRaw, val: array<int>, size: nat)
      requires Sized(a, size) && val.Length == 2 * size
      modifies val
      ensures forall k :: 0 <= k < val.Length ==> val[k] == Sample(a, k)
    {
      if a.isStereo {
        for k := 0 to 2 * size
          invariant forall n :: 0 <= n < k ==> val[n] == Sample(a, n)
        {
          val[k] := a.frame[k];
        }
      } else {
        var j, i := 2 * size - 1, size - 1;
        while i >= 0
          invariant -1 <= i < size && j == 2 * i + 1
          invariant forall n :: j < n < 2 * size ==> val[n] == Sample(a, n)
        {
          var singleSample := a.frame[i];
          val[j] := singleSample;
          j := j - 1;
          val[j] := singleSample;
          j := j - 1;
          i := i - 1;
        }
      }
    }

    method MixTwoStreams(rawData: AudioCache, ix: seq<nat>, val: array<int>, size: nat)
      requires |ix| == 2 && Voices(rawData, ix, size) && val.Length == 2 * size
      modifies val
      ensures forall k :: 0 <= k < val.Length ==> val[k] == Clip(SumOver(rawData, ix, k))
    {
      var a, b := rawData[ix[0]].value, rawData[ix[1]].value;
      var i := 2 * size - 1;
      while i >= 0
        invariant -1 <= i < 2 * size
        invariant forall k :: i < k < 2 * size ==> val[k] == Clip(Sample(a, k) + Sample(b, k))
      {
        var sum := 0;
        sum := sum + (if a.isStereo then a.frame[i] else a.frame[i / 2]);
        sum := sum + (if b.isStereo then b.frame[i] else b.frame[i / 2]);
        val[i] := if sum > 32767 then 32767 else if sum < -32768 then -32768 else sum;
        i := i - 1;
      }
      assert ix == [ix[0], ix[1]];
      TwoVoices(rawData, ix[0], ix[1]);
    }

    method MixThreeStreams(rawData: AudioCache, ix: seq<nat>, val: array<int>, size: nat)
      requires |ix| == 3 && Voices(rawData, ix, size) && val.Length == 2 * size
      modifies val
      ensures forall k :: 0 <= k < val.Length ==> val[k] == Clip(SumOver(rawData, ix, k))
    {
      var a, b, c := rawData[ix[0]].value, rawData[ix[1]].value, rawData[ix[2]].value;
      var i := 2 * size - 1;
      while i >= 0
        invariant -1 <= i < 2 * size
        invariant forall k :: i < k < 2 * size ==> val[k] == Clip(Sample(a, k) + Sample(b, k) + Sample(c, k))
      {
        var sum := 0;
        sum := sum + (if a.isStereo then a.frame[i] else a.frame[i / 2]);
        sum := sum + (if b.isStereo then b.frame[i] else b.frame[i / 2]);
        sum := sum + (if c.isStereo then c.frame[i] else c.frame[i / 2]);
        val[i] := if sum > 32767 then 32767 else if sum < -32768 then -32768 else sum;
        i := i - 1;
      }
      assert ix == [ix[0], ix[1], ix[2]];
      ThreeVoices(rawData, ix[0], ix[1], ix[2]);
    }

    method MixFourStreams(rawData: AudioCache, ix: seq<nat>, val: array<int>, size: nat)
      requires |ix| == 4 && Voices(rawData, ix, size) && val.Length == 2 * size
      modifies val
      ensures forall k :: 0 <= k < val.Length ==> val[k] == Clip(SumOver(rawData, ix, k))
    {
      var a, b, c, d := rawData[ix[0]].value, rawData[ix[1]].value, rawData[ix[2]].value, rawData[ix[3]].value;
      var i := 2 * size - 1;
      while i >= 0
        invariant -1 <= i < 2 * size
        invariant forall k :: i < k < 2 * size ==>
                  val[k] == Clip(Sample(a, k) + Sample(b, k) + Sample(c, k) + Sample(d, k))
      {
        var sum := 0;
        sum := sum + (if a.isStereo then a.frame[i] else a.frame[i / 2]);
        sum := sum + (if b.isStereo then b.frame[i] else b.frame[i / 2]);
        sum := sum + (if c.isStereo then c.frame[i] else c.frame[i / 2]);
        sum := sum + (if d.isStereo then d.frame[i] else d.frame[i / 2]);
        val[i] := if sum > 32767 then 32767 else if sum < -32768 then -32768 else sum;
        i := i - 1;
      }
      assert ix == [ix[0], ix[1], ix[2], ix[3]];
      FourVoices(rawData, ix[0], ix[1], ix[2], ix[3]);
    }

    method FindIndexes(c: AudioCache, v: Flags, exclude: nat, indexArr: array<nat>)
      requires |Indexes(c, v, exclude, |c|)| <= indexArr.Length
      modifies indexArr
      ensures indexArr[..|Indexes(c, v, exclude, |c|)|] == Indexes(c, v, exclude, |c|)
    {
      var i := 0;
      for j := 0 to |c|
        invariant i == |Indexes(c, v, exclude, j)| <= indexArr.Length
        invariant indexArr[..i] == Indexes(c, v, exclude, j)
      {
        IndexesGrow(c, v, exclude, j + 1);
        if c[j].Some? && v[j] && j != exclude {
          indexArr[i] := j;
          i := i + 1;
        }
      }
    }

    /** The search for the only stream left. */
    method FindFirst(c: AudioCache, v: Flags, exclude: nat) returns (a: nat)
      requires |Indexes(c, v, exclude, |c|)| == 1
      ensures a < STREAMS && On(c, v, exclude, a) && Indexes(c, v, exclude, |c|) == [a]
    {
      a := 0;
      for j := 0 to |c|
        invariant Indexes(c, v, exclude, j) == []
      {
        if c[j].Some? && v[j] && j != exclude {
          FirstIsOnly(c, v, exclude, j);
          return j;
        }
      }
    }

    method MixMany(c: AudioCache, ix: seq<nat>, val: array<int>, size: nat)
      requires 2 <= |ix| <= 4 && Voices(c, ix, size) && val.Length == 2 * size
      modifies val
      ensures forall k :: 0 <= k < val.Length ==> val[k] == Clip(SumOver(c, ix, k))
    {
      if |ix| == 2 {
        MixTwoStreams(c, ix, val, size);
      } else if |ix| == 3 {
        MixThreeStreams(c, ix, val, size);
      } else {
        MixFourStreams(c, ix, val, size);
      }
    }

    /**
     One viewer's mix, or the all-in mix. `None` is the mix of a viewer who is alone, which
     the source fills with random noise.
     */
    method MixStreams(c: AudioCache, v: Flags, size: nat, totalStreams: nat, exclude: nat)
      returns (result: Option<seq<int>>)
      requires Playable(c, v, size)
      requires 1 <= totalStreams <= 4 && totalStreams == |Indexes(c, v, NOBODY, |c|)|
      requires exclude == NOBODY || (exclude < STREAMS && On(c, v, NOBODY, exclude))
      ensures result.None? <==> totalStreams == 1 && exclude != NOBODY
      ensures result.Some? ==>
                |result.value| == 2 * size &&
                forall k :: 0 <= k < 2 * size ==> result.value[k] == Mixed(c, v, exclude, k)
    {
      ghost var ix := Indexes(c, v, exclude, |c|);
      if exclude != NOBODY {
        OneLess(c, v, exclude, |c|);
      }
      forall k: nat
        ensures Mixed(c, v, exclude, k) == Clip(SumOver(c, ix, k))
      {
        SumIsOverIndexes(c, v, exclude, k, |c|);
      }
      AllPlayable(c, v, size, exclude);
      var voices := if exclude != NOBODY then totalStreams - 1 else totalStreams;
      if voices == 0 {
        return None;
      }
      var valShort := new int[2 * size];
      if voices == 1 {
        var a := FindFirst(c, v, exclude);
        MixOneStream(c[a].value, valShort, size);
        OneVoice(c, a);
      } else {
        var index := new nat[voices];
        FindIndexes(c, v, exclude, index);
        assert index[..] == index[..voices] == ix;
        MixMany(c, index[..], valShort, size);
      }
      result := Some(valShort[..]);
    }
  }

  lemma AllPlayable(c: AudioCache, v: Flags, size: nat, exclude: nat)
    requires Playable(c, v, size)
    ensures Voices(c, Indexes(c, v, exclude, |c|), size)
  {
    var ix := Indexes(c, v, exclude, |c|);
    assert forall t :: 0 <= t < |ix| && On(c, v, exclude, ix[t]) ==> ix[t] == NOBODY || On(c, v, NOBODY, ix[t]);
  }

  lemma {:induction false} IndexesPrefix(c: AudioCache, v: Flags, exclude: nat, n: nat)
    requires n <= STREAMS
    ensures Indexes(c, v, exclude, n) <= Indexes(c, v, exclude, |c|)
    decreases STREAMS - n
  {
    if n < STREAMS {
      IndexesPrefix(c, v, exclude, n + 1);
    }
  }

  lemma FirstIsOnly(c: AudioCache, v: Flags, exclude: nat, j: nat)
    requires j < STREAMS && On(c, v, exclude, j) && Indexes(c, v, exclude, j) == []
    requires |Indexes(c, v, exclude, |c|)| == 1
    ensures Indexes(c, v, exclude, |c|) == [j]
  {
    IndexesPrefix(c, v, exclude, j + 1);
    assert Indexes(c, v, exclude, j + 1) == [j];
  }

  lemma IndexesGrow(c: AudioCache, v: Flags, exclude: nat, n: nat)
    requires n <= STREAMS
    ensures |Indexes(c, v, exclude, n)| <= |Indexes(c, v, exclude, |c|)|
  {
    IndexesPrefix(c, v, exclude, n);
  }

  lemma OneVoice(c: AudioCache, a: nat)
    requires a < STREAMS && c[a].Some?
    ensures forall k: nat :: SumOver(c, [a], k) == Sample(c[a].value, k)
  {
    assert [a][..0] == [];
  }

  lemma TwoVoices(c: AudioCache, a: nat, b: nat)
    requires a < STREAMS && b < STREAMS && c[a].Some? && c[b].Some?
    ensures forall k: nat :: SumOver(c, [a, b], k) == Sample(c[a].value, k) + Sample(c[b].value, k)
  {
    OneVoice(c, a);
    assert [a, b][..1] == [a];
  }

  lemma ThreeVoices(c: AudioCache, a: nat, b: nat, d: nat)
    requires a < STREAMS && b < STREAMS && d < STREAMS && c[a].Some? && c[b].Some? && c[d].Some?
    ensures forall k: nat ::
            SumOver(c, [a, b, d], k) == Sample(c[a].value, k) + Sample(c[b].value, k) + Sample(c[d].value, k)
  {
    TwoVoices(c, a, b);
    assert [a, b, d][..2] == [a, b];
  }

  lemma FourVoices(c: AudioCache, a: nat, b: nat, d: nat, e: nat)
    requires a < STREAMS && b < STREAMS && d < STREAMS && e < STREAMS
    requires c[a].Some? && c[b].Some? && c[d].Some? && c[e].Some?
    ensures forall k: nat ::
              SumOver(c, [a, b, d, e], k) ==
              Sample(c[a].value, k) + Sample(c[b].value, k) + Sample(c[d].value, k) + Sample(c[e].value, k)
  {
    ThreeVoices(c, a, b, d);
    assert [a, b, d, e][..3] == [a, b, d];
  }

  // ----- in numbers

  /** Sums are cut off at the ends of the 16-bit range, and left alone inside it. */
  lemma ClipExactly(val: int)
    ensures -32768 <= Clip(val) <= 32767
    ensures -32768 <= val <= 32767 ==> Clip(val) == val
    ensures val > 32767 ==> Clip(val) == 32767
    ensures val < -32768 ==> Clip(val) == -32768
  {
  }

  /** Clipping keeps the order of sums and widens no gap. */
  lemma ClipOrdered(a: int, b: int)
    requires a <= b
    ensures Clip(a) <= Clip(b) && Clip(b) - Clip(a) <= b - a
  {
  }

  /** Stereo frames are read sample by sample, mono frames each sample twice. */
  lemma SamplesExactly(a: AudioRaw, size: nat, k: nat)
    requires Sized(a, size) && k < 2 * size
    ensures a.isStereo ==> Sample(a, k) == a.frame[k]
    ensures !a.isStereo ==> Sample(a, k) == a.frame[k / 2]
  {
  }

  lemma {:induction false} OnlyTwo(c: AudioCache, v: Flags, i: nat, j: nat, exclude: nat, k: nat, n: nat)
    requires i < j < STREAMS && n <= STREAMS && c[i].Some? && v[i] && c[j].Some? && v[j]
    requires forall q :: 0 <= q < STREAMS && q != i && q != j ==> !(c[q].Some? && v[q])
    ensures Sum(c, v, exclude, k, n) ==
            (if i < n && exclude != i then Sample(c[i].value, k) else 0) +
            (if j < n && exclude != j then Sample(c[j].value, k) else 0)
  {
    if n > 0 {
      OnlyTwo(c, v, i, j, exclude, k, n - 1);
    }
  }

  /** Two valid streams: each hears the other, and the all-in stream both. */
  lemma TwoHearEachOther(c: AudioCache, v: Flags, i: nat, j: nat, k: nat)
    requires i < j < STREAMS && c[i].Some? && v[i] && c[j].Some? && v[j]
    requires forall q :: 0 <= q < STREAMS && q != i && q != j ==> !(c[q].Some? && v[q])
    ensures Mixed(c, v, i, k) == Clip(Sample(c[j].value, k)) && Mixed(c, v, j, k) == Clip(Sample(c[i].value, k))
    ensures Mixed(c, v, NOBODY, k) == Clip(Sample(c[i].value, k) + Sample(c[j].value, k))
  {
    OnlyTwo(c, v, i, j, i, k, |c|);
    OnlyTwo(c, v, i, j, j, k, |c|);
    OnlyTwo(c, v, i, j, NOBODY, k, |c|);
  }
}
