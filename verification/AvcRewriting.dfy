/** The two byte rewritings of FLVParser: AVCC units and the AVC sequence header, both to Annex B. */
module AvcRewriting {
  import opened Bytes

  const START_CODE: seq<byte> := [0, 0, 0, 1]

  /** FF_INPUT_BUFFER_PADDING_SIZE zero bytes. */
  const PADDING: seq<byte> := [0, 0, 0, 0, 0, 0, 0, 0, 0, 0, 0, 0, 0, 0, 0, 0]

  /** Section 5.2.4.1 of ISO/IEC 14496-15: units behind four-byte lengths. */
  function Avcc(units: seq<seq<byte>>): seq<byte> {
    if units == [] then [] else Be32(|units[0]|) + units[0] + Avcc(units[1..])
  }

  ghost predicate Encodable(units: seq<seq<byte>>) {
    forall k :: 0 <= k < |units| ==> |units[k]| < U32
  }

  /** Annex B of ITU-T H.264: nonempty units behind start codes. */
  function AnnexB(units: seq<seq<byte>>): seq<byte> {
    if units == [] then []
    else (if units[0] == [] then [] else START_CODE + units[0]) + AnnexB(units[1..])
  }

  lemma {:induction false} AnnexBSnoc(units: seq<seq<byte>>, u: seq<byte>)
    ensures AnnexB(units + [u]) == AnnexB(units) + (if u == [] then [] else START_CODE + u)
  {
    if units == [] {
      assert units + [u] == [u];
      assert AnnexB([u][1..]) == [];
    } else {
      assert (units + [u])[1..] == units[1..] + [u];
      AnnexBSnoc(units[1..], u);
    }
  }

  lemma {:induction false} AvccSnoc(units: seq<seq<byte>>, u: seq<byte>)
    ensures Avcc(units + [u]) == Avcc(units) + (Be32(|u|) + u)
  {
    if units == [] {
      assert units + [u] == [u];
      assert Avcc([u][1..]) == [];
    } else {
      assert (units + [u])[1..] == units[1..] + [u];
      AvccSnoc(units[1..], u);
    }
  }

  /** A payload splits into length-prefixed units in at most one way. */
  lemma {:induction false} AvccInjective(a: seq<seq<byte>>, b: seq<seq<byte>>)
    requires Encodable(a) && Encodable(b) && Avcc(a) == Avcc(b)
    ensures a == b
  {
    if a != [] && b != [] {
      var p := Avcc(a);
      FirstUnit(a);
      FirstUnit(b);
      assert a[0] == b[0];
      AvccInjective(a[1..], b[1..]);
      assert a == [a[0]] + a[1..] && b == [b[0]] + b[1..];
    }
  }

  lemma FirstUnit(units: seq<seq<byte>>)
    requires Encodable(units) && units != []
    ensures var p := Avcc(units);
            |p| >= 4 + |units[0]| && FromBe32(p[..4]) == |units[0]| &&
            p[4..4 + |units[0]|] == units[0] && p[4 + |units[0]|..] == Avcc(units[1..])
  {
    Be32RoundTrip(|units[0]|);
    var h, u, t := Be32(|units[0]|), units[0], Avcc(units[1..]);
    assert (h + u + t)[..4] == h;
  }

  /**
   The NALU loop of parseNextFLVFrame on the payload of one tag. `None` stands for a
   payload that ends inside a unit, where the source reads past the payload.
   */
  method RewriteUnits(payload: seq<byte>) returns (inputData: Option<seq<byte>>, ghost units: seq<seq<byte>>)
    ensures inputData.Some? <==> exists us :: Encodable(us) && Avcc(us) == payload
    ensures inputData.Some? ==> Encodable(units) && Avcc(units) == payload && inputData.value == AnnexB(units) + PADDING
  {
    var data := [];
    var dataSize := |payload|;
    units := [];
    while dataSize > 0
      invariant 0 <= dataSize <= |payload|
      invariant Encodable(units) && Avcc(units) == payload[..|payload| - dataSize]
      invariant data == AnnexB(units)
      invariant forall us :: Encodable(us) && Avcc(us) == payload ==>
                  exists rest :: Encodable(rest) && Avcc(rest) == payload[|payload| - dataSize..]
    {
      var at := |payload| - dataSize;
      ghost var tail := payload[at..];
      if dataSize < 4 {
        TooShort(tail);
        return None, units;
      }
      var size := FromBe32(payload[at..at + 4]);
      if dataSize < 4 + size {
        assert tail[..4] == payload[at..at + 4];
        TooShort(tail);
        return None, units;
      }
      var slice := payload[at + 4..at + 4 + size];
      if size > 0 {
        data := data + (START_CODE + slice);
      }
      NextUnit(payload, at, units, slice);
      AnnexBSnoc(units, slice);
      units := units + [slice];
      dataSize := dataSize - (4 + size);
    }
    assert payload[..|payload|] == payload;
    return Some(data + PADDING), units;
  }

  /** A tail that ends inside its first unit is no list of units. */
  lemma TooShort(tail: seq<byte>)
    requires tail != [] && (|tail| < 4 || |tail| < 4 + FromBe32(tail[..4]))
    ensures !exists us :: Encodable(us) && Avcc(us) == tail
  {
    forall us | Encodable(us) && Avcc(us) == tail
      ensures false
    {
      FirstUnit(us);
    }
  }

  lemma NextUnit(payload: seq<byte>, at: nat, units: seq<seq<byte>>, slice: seq<byte>)
    requires at + 4 + |slice| <= |payload| && |slice| == FromBe32(payload[at..at + 4])
    requires slice == payload[at + 4..at + 4 + |slice|] && Avcc(units) == payload[..at]
    ensures Avcc(units + [slice]) == payload[..at + 4 + |slice|]
    ensures (exists us :: Encodable(us) && Avcc(us) == payload[at..]) ==>
              exists us :: Encodable(us) && Avcc(us) == payload[at + 4 + |slice|..]
  {
    AvccSnoc(units, slice);
    Be32Inverse(payload[at..at + 4]);
    assert payload[..at + 4 + |slice|] == payload[..at] + (payload[at..at + 4] + slice);
    if us :| Encodable(us) && Avcc(us) == payload[at..] {
      FirstUnit(us);
      assert payload[at..][..4] == payload[at..at + 4];
      assert payload[at..][4 + |slice|..] == payload[at + 4 + |slice|..];
      assert Avcc(us[1..]) == payload[at + 4 + |slice|..];
    }
  }

  lemma Be24Inverse(s: seq<byte>)
    requires |s| == 3
    ensures Be24(FromBe24(s)) == s
  {
  }

  lemma Be32Inverse(s: seq<byte>)
    requires |s| == 4
    ensures Be32(FromBe32(s)) == s
  {
    var a: nat, m := s[0], FromBe24(s[1..]);
    var n := 0x100_0000 * a + m;
    Be24Inverse(s[1..]);
    assert n / 0x100 == 0x1_0000 * a + m / 0x100;
    assert n / 0x100 / 0x100 == 0x100 * a + m / 0x100 / 0x100;
    assert Be24(n) == Be24(m);
  }

  // ----- the AVC sequence header

  /** BitStreamParser.readBytes: short reads are truncated; starting past the end throws. */
  function ReadBytes(data: seq<byte>, at: nat, n: nat): (r: Option<seq<byte>>)
    ensures r.Some? <==> at <= |data|
  {
    if at > |data| then None else Some(if at + n <= |data| then data[at..at + n] else data[at..])
  }

  /** A 16-bit length as the source computes it: the low byte is a signed char and is sign-extended. */
  function CharLength(hi: byte, lo: byte): (n: nat)
    ensures n < 0x1_0000
  {
    if lo < 0x80 then 0x100 * hi + lo else 0xff00 + lo
  }

  /** Lengths the sign extension leaves alone. */
  predicate LengthSurvives(n: nat) {
    n % 0x100 < 0x80 || n / 0x100 == 0xff
  }

  /** The sequence-header case, on everything after the composition time, trailer included. */
  function SequenceHeader(data: seq<byte>): Option<seq<byte>> {
    var spsLenStr := ReadBytes(data, 6, 2);
    if spsLenStr.None? || |spsLenStr.value| < 2 then None else
    var spsLen := CharLength(spsLenStr.value[0], spsLenStr.value[1]);
    var sps := ReadBytes(data, 8, spsLen);
    var ppsLenStr := ReadBytes(data, 9 + spsLen, 2);
    if sps.None? || ppsLenStr.None? || |ppsLenStr.value| < 2 then None else
    var ppsLen := CharLength(ppsLenStr.value[0], ppsLenStr.value[1]);
    var pps := ReadBytes(data, 11 + spsLen, ppsLen);
    if pps.None? then None else
    Some(START_CODE + sps.value + START_CODE + pps.value)
  }

  /** An AVCDecoderConfigurationRecord with one SPS and one PPS. */
  function ConfigRecord(head: seq<byte>, sps: seq<byte>, numPps: byte, pps: seq<byte>): seq<byte>
    requires |head| == 6
  {
    head + Be16(|sps|) + sps + [numPps] + Be16(|pps|) + pps
  }

  lemma LengthRead(n: nat)
    requires n < 0x1_0000
    ensures CharLength(Be16(n)[0], Be16(n)[1]) == n <==> LengthSurvives(n)
    ensures !LengthSurvives(n) ==> CharLength(Be16(n)[0], Be16(n)[1]) >= n + 0x100
  {
  }

  /** The extraction is right exactly when both lengths survive being read through signed chars. */
  lemma SequenceHeaderExact(head: seq<byte>, sps: seq<byte>, numPps: byte, pps: seq<byte>, trailer: seq<byte>)
    requires |head| == 6 && |sps| < 0x1_0000 && |pps| < 0x1_0000 && |trailer| == 4
    ensures SequenceHeader(ConfigRecord(head, sps, numPps, pps) + trailer) == Some(START_CODE + sps + START_CODE + pps)
            <==> LengthSurvives(|sps|) && LengthSurvives(|pps|)
  {
    var data := ConfigRecord(head, sps, numPps, pps) + trailer;
    RecordLayout(head, sps, numPps, pps, trailer);
    LengthRead(|sps|);
    LengthRead(|pps|);
    var right := START_CODE + sps + START_CODE + pps;
    if !LengthSurvives(|sps|) {
      SpsMisread(head, sps, numPps, pps, trailer);
    } else if !LengthSurvives(|pps|) {
      var at := 11 + |sps|;
      assert data[at..] == pps + trailer;
      assert |SequenceHeader(data).value| > |right|;
    } else {
      assert SequenceHeader(data) == Some(right);
    }
  }

  lemma RecordLayout(head: seq<byte>, sps: seq<byte>, numPps: byte, pps: seq<byte>, trailer: seq<byte>)
    requires |head| == 6 && |trailer| == 4
    ensures var data := ConfigRecord(head, sps, numPps, pps) + trailer; var n := |sps|;
            |data| == 15 + n + |pps| && data[6..8] == Be16(n) && data[8..8 + n] == sps && data[8 + n] == numPps &&
            data[9 + n..11 + n] == Be16(|pps|) && data[11 + n..11 + n + |pps|] == pps
  {
  }

  /** A misread SPS length runs into what follows, which is no start code. */
  lemma SpsMisread(head: seq<byte>, sps: seq<byte>, numPps: byte, pps: seq<byte>, trailer: seq<byte>)
    requires |head| == 6 && |sps| < 0x1_0000 && |pps| < 0x1_0000 && |trailer| == 4 && !LengthSurvives(|sps|)
    ensures SequenceHeader(ConfigRecord(head, sps, numPps, pps) + trailer) != Some(START_CODE + sps + START_CODE + pps)
  {
    RecordLayout(head, sps, numPps, pps, trailer);
    var data := ConfigRecord(head, sps, numPps, pps) + trailer;
    var hi, lo := data[9 + |sps|], data[10 + |sps|];
    assert data[9 + |sps|..11 + |sps|] == [hi, lo];
    assert hi == Be16(|pps|)[0] && lo == Be16(|pps|)[1];
    assert data[6..8][0] == data[6] && data[6..8][1] == data[7];
    LengthRead(|sps|);
    MisreadAt(data, hi, lo, sps, pps);
  }

  lemma MisreadAt(data: seq<byte>, hi: byte, lo: byte, sps: seq<byte>, pps: seq<byte>)
    requires |data| >= 15 + |sps| && CharLength(data[6], data[7]) >= |sps| + 0x100
    requires data[9 + |sps|] == hi && data[10 + |sps|] == lo
    requires hi != 0 || lo != 0 || |data| < 267 + |sps|
    ensures SequenceHeader(data) != Some(START_CODE + sps + START_CODE + pps)
  {
    var n := |sps|;
    var right := START_CODE + sps + START_CODE + pps;
    if SequenceHeader(data).Some? {
      var w := SequenceHeader(data).value;
      SpsCopied(data, w, n + 1);
      SpsCopied(data, w, n + 2);
      assert w[n + 5] == hi && w[n + 6] == lo;
      StartCodeAt(sps, pps, n);
    }
  }

  lemma StartCodeAt(sps: seq<byte>, pps: seq<byte>, n: nat)
    requires |sps| == n
    ensures var r := START_CODE + sps + START_CODE + pps; |r| >= 8 + n && r[n + 5] == 0 && r[n + 6] == 0
  {
  }

  lemma SpsCopied(data: seq<byte>, w: seq<byte>, k: nat)
    requires |data| >= 8 && SequenceHeader(data) == Some(w) && k < CharLength(data[6], data[7])
    ensures |data| >= 11 + CharLength(data[6], data[7]) && |w| > 4 + k
    ensures w[k + 4] == data[k + 8]
  {
    var spsLen := CharLength(data[6], data[7]);
    assert data[6..8] == [data[6], data[7]];
    var sps := data[8..8 + spsLen];
    assert w[k + 4] == sps[k];
  }
}
