/**
 FLVSegmentOutput: collects at most one packaged buffer per viewer, plus one for the
 all-in stream, and serializes them as one SGO frame.
 */
module SegmentWriting {
  import opened Bytes
  import opened BitMask
  import opened FlvWriting

  /** MAX_XCODING_INSTANCES; slot 32 is the all-in stream. */
  const ALL_IN: nat := 32
  const SLOTS: nat := 33

  const SGO: seq<byte> := [0x53, 0x47, 0x4f]

  /** One buffer per slot; a null and an empty buffer are treated alike. */
  type Buffers = s: seq<seq<byte>> | |s| == 33 witness seq(33, _ => [])

  const NO_BUFFERS: Buffers := seq(33, _ => [])

  function Present(bufs: Buffers): (p: seq<bool>)
    ensures |p| == 33
  {
    seq(33, i requires 0 <= i < 33 => bufs[i] != [])
  }

  function Entry(id: byte, buf: seq<byte>): (e: seq<byte>)
    ensures |e| == 5 + |buf|
  {
    [id] + Le32(|buf|) + buf
  }

  /** What slot i contributes: the all-in slot always has an entry. */
  function Slot(bufs: Buffers, i: nat): seq<byte>
    requires i < SLOTS
  {
    if bufs[i] != [] || i == ALL_IN then Entry(i, bufs[i]) else []
  }

  /** The entries of the slots below n, in order. */
  function Entries(bufs: Buffers, n: nat): seq<byte>
    requires n <= SLOTS
  {
    if n == 0 then [] else Entries(bufs, n - 1) + Slot(bufs, n - 1)
  }

  function TotalLen(bufs: Buffers, n: nat): (len: nat)
    requires n <= SLOTS
    ensures len == 0 <==> forall i :: 0 <= i < n ==> bufs[i] == []
  {
    if n == 0 then 0 else TotalLen(bufs, n - 1) + |bufs[n - 1]|
  }

  function StreamMask(bufs: Buffers): (m: nat)
    ensures m < U32
  {
    Pow2Of32();
    MaskOf(Present(bufs)[..32])
  }

  function Serialize(bufs: Buffers): seq<byte> {
    SGO + Le32(StreamMask(bufs)) + Entries(bufs, |bufs|)
  }

  function OneFrame(bufs: Buffers): Option<seq<byte>> {
    if TotalLen(bufs, |bufs|) > 0 then Some(Serialize(bufs)) else None
  }

  /** The sizes counted in the first loop are those of the bytes written in the second. */
  lemma {:induction false} EntriesSize(bufs: Buffers, n: nat)
    requires n <= ALL_IN
    ensures |Entries(bufs, n)| == 5 * Count(Present(bufs)[..n]) + TotalLen(bufs, n)
  {
    if n > 0 {
      EntriesSize(bufs, n - 1);
      PresentSnoc(bufs, n - 1);
    }
  }

  lemma PresentSnoc(bufs: Buffers, i: nat)
    requires i < ALL_IN
    ensures Count(Present(bufs)[..i + 1]) == Count(Present(bufs)[..i]) + (if bufs[i] != [] then 1 else 0)
  {
    var p := Present(bufs);
    assert p[..i + 1] == p[..i] + [p[i]];
    MaskSnoc(p[..i], p[i]);
  }

  class FlvSegmentOutput {
    const output: seq<FlvOutput>
    var outputBuffer: Buffers

    ghost predicate Valid() {
      |output| == SLOTS &&
      (forall i, j :: 0 <= i < j < SLOTS ==> output[i] != output[j]) &&
      (forall i :: 0 <= i < SLOTS ==> output[i].metadata == output[0].metadata && output[i].codec == output[0].codec)
    }

    ghost function Sent(): (s: seq<bool>)
      requires Valid()
      reads output
    {
      seq(33, i requires 0 <= i < 33 reads output => output[i].flvHeaderSent)
    }

    constructor (metadata: seq<byte>, codec: AudioCodec)
      ensures Valid() && fresh(output) && outputBuffer == NO_BUFFERS
      ensures output[0].metadata == metadata && output[0].codec == codec
      ensures Sent() == seq(33, _ => false)
    {
      var outs: seq<FlvOutput> := [];
      for i := 0 to SLOTS
        invariant |outs| == i
        invariant fresh(outs)
        invariant forall j, k :: 0 <= j < k < i ==> outs[j] != outs[k]
        invariant forall j :: 0 <= j < i ==>
                    outs[j].metadata == metadata && outs[j].codec == codec && !outs[j].flvHeaderSent
      {
        var o := new FlvOutput(metadata, codec);
        outs := outs + [o];
      }
      output := outs;
      outputBuffer := seq(33, _ => []);
    }

    method PackageVideoFrame(packet: seq<byte>, ts: nat, isKey: bool, streamId: nat, videoRect: VideoRect)
      requires Valid() && streamId < SLOTS && ts < U32
      modifies this, output[streamId]
      ensures Sent() == old(Sent())[streamId := true]
      ensures outputBuffer == old(outputBuffer)[streamId :=
                Packaged(old(Sent())[streamId], output[0].metadata,
                         TagBytes(VIDEO_TAG, ts, VideoBody(packet, isKey, videoRect)))]
    {
      var b := output[streamId].PackageVideoFrame(packet, ts, isKey, videoRect);
      outputBuffer := outputBuffer[streamId := b];
    }

    method PackageAudioFrame(packet: seq<byte>, ts: nat, streamId: nat)
      requires Valid() && streamId < SLOTS && ts < U32
      modifies this, output[streamId]
      ensures Sent() == old(Sent())[streamId := true]
      ensures outputBuffer == old(outputBuffer)[streamId :=
                Packaged(old(Sent())[streamId], output[0].metadata,
                         TagBytes(AUDIO_TAG, ts, AudioBody(packet, output[0].codec)))]
    {
      var b := output[streamId].PackageAudioFrame(packet, ts);
      outputBuffer := outputBuffer[streamId := b];
    }

    method GetOneFrameForAllStreams() returns (result: Option<seq<byte>>)
      requires TotalLen(outputBuffer, |outputBuffer|) < 0x7fff_0000
      modifies this
      ensures result == OneFrame(old(outputBuffer))
      ensures outputBuffer == NO_BUFFERS
    {
      var streamMask, totalLen, totalStreams := Measure();
      result := None;
      if totalLen > 0 {
        var data := WriteAll(streamMask, totalLen, totalStreams);
        result := Some(data[..]);
      }
      assert outputBuffer == NO_BUFFERS;
    }

    /** First pass: how many entries there will be, their payload bytes, and the mask without the all-in stream. */
    method Measure() returns (streamMask: nat, totalLen: nat, totalStreams: nat)
      ensures streamMask == StreamMask(outputBuffer)
      ensures totalLen == TotalLen(outputBuffer, |outputBuffer|)
      ensures totalLen > 0 ==> totalStreams == Count(Present(outputBuffer)[..32]) + 1
    {
      ghost var p := Present(outputBuffer);
      streamMask, totalLen, totalStreams := 0, 0, 0;
      var bit := 1;
      for i := 0 to SLOTS
        invariant totalLen == TotalLen(outputBuffer, i)
        invariant i <= ALL_IN ==> bit == Pow2(i)
        invariant i <= ALL_IN ==> totalStreams == Count(p[..i])
        invariant i <= ALL_IN ==> streamMask == MaskOf(p[..i])
        invariant i <= ALL_IN ==> (totalStreams > 0 <==> totalLen > 0)
        invariant i == SLOTS ==> streamMask == MaskOf(p[..32])
        invariant i == SLOTS && totalLen > 0 ==> totalStreams == Count(p[..32]) + 1
      {
        if i < ALL_IN {
          assert p[..i + 1] == p[..i] + [p[i]];
          MaskSnoc(p[..i], p[i]);
        }
        if outputBuffer[i] != [] {
          totalLen := totalLen + |outputBuffer[i]|;
          totalStreams := totalStreams + 1;
          if i != ALL_IN {
            streamMask := streamMask + bit;
          }
        } else if i == ALL_IN && totalStreams > 0 {
          totalStreams := totalStreams + 1;
        }
        bit := 2 * bit;
      }
    }

    /** Second pass: header, then every entry; written buffers are reset. The allocation fits exactly. */
    method WriteAll(streamMask: nat, totalLen: nat, totalStreams: nat) returns (data: array<byte>)
      requires streamMask == StreamMask(outputBuffer)
      requires totalLen == TotalLen(outputBuffer, |outputBuffer|)
      requires totalStreams == Count(Present(outputBuffer)[..32]) + 1
      modifies this
      ensures data[..] == Serialize(old(outputBuffer))
      ensures outputBuffer == NO_BUFFERS
    {
      ghost var bufs := outputBuffer;
      SizeMeasured(bufs);
      data := NewFrame(streamMask, 7 + 5 * totalStreams + totalLen);
      WriteEntries(data, SGO + Le32(streamMask));
      assert data[..] == data[..data.Length];
    }

    method WriteEntries(data: array<byte>, ghost head: seq<byte>)
      requires data.Length == 7 + |Entries(outputBuffer, |outputBuffer|)|
      requires data[..7] == head
      modifies this, data
      ensures data[..data.Length] == head + Entries(old(outputBuffer), |outputBuffer|)
      ensures outputBuffer == NO_BUFFERS
    {
      ghost var bufs := outputBuffer;
      var offset := 7;
      assert head + Entries(bufs, 0) == head;
      for i := 0 to |outputBuffer|
        invariant offset == 7 + |Entries(bufs, i)| <= data.Length
        invariant data[..offset] == head + Entries(bufs, i)
        invariant forall j :: 0 <= j < i ==> outputBuffer[j] == []
        invariant forall j :: i <= j < SLOTS ==> outputBuffer[j] == bufs[j]
      {
        EntriesGrow(bufs, i + 1);
        assert Entries(bufs, i + 1) == Entries(bufs, i) + Slot(bufs, i);
        assert Slot(outputBuffer, i) == Slot(bufs, i);
        var size := WriteSlot(data, offset, i);
        ConcatAssoc(head, Entries(bufs, i), Slot(bufs, i));
        offset := offset + size;
      }
    }

    method WriteSlot(data: array<byte>, offset: nat, i: nat) returns (size: nat)
      requires i < SLOTS && offset + |Slot(outputBuffer, i)| <= data.Length
      modifies this, data
      ensures size == |Slot(old(outputBuffer), i)|
      ensures data[..offset + size] == old(data[..offset]) + Slot(old(outputBuffer), i)
      ensures outputBuffer == old(outputBuffer)[i := []]
    {
      size := 0;
      if outputBuffer[i] != [] || i == ALL_IN {
        WriteEntry(data, offset, i, outputBuffer[i]);
        size := 5 + |outputBuffer[i]|;
        outputBuffer := outputBuffer[i := []];
      }
    }
  }

  /** What is written so far always fits what was measured. */
  lemma {:induction false} EntriesGrow(bufs: Buffers, n: nat)
    requires n <= SLOTS
    ensures |Entries(bufs, n)| <= |Entries(bufs, |bufs|)|
    decreases SLOTS - n
  {
    if n < SLOTS {
      EntriesGrow(bufs, n + 1);
    }
  }

  method NewFrame(streamMask: nat, size: nat) returns (data: array<byte>)
    requires size >= 7
    ensures fresh(data) && data.Length == size && data[..7] == SGO + Le32(streamMask)
  {
    data := new byte[size];
    data[0], data[1], data[2] := 'S' as int, 'G' as int, 'O' as int;
    Memcpy(data, 3, Le32(streamMask));
  }

  lemma SizeMeasured(bufs: Buffers)
    ensures |Entries(bufs, |bufs|)| == 5 * (Count(Present(bufs)[..32]) + 1) + TotalLen(bufs, |bufs|)
  {
    EntriesSize(bufs, ALL_IN);
  }

  method WriteEntry(data: array<byte>, offset: nat, id: byte, buf: seq<byte>)
    requires offset + 5 + |buf| <= data.Length
    modifies data
    ensures data[..offset + 5 + |buf|] == old(data[..offset]) + Entry(id, buf)
  {
    data[offset] := id;
    Memcpy(data, offset + 1, Le32(|buf|));
    Memcpy(data, offset + 5, buf);
  }
}
