/** FLVOutput: wraps encoded frames as FLV tags, with the file preamble before the first. */
module FlvWriting {
  import opened Bytes

  /** Where a stream's picture sits inside the mixed picture. */
  datatype VideoRect = VideoRect(x: nat, y: nat, width: nat, height: nat)

  datatype AudioCodec = Mp3 | Mp316kHz | Speex

  const AUDIO_TAG: byte := 0x08
  const VIDEO_TAG: byte := 0x09
  const SCRIPT_TAG: byte := 0x12

  /** 'FLV', version 1, audio and video, header length 9, PreviousTagSize0. */
  const FILE_HEADER: seq<byte> := [0x46, 0x4c, 0x56, 0x01, 0x05, 0, 0, 0, 9, 0, 0, 0, 0]

  /** The DataSize of the onMetaData tag that follows the file header. */
  const METADATA_SIZE: nat := 0x123

  /** Section E.4.1 of the Adobe FLV File Format Specification 10.1, and the PreviousTagSize of section E.3. */
  function TagBytes(kind: byte, ts: nat, body: seq<byte>): (t: seq<byte>)
    ensures |t| == 11 + |body| + 4
  {
    [kind] + Be24(|body|) + Be24(ts) + [ts / 0x100 / 0x100 / 0x100 % 0x100] + [0, 0, 0] + body + Be32(11 + |body|)
  }

  datatype Tag = Tag(kind: byte, ts: nat, body: seq<byte>)

  function TagsBytes(tags: seq<Tag>): seq<byte> {
    if tags == [] then [] else TagBytes(tags[0].kind, tags[0].ts, tags[0].body) + TagsBytes(tags[1..])
  }

  function Preamble(metadata: seq<byte>): (h: seq<byte>)
    ensures h != []
  {
    FILE_HEADER + TagBytes(SCRIPT_TAG, 0, metadata)
  }

  function VideoHeader(isKey: bool, r: VideoRect): (h: seq<byte>)
    ensures |h| == 9
  {
    [if isKey then 0x18 else 0x28] + Be16(r.x) + Be16(r.y) + Be16(r.width) + Be16(r.height)
  }

  /** VP8 (codec 8) behind a frame type, then the rectangle the receiver crops to. */
  function VideoBody(packet: seq<byte>, isKey: bool, r: VideoRect): (b: seq<byte>)
    ensures |b| == 9 + |packet|
  {
    VideoHeader(isKey, r) + packet
  }

  function AudioByte(codec: AudioCodec): byte {
    match codec
    case Mp316kHz => 0xfe
    case Mp3 => 0x2f
    case Speex => 0xbe
  }

  function AudioBody(packet: seq<byte>, codec: AudioCodec): (b: seq<byte>)
    ensures |b| == 1 + |packet|
  {
    [AudioByte(codec)] + packet
  }

  /** What one call of a package method returns. */
  function Packaged(headerSent: bool, metadata: seq<byte>, tag: seq<byte>): seq<byte> {
    if headerSent then tag else Preamble(metadata) + tag
  }

  class FlvOutput {
    const metadata: seq<byte>
    const codec: AudioCodec
    var flvHeaderSent: bool

    constructor (metadata: seq<byte>, codec: AudioCodec)
      ensures this.metadata == metadata && this.codec == codec && !flvHeaderSent
    {
      this.metadata := metadata;
      this.codec := codec;
      flvHeaderSent := false;
    }

    method PackageVideoFrame(packet: seq<byte>, ts: nat, isKey: bool, videoRect: VideoRect)
      returns (result: seq<byte>)
      requires ts < U32
      modifies this
      ensures result ==
              Packaged(old(flvHeaderSent), metadata, TagBytes(VIDEO_TAG, ts, VideoBody(packet, isKey, videoRect)))
      ensures flvHeaderSent
    {
      var videoDataLen := |packet| + 9;
      var data := new byte[11 + videoDataLen + 4];
      WriteTagHeader(data, VIDEO_TAG, ts, videoDataLen);
      WriteVideoHeader(data, isKey, videoRect);
      Memcpy(data, 20, packet);
      ghost var body := VideoBody(packet, isKey, videoRect);
      assert data[11..11 + videoDataLen] == data[11..20] + data[20..20 + |packet|];
      WriteTagTrailer(data, 11 + videoDataLen);
      assert data[11..11 + videoDataLen] == body;
      TagFromParts(data[..], VIDEO_TAG, ts, body);
      result := WithPreamble(data[..]);
    }

    method PackageAudioFrame(packet: seq<byte>, ts: nat) returns (result: seq<byte>)
      requires ts < U32
      modifies this
      ensures result == Packaged(old(flvHeaderSent), metadata, TagBytes(AUDIO_TAG, ts, AudioBody(packet, codec)))
      ensures flvHeaderSent
    {
      var audioDataLen := |packet| + 1;
      var data := new byte[11 + audioDataLen + 4];
      WriteTagHeader(data, AUDIO_TAG, ts, audioDataLen);
      data[11] := if codec == Mp316kHz then 0xfe else if codec == Mp3 then 0x2f else 0xbe;
      if audioDataLen > 1 {
        Memcpy(data, 12, packet);
      }
      ghost var body := AudioBody(packet, codec);
      assert data[11..11 + audioDataLen] == body;
      WriteTagTrailer(data, 11 + audioDataLen);
      assert data[11..11 + audioDataLen] == body;
      TagFromParts(data[..], AUDIO_TAG, ts, body);
      result := WithPreamble(data[..]);
    }

    /** The preamble goes out once, before the first tag. */
    method WithPreamble(frame: seq<byte>) returns (result: seq<byte>)
      modifies this
      ensures result == Packaged(old(flvHeaderSent), metadata, frame) && flvHeaderSent
    {
      if !flvHeaderSent {
        result := Preamble(metadata) + frame;
        flvHeaderSent := true;
      } else {
        result := frame;
      }
    }
  }

  function TagHeader(kind: byte, ts: nat, dataLen: nat): (h: seq<byte>)
    ensures |h| == 11
  {
    [kind] + Be24(dataLen) + Be24(ts) + [ts / 0x100 / 0x100 / 0x100 % 0x100] + [0, 0, 0]
  }

  method WriteTagHeader(data: array<byte>, kind: byte, ts: nat, dataLen: nat)
    requires data.Length >= 11
    modifies data
    ensures data[..11] == TagHeader(kind, ts, dataLen)
  {
    data[0] := kind;
    data[1], data[2], data[3] := dataLen / 0x100 / 0x100 % 0x100, dataLen / 0x100 % 0x100, dataLen % 0x100;
    data[4], data[5], data[6] := ts / 0x100 / 0x100 % 0x100, ts / 0x100 % 0x100, ts % 0x100;
    data[7] := ts / 0x100 / 0x100 / 0x100 % 0x100;
    data[8], data[9], data[10] := 0, 0, 0;
  }

  method WriteVideoHeader(data: array<byte>, isKey: bool, r: VideoRect)
    requires data.Length >= 20
    modifies data
    ensures data[..11] == old(data[..11]) && data[11..20] == VideoHeader(isKey, r)
  {
    data[11] := if isKey then 0x18 else 0x28;
    data[12], data[13] := r.x / 0x100 % 0x100, r.x % 0x100;
    data[14], data[15] := r.y / 0x100 % 0x100, r.y % 0x100;
    data[16], data[17] := r.width / 0x100 % 0x100, r.width % 0x100;
    data[18], data[19] := r.height / 0x100 % 0x100, r.height % 0x100;
  }

  /** PreviousTagSize, which is the offset at which it is written. */
  method WriteTagTrailer(data: array<byte>, tl: nat)
    requires data.Length == tl + 4
    modifies data
    ensures data[..tl] == old(data[..tl]) && data[tl..] == Be32(tl)
  {
    data[tl] := tl / 0x100 / 0x100 / 0x100 % 0x100;
    data[tl + 1] := tl / 0x100 / 0x100 % 0x100;
    data[tl + 2] := tl / 0x100 % 0x100;
    data[tl + 3] := tl % 0x100;
  }

  lemma TagFromParts(data: seq<byte>, kind: byte, ts: nat, body: seq<byte>)
    requires |data| == 11 + |body| + 4
    requires data[..11] == TagHeader(kind, ts, |body|)
    requires data[11..11 + |body|] == body
    requires data[11 + |body|..] == Be32(11 + |body|)
    ensures data == TagBytes(kind, ts, body)
  {
    assert data == data[..11] + data[11..11 + |body|] + data[11 + |body|..];
  }
}
