/** What is in the tags one call makes, and in the bytes they become, read back number by number. */
module Packaging {
  import opened BitMask
  import opened Bytes
  import opened FlvWriting
  import opened Mixing
  import opened SegmentWriting

  /** Two bytes read as one number, the higher first. */
  function Number(hi: byte, lo: byte): nat {
    var h: int, l: int := hi, lo;
    256 * h + l
  }

  /** Four bytes, the highest first. */
  function Number4(a: byte, b: byte, c: byte, d: byte): nat {
    65536 * Number(a, b) + Number(c, d)
  }

  /** A stream the call composes, or mixes. */
  predicate Shown(m: Mix, i: nat)
    requires i < 32
  {
    m.rawVideo[i].Some? && m.videoValid[i]
  }

  predicate Played(m: Mix, i: nat)
    requires i < 32
  {
    m.rawAudio[i].Some? && m.audioValid[i]
  }

  /** A VP8 tag: frame type and codec, where the viewer's picture is, and the packet. */
  ghost predicate TellsPicture(tag: Tag, t: nat, isKey: bool, r: VideoRect, packet: seq<byte>) {
    var b := tag.body;
    tag.kind == 9 && tag.ts == t && |b| == 9 + |packet| &&
    b[0] / 16 == (if isKey then 1 else 2) && b[0] % 16 == 8 &&
    Number(b[1], b[2]) == Low16(r.x) && Number(b[3], b[4]) == Low16(r.y) &&
    Number(b[5], b[6]) == Low16(r.width) && Number(b[7], b[8]) == Low16(r.height) && b[9..] == packet
  }

  /** An MP3 tag at 44.1 kHz, 16 bits, stereo. */
  ghost predicate TellsSound(tag: Tag, a: nat, packet: seq<byte>) {
    tag.kind == 8 && tag.ts == a && |tag.body| == 1 + |packet| && tag.body[0] == 0x2f && tag.body[1..] == packet
  }

  /** What fits two bytes; every coordinate of a picture does. */
  function Low16(n: nat): (r: nat)
    ensures n < 0x1_0000 ==> r == n
  {
    n % 0x1_0000
  }

  lemma BodyTells(tag: Tag, t: nat, codec: Codec, r: VideoRect)
    requires codec.video.Some? && tag == VideoTag(codec, t, r)
    ensures TellsPicture(tag, t, codec.isKey, r, codec.video.value)
  {
    var h := VideoHeader(codec.isKey, r);
    assert tag.body[..9] == h && tag.body[9..] == codec.video.value;
    HeaderTells(codec.isKey, r, tag.body);
  }

  lemma HeaderTells(isKey: bool, r: VideoRect, b: seq<byte>)
    requires |b| >= 9 && b[..9] == VideoHeader(isKey, r)
    ensures b[0] == (if isKey then 0x18 else 0x28)
    ensures Number(b[1], b[2]) == Low16(r.x) && Number(b[3], b[4]) == Low16(r.y)
    ensures Number(b[5], b[6]) == Low16(r.width) && Number(b[7], b[8]) == Low16(r.height)
  {
    var h := VideoHeader(isKey, r);
    assert forall k :: 0 <= k < 9 ==> b[k] == b[..9][k];
    assert h[1..3] == Be16(r.x) && h[3..5] == Be16(r.y) && h[5..7] == Be16(r.width) && h[7..9] == Be16(r.height);
    Pair(h, 1, r.x);
    Pair(h, 3, r.y);
    Pair(h, 5, r.width);
    Pair(h, 7, r.height);
  }

  lemma Pair(h: seq<byte>, k: nat, n: nat)
    requires k + 2 <= |h| && h[k..k + 2] == Be16(n)
    ensures Number(h[k], h[k + 1]) == Low16(n)
  {
    assert h[k] == h[k..k + 2][0] && h[k + 1] == h[k..k + 2][1];
    LowDigits(n);
  }

  lemma AnyShown(m: Mix)
    ensures AnyVideoOn(m) <==> exists i :: 0 <= i < 32 && Shown(m, i)
    ensures AnyAudioOn(m) <==> exists i :: 0 <= i < 32 && Played(m, i)
    ensures forall i :: 0 <= i < 32 ==> (VideoOn(m, i) <==> Shown(m, i)) && (AudioOn(m, i) <==> Played(m, i))
  {
    assert forall i :: 0 <= i < 32 ==> (VideoOn(m, i) <==> Shown(m, i)) && (AudioOn(m, i) <==> Played(m, i));
  }

  /** Who gets a video tag, and what it says: each viewer its own tile, the all-in stream none. */
  lemma VideoTagsExactly(m: Mix, codec: Codec, t: nat)
    requires !m.crashed && Popped(m).1 == VideoStream(t)
    ensures var m', tags := Popped(m).0, TagsMade(m, codec);
            (forall i :: 0 <= i < 32 ==>
               (tags[i].Some? <==> codec.video.Some? && Shown(m', i) && m.source[i] == 2) &&
               (tags[i].Some? ==>
                  TellsPicture(tags[i].value, t, codec.isKey, codec.rects[i], codec.video.value))) &&
            (tags[32].Some? <==> codec.video.Some? && exists i :: 0 <= i < 32 && Shown(m', i)) &&
            (tags[32].Some? ==>
               TellsPicture(tags[32].value, t, codec.isKey, VideoRect(0, 0, 0, 0), codec.video.value))
  {
    var m', tags := Popped(m).0, TagsMade(m, codec);
    assert m'.source == m.source && !m'.crashed;
    AnyShown(m');
    forall i | 0 <= i < 32
      ensures tags[i].Some? <==> codec.video.Some? && Shown(m', i) && m.source[i] == 2
      ensures tags[i].Some? ==> TellsPicture(tags[i].value, t, codec.isKey, codec.rects[i], codec.video.value)
    {
      assert VideoOn(m', i) <==> Shown(m', i);
      if tags[i].Some? {
        BodyTells(tags[i].value, t, codec, codec.rects[i]);
      }
    }
    if tags[32].Some? {
      BodyTells(tags[32].value, t, codec, NO_RECT);
    }
  }

  /** Who gets an audio tag: each viewer what its own encoder returned, if it returned anything. */
  lemma AudioTagsExactly(m: Mix, codec: Codec, a: nat)
    requires !m.crashed && Popped(m).1 == AudioStream(a) && !Popped(m).0.crashed
    ensures var m', tags := Popped(m).0, TagsMade(m, codec);
            (forall i :: 0 <= i < 32 ==>
               (tags[i].Some? <==> codec.audio[i].Some? && Played(m', i) && m.source[i] == 2) &&
               (tags[i].Some? ==> TellsSound(tags[i].value, a, codec.audio[i].value))) &&
            (tags[32].Some? <==> codec.audio[32].Some? && exists i :: 0 <= i < 32 && Played(m', i)) &&
            (tags[32].Some? ==> TellsSound(tags[32].value, a, codec.audio[32].value))
  {
    var m', tags := Popped(m).0, TagsMade(m, codec);
    assert m'.source == m.source;
    AnyShown(m');
  }

  /** A call that takes neither audio nor video makes no tag. */
  lemma NoOtherTags(m: Mix, codec: Codec, i: nat)
    requires i < 33 && (m.crashed || Popped(m).1.NoStream? || Popped(m).1.Crash?)
    ensures TagsMade(m, codec)[i].None?
  {
  }

  /** A composed stream and an encoded picture make a frame to write. */
  lemma ShownIsWritten(m: Mix, metadata: seq<byte>, codec: Codec, t: nat, i: nat)
    requires !m.crashed && Popped(m).1 == VideoStream(t) && i < 32 && Shown(Popped(m).0, i) && codec.video.Some?
    ensures TagsMade(m, codec)[32].Some? && OutputBytes(m, metadata, codec).Some?
  {
    var tags := TagsMade(m, codec);
    assert VideoOn(Popped(m).0, i);
    assert tags[32].Some?;
    var bufs := BuffersMade(m.sent, metadata, tags);
    assert bufs[32] != [];
  }

  // ----- bytes

  /**
   A tag's bytes (section E.4.1 of the Adobe FLV File Format Specification 10.1): type, DataSize,
   the lower three timestamp bytes and then the highest, StreamID 0, data, and after it the
   PreviousTagSize, 11 more than DataSize (section E.3).
   */
  lemma TagLayout(kind: byte, ts: nat, body: seq<byte>)
    requires ts < U32 && |body| < 0x100_0000
    ensures var b, n := TagBytes(kind, ts, body), |body|;
            |b| == n + 15 && b[0] == kind && Number4(0, b[1], b[2], b[3]) == n &&
            Number4(b[7], b[4], b[5], b[6]) == ts && b[8] == b[9] == b[10] == 0 &&
            b[11..11 + n] == body &&
            Number4(b[11 + n], b[12 + n], b[13 + n], b[14 + n]) == 11 + n
  {
    var b, n := TagBytes(kind, ts, body), |body|;
    var head, end := [kind] + Be24(n) + Be24(ts) + [HighByte(ts)] + [0, 0, 0], Be32(11 + n);
    assert b == head + body + end && |head| == 11;
    assert b[..11] == head && b[11..11 + n] == body && b[11 + n..] == end;
    HeadDigits(kind, n, ts, b);
    EndDigits(11 + n, b, 11 + n);
  }

  lemma HeadDigits(kind: byte, n: nat, ts: nat, b: seq<byte>)
    requires n < 0x100_0000 && ts < U32 && |b| >= 11
    requires b[..11] == [kind] + Be24(n) + Be24(ts) + [HighByte(ts)] + [0, 0, 0]
    ensures b[0] == kind && Number4(0, b[1], b[2], b[3]) == n && Number4(b[7], b[4], b[5], b[6]) == ts
    ensures b[8] == b[9] == b[10] == 0
  {
    assert forall k :: 0 <= k < 11 ==> b[k] == b[..11][k];
    Digits(n);
    Digits(ts);
  }

  lemma EndDigits(n: nat, b: seq<byte>, at: nat)
    requires n < U32 && at + 4 == |b| && b[at..] == Be32(n)
    ensures Number4(b[at], b[at + 1], b[at + 2], b[at + 3]) == n
  {
    var end := b[at..];
    assert b[at] == end[0] && b[at + 1] == end[1] && b[at + 2] == end[2] && b[at + 3] == end[3];
    Digits(n);
  }

  /** The bytes of a number, as numbers. */
  lemma Digits(n: nat)
    requires n < U32
    ensures var s := Be32(n); Number4(s[0], s[1], s[2], s[3]) == n && s[1..] == Be24(n) && s[0] == HighByte(n)
    ensures var s := Le32(n); Number4(s[3], s[2], s[1], s[0]) == n
  {
  }

  lemma LowDigits(n: nat)
    ensures Number(Be16(n)[0], Be16(n)[1]) == Low16(n)
  {
    var q, m := n / 0x1_0000, n % 0x1_0000;
    assert n == 0x1_0000 * q + m;
    assert n / 0x100 == 0x100 * q + m / 0x100;
    assert n / 0x100 % 0x100 == m / 0x100 && n % 0x100 == m % 0x100;
  }

  function HighByte(n: nat): byte {
    n / 0x100 / 0x100 / 0x100 % 0x100
  }

  /** The file header: FLV, version 1, audio and video, nine bytes long, PreviousTagSize0; then the script tag. */
  lemma PreambleLayout(metadata: seq<byte>)
    ensures var b := Preamble(metadata);
            b[..3] == ['F' as int, 'L' as int, 'V' as int] && b[3] == 1 && b[4] == 4 + 1 && b[5..9] == [0, 0, 0, 9] &&
            b[9..13] == [0, 0, 0, 0] && b[13..] == TagBytes(18, 0, metadata)
  {
    var b := Preamble(metadata);
    assert b[..13] == FILE_HEADER && b[13..] == TagBytes(SCRIPT_TAG, 0, metadata);
    assert b[..3] == b[..13][..3] && b[5..9] == b[..13][5..9] && b[9..13] == b[..13][9..13];
    assert b[3] == b[..13][3] && b[4] == b[..13][4];
  }

  /** An entry of an SGO frame: the slot, the length lowest byte first, the buffer. */
  lemma EntryLayout(id: byte, buf: seq<byte>)
    requires |buf| < U32
    ensures var e := Entry(id, buf);
            e[0] == id && Number4(e[4], e[3], e[2], e[1]) == |buf| && e[5..] == buf
  {
    var e := Entry(id, buf);
    assert e[1..5] == Le32(|buf|);
    assert forall k :: 0 <= k < 4 ==> e[1 + k] == e[1..5][k];
    Digits(|buf|);
  }

  /** An SGO frame starts with its name and the mask of the slots that have something. */
  lemma FrameLayout(bufs: Buffers)
    ensures var b := Serialize(bufs);
            b[..3] == ['S' as int, 'G' as int, 'O' as int] && |b| >= 7 &&
            var mask := Number4(b[6], b[5], b[4], b[3]);
            forall i :: 0 <= i < 32 ==> (Bit(mask, i) <==> bufs[i] != [])
  {
    var b, mask := Serialize(bufs), StreamMask(bufs);
    assert b[..3] == SGO && b[3..7] == Le32(mask);
    assert forall k :: 0 <= k < 4 ==> b[3 + k] == b[3..7][k];
    Digits(mask);
    forall i | 0 <= i < 32
      ensures Bit(mask, i) <==> bufs[i] != []
    {
      BitOfMask(Present(bufs)[..32], i);
    }
  }
}
