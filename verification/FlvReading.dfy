/**
 FLVParser: cuts one stream's bytes into FLV tags (protocol `Flv`), then reads each tag:
 timestamp, codec fields, payload rewriting, clock adjustment.
 */
module FlvReading {
  import opened Bytes
  import opened Chunked
  import opened FlvWriting
  import AvcRewriting
  import C = StreamClock

  /** A tag as handed to parseNextFLVFrame: its type byte and everything after the DataSize field. */
  datatype RawTag = RawTag(kind: byte, data: seq<byte>)

  /** `parsed` lists the tags handed on so far. */
  datatype TagCtl = TagCtl(inTag: bool, kind: byte, tagSize: nat, parsed: seq<RawTag>)

  const NO_TAGS: Reader<TagCtl> := Reader(TagCtl(false, 0, 0, []), [])

  function TagNeed(c: TagCtl): nat {
    if c.inTag then c.tagSize else 4
  }

  function TagFinish(c: TagCtl, buf: seq<byte>): TagCtl {
    if |buf| != TagNeed(c) then c
    else if c.inTag then TagCtl(false, 0, 0, c.parsed + [RawTag(c.kind, buf)])
    else TagCtl(true, buf[0], FromBe24(buf[1..]) + 7 + 4, c.parsed)
  }

  const Flv: Protocol<TagCtl> := Protocol(TagNeed, TagFinish)

  lemma FlvProgress()
    ensures Progress(Flv)
  {
  }

  /** TagBytes without the first four bytes. */
  function TagRest(ts: nat, body: seq<byte>): (r: seq<byte>)
    ensures |r| == |body| + 11
  {
    Be24(ts) + [ts / 0x100 / 0x100 / 0x100 % 0x100] + [0, 0, 0] + body + Be32(11 + |body|)
  }

  /** A whole tag is recognised wherever it starts, provided its size fits 24 bits. */
  lemma TagRead(c: TagCtl, kind: byte, ts: nat, body: seq<byte>)
    requires !c.inTag && c.kind == 0 && c.tagSize == 0 && |body| < 0x100_0000
    ensures Feed(Flv, Reader(c, []), TagBytes(kind, ts, body))
            == Reader(c.(parsed := c.parsed + [RawTag(kind, TagRest(ts, body))]), [])
  {
    var h := [kind] + Be24(|body|);
    var rest := TagRest(ts, body);
    assert TagBytes(kind, ts, body) == h + rest;
    FeedConcat(Flv, Reader(c, []), h, rest);
    FeedBulk(Flv, Reader(c, []), h);
    assert [] + h == h && h[1..] == Be24(|body|);
    Be24RoundTrip(|body|);
    FeedBulk(Flv, Reader(c.(inTag := true, kind := kind, tagSize := |rest|), []), rest);
    assert [] + rest == rest;
  }

  /** Timestamp, then the part of the tag that DataSize counts. */
  function Timestamp(t: RawTag): (ts: nat)
    requires |t.data| >= 11
    ensures ts < U32
  {
    var hi: nat := t.data[3];
    FromBe24(t.data[..3]) + 0x100_0000 * hi
  }

  function Body(t: RawTag): seq<byte>
    requires |t.data| >= 11
  {
    t.data[7..|t.data| - 4]
  }

  lemma TagRestRead(kind: byte, ts: nat, body: seq<byte>)
    requires ts < U32
    ensures var t := RawTag(kind, TagRest(ts, body)); Timestamp(t) == ts && Body(t) == body
  {
    var d := TagRest(ts, body);
    assert d[..3] == Be24(ts);
    Be32RoundTrip(ts);
    assert Be32(ts)[1..] == Be24(ts);
    assert d[7..|d| - 4] == body;
  }

  // ----- reading one tag

  datatype Property = RawData | SpsPps | EndSeq | SeqHeader

  datatype AccessUnit = AccessUnit(kind: C.Kind, ctype: nat, sp: Property, isKey: bool, pts: nat, payload: seq<byte>)

  /**
   What the codec switch finds: `payload` is absent when the frame is not ready.
   `Unreadable` stands for the inputs on which the source asserts, throws or reads out of bounds.
   */
  datatype Content =
    | Content(ctype: nat, sp: Property, isKey: bool, payload: Option<seq<byte>>)
    | Unreadable

  function KindOf(kind: byte): C.Kind {
    if kind == AUDIO_TAG then C.Audio else if kind == VIDEO_TAG then C.Video
    else if kind == SCRIPT_TAG then C.Data else C.Other
  }

  const AVC: nat := 7
  const AAC: nat := 10

  /** The payload of a NALU tag after its composition time, if it is a list of units. */
  ghost function Rewritten(avcc: seq<byte>): Option<seq<byte>> {
    if exists us :: AvcRewriting.Encodable(us) && AvcRewriting.Avcc(us) == avcc then
      var us :| AvcRewriting.Encodable(us) && AvcRewriting.Avcc(us) == avcc;
      Some(AvcRewriting.AnnexB(us) + AvcRewriting.PADDING)
    else None
  }

  /** `trailer` is the rest of the tag, which the sequence-header reads may run into. */
  ghost function VideoContent(body: seq<byte>, trailer: seq<byte>, curSpsPps: seq<byte>): Content
    requires body != []
  {
    var isKey := body[0] / 0x10 == 1;
    if body[0] % 0x10 != AVC || |body| < 5 then Unreadable
    else if body[1] == 0 then
      match AvcRewriting.SequenceHeader(body[5..] + trailer)
      case None => Unreadable
      case Some(data) => Content(AVC, SpsPps, isKey, if data == curSpsPps then None else Some(data))
    else if body[1] == 1 then
      match Rewritten(body[5..])
      case None => Unreadable
      case Some(data) => Content(AVC, RawData, isKey, Some(data))
    else Content(AVC, if body[1] == 2 then EndSeq else RawData, isKey, None)
  }

  function AudioContent(body: seq<byte>): Content
    requires body != []
  {
    var isAac := body[0] / 0x10 == AAC;
    if isAac && |body| < 2 then Unreadable
    else
      var sp := if isAac && body[1] == 0 then SeqHeader else RawData;
      var payload := if isAac then body[2..] else body[1..];
      Content(body[0], sp, true, if payload == [] then None else Some(payload))
  }

  ghost function ContentOf(kind: C.Kind, body: seq<byte>, trailer: seq<byte>, curSpsPps: seq<byte>): Content
    requires body != []
  {
    match kind
    case Video => VideoContent(body, trailer, curSpsPps)
    case Audio => AudioContent(body)
    case _ => Content(0, RawData, false, None)
  }

  /** The parser's memory from tag to tag. */
  datatype Memory = Memory(clock: C.Clock, curSpsPps: seq<byte>)

  datatype Outcome = Nothing | Delivered(au: AccessUnit) | Failed

  ghost function ParseFrame(m: Memory, t: RawTag, globalAudio: nat): (r: (Memory, Outcome))
    requires |t.data| >= 11
  {
    var body := Body(t);
    if body == [] then (m, Nothing)
    else
      var kind := KindOf(t.kind);
      var content := ContentOf(kind, body, t.data[|t.data| - 4..], m.curSpsPps);
      if content.Unreadable? then (m, Failed)
      else
        var u := C.TimedTag(kind, content.sp == SpsPps, Timestamp(t));
        var seen := if content.sp == SpsPps && content.payload.Some? then content.payload.value else m.curSpsPps;
        (Memory(C.Tick(m.clock, u, globalAudio), seen),
         if content.payload.None? then Nothing
         else Delivered(AccessUnit(kind, content.ctype, content.sp, content.isKey,
                                   C.Pts(m.clock, u, globalAudio), content.payload.value)))
  }

  class FlvParser {
    var scanState: bool    // in SCAN_REMAINING_TAG
    var curBuf: seq<byte>
    var curFlvTagSize: nat
    var curStreamType: byte
    var relTimeStampOffset: int
    var prevVideoAdjPts: nat
    var prevAudioAdjPts: nat
    var prevAudioOrigPts: nat
    var curSpsPps: seq<byte>
    ghost var parsed: seq<RawTag>

    ghost function State(): Reader<TagCtl>
      reads this
    {
      Reader(TagCtl(scanState, curStreamType, curFlvTagSize, parsed), curBuf)
    }

    ghost function Mem(): Memory
      reads this
    {
      Memory(C.Clock(relTimeStampOffset, prevVideoAdjPts, prevAudioAdjPts, prevAudioOrigPts), curSpsPps)
    }

    ghost predicate Valid()
      reads this
    {
      |curBuf| < TagNeed(State().ctl) || curBuf == []
    }

    constructor ()
      ensures Valid() && State() == NO_TAGS && Mem() == Memory(C.START, [])
    {
      scanState, curBuf, curFlvTagSize, curStreamType := false, [], 0, 0;
      relTimeStampOffset, prevVideoAdjPts, prevAudioAdjPts, prevAudioOrigPts := C.UNSET, 0, 0, 0;
      curSpsPps, parsed := [], [];
    }

    /** Returns the tags completed by these bytes; the source parses each on the spot. */
    method ReadData(data: seq<byte>) returns (tags: seq<RawTag>)
      requires Valid()
      modifies this
      ensures Valid() && State() == Feed(Flv, old(State()), data)
      ensures parsed == old(parsed) + tags && Mem() == old(Mem())
    {
      ghost var goal, before, mem := Feed(Flv, State(), data), parsed, Mem();
      tags := [];
      var pos := 0;
      assert data[0..] == data;
      while pos < |data|
        invariant pos <= |data| && Valid()
        invariant Feed(Flv, State(), data[pos..]) == goal
        invariant parsed == before + tags && Mem() == mem
        decreases |data| - pos, if |curBuf| < CurNeed() then 0 else 1
      {
        var rest := data[pos..];
        var cpLen, done := Turn(rest);
        assert data[pos + cpLen..] == rest[cpLen..];
        ConcatAssoc(before, tags, done);
        tags := tags + done;
        pos := pos + cpLen;
      }
      assert data[pos..] == [];
    }

    /** One turn of the loop: bytes are copied, or a zero-length step is taken. */
    method Turn(rest: seq<byte>) returns (cpLen: nat, done: seq<RawTag>)
      requires Valid() && rest != []
      modifies this
      ensures Valid() && cpLen <= |rest| && Feed(Flv, State(), rest[cpLen..]) == Feed(Flv, old(State()), rest)
      ensures parsed == old(parsed) + done && Mem() == old(Mem())
      ensures cpLen > 0 || (old(|curBuf| >= CurNeed()) && |curBuf| < CurNeed())
    {
      ghost var r := State();
      FlvProgress();
      PassSound(Flv, r, rest);
      cpLen := CopyIn(rest);
      done := [];
      if |curBuf| >= CurNeed() {
        done := Act();
      }
      assert State() == Pass(Flv, r, rest);
    }

    /** The number compared with curBuf_.size() in each case of the switch. */
    function CurNeed(): (n: nat)
      reads this
      ensures n == TagNeed(State().ctl)
    {
      if scanState then curFlvTagSize else 4
    }

    /** Copies what the current state still lacks, or as much of it as there is. */
    method CopyIn(rest: seq<byte>) returns (cpLen: nat)
      modifies `curBuf
      ensures cpLen == Copied(Flv, old(State()), rest)
      ensures State() == Reader(old(State().ctl), old(curBuf) + rest[..cpLen])
    {
      cpLen := 0;
      if |curBuf| < CurNeed() {
        cpLen := if |rest| < CurNeed() - |curBuf| then |rest| else CurNeed() - |curBuf|;
        curBuf := curBuf + rest[..cpLen];
      } else {
        assert curBuf + rest[..0] == curBuf;
      }
    }

    method Act() returns (done: seq<RawTag>)
      requires |curBuf| == TagNeed(State().ctl)
      modifies `scanState, `curBuf, `curFlvTagSize, `curStreamType, `parsed
      ensures State() == Reader(TagFinish(old(State().ctl), old(curBuf)), [])
      ensures parsed == old(parsed) + done
    {
      if !scanState {
        curStreamType := curBuf[0];
        curFlvTagSize := FromBe24(curBuf[1..4]);
        assert curBuf[1..4] == curBuf[1..];
        curFlvTagSize := curFlvTagSize + 7 + 4;
        scanState := true;
        done := [];
      } else {
        done := [RawTag(curStreamType, curBuf)];
        parsed := parsed + done;
        curStreamType, curFlvTagSize := 0, 0;
        scanState := false;
      }
      curBuf := [];
    }

    method ParseNextFlvFrame(tag: RawTag, globalAudio: nat) returns (outcome: Outcome)
      requires |tag.data| >= 11
      modifies `relTimeStampOffset, `prevVideoAdjPts, `prevAudioAdjPts, `prevAudioOrigPts, `curSpsPps
      ensures (Mem(), outcome) == ParseFrame(old(Mem()), tag, globalAudio)
    {
      var ts := Timestamp(tag);
      var body := Body(tag);
      if body == [] {
        return Nothing;
      }
      var kind := KindOf(tag.kind);
      var content := ReadContent(kind, body, tag.data[|tag.data| - 4..]);
      if content.Unreadable? {
        return Failed;
      }
      if content.sp == SpsPps && content.payload.Some? {
        curSpsPps := content.payload.value;
      }
      var pts := AdjustTimestamp(C.TimedTag(kind, content.sp == SpsPps, ts), globalAudio);
      if content.payload.None? {
        return Nothing;
      }
      return Delivered(AccessUnit(kind, content.ctype, content.sp, content.isKey, pts, content.payload.value));
    }

    method ReadContent(kind: C.Kind, body: seq<byte>, trailer: seq<byte>) returns (content: Content)
      requires body != []
      ensures content == ContentOf(kind, body, trailer, curSpsPps)
    {
      if kind == C.Video {
        var isKey := body[0] / 0x10 == 1;
        if body[0] % 0x10 != AVC || |body| < 5 {
          content := Unreadable;
        } else if body[1] == 0 {
          var data := AvcRewriting.SequenceHeader(body[5..] + trailer);
          content := if data.None? then Unreadable
          else Content(AVC, SpsPps, isKey, if data.value == curSpsPps then None else data);
        } else if body[1] == 1 {
          var data, units := AvcRewriting.RewriteUnits(body[5..]);
          RewrittenIs(body[5..], units);
          content := if data.None? then Unreadable else Content(AVC, RawData, isKey, data);
        } else {
          content := Content(AVC, if body[1] == 2 then EndSeq else RawData, isKey, None);
        }
      } else if kind == C.Audio {
        content := AudioContent(body);
      } else {
        content := Content(0, RawData, false, None);
      }
    }

    /** Resynchronise if needed, stamp, remember. */
    method AdjustTimestamp(u: C.TimedTag, globalAudio: nat) returns (pts: nat)
      modifies `relTimeStampOffset, `prevVideoAdjPts, `prevAudioAdjPts, `prevAudioOrigPts
      ensures pts == C.Pts(old(Mem().clock), u, globalAudio)
      ensures Mem().clock == C.Tick(old(Mem().clock), u, globalAudio)
    {
      if relTimeStampOffset == C.UNSET && u.kind != C.Data && !u.isSpsPps {
        relTimeStampOffset := C.ToS32(globalAudio - u.ts);
      } else if u.kind == C.Audio && u.ts > C.ToU32(prevAudioOrigPts + 100) {
        relTimeStampOffset := C.ToS32(globalAudio - u.ts);
      }
      if u.isSpsPps {
        pts := C.ToU32(prevVideoAdjPts + 1);
      } else {
        var offset := if relTimeStampOffset == C.UNSET then 0 else relTimeStampOffset;
        if offset >= 0 || C.ToS32(u.ts + offset) >= 0 {
          pts := C.ToU32(u.ts + offset);
        } else if u.kind == C.Video {
          pts := C.ToU32(prevVideoAdjPts + 1);
        } else {
          pts := C.ToU32(prevAudioAdjPts + 1);
        }
      }
      if u.kind == C.Video {
        prevVideoAdjPts := pts;
      } else if u.kind == C.Audio {
        prevAudioAdjPts := pts;
        prevAudioOrigPts := u.ts;
      }
    }
  }

  lemma RewrittenIs(avcc: seq<byte>, units: seq<seq<byte>>)
    ensures AvcRewriting.Encodable(units) && AvcRewriting.Avcc(units) == avcc ==>
              Rewritten(avcc) == Some(AvcRewriting.AnnexB(units) + AvcRewriting.PADDING)
  {
    if AvcRewriting.Encodable(units) && AvcRewriting.Avcc(units) == avcc {
      forall us | AvcRewriting.Encodable(us) && AvcRewriting.Avcc(us) == avcc
        ensures us == units
      {
        AvcRewriting.AvccInjective(us, units);
      }
    }
  }

  // ----- tags read end to end, from their bytes in any number of reads

  /** The parser waits for a tag. */
  predicate AtTag(c: TagCtl) {
    !c.inTag && c.kind == 0 && c.tagSize == 0
  }

  /**
   What becomes of these bytes, if they are one tag: the parser waits for the next, and this is
   what the tag is read as.
   */
  ghost predicate ReadsAs(c: TagCtl, m: Memory, globalAudio: nat, chunks: seq<seq<byte>>, result: (Memory, Outcome)) {
    var r := FeedAll(Flv, Reader(c, []), chunks);
    |r.ctl.parsed| == |c.parsed| + 1 && r == Reader(c.(parsed := r.ctl.parsed), []) &&
    var t := r.ctl.parsed[|c.parsed|];
    |t.data| >= 11 && ParseFrame(m, t, globalAudio) == result
  }

  lemma OneTag(c: TagCtl, m: Memory, globalAudio: nat, chunks: seq<seq<byte>>, kind: byte, ts: nat, body: seq<byte>)
    requires AtTag(c) && |body| < 0x100_0000 && ts < U32 && Flatten(chunks) == TagBytes(kind, ts, body)
    ensures var t := RawTag(kind, TagRest(ts, body));
            Timestamp(t) == ts && Body(t) == body && |t.data[|t.data| - 4..]| == 4 &&
            ReadsAs(c, m, globalAudio, chunks, ParseFrame(m, t, globalAudio))
  {
    ChunkingIndependence(Flv, Reader(c, []), chunks);
    TagRead(c, kind, ts, body);
    TagRestRead(kind, ts, body);
  }

  /**
   An audio tag written by FLVOutput is read back whole: type, codec byte, raw timestamp
   and payload of 1 to 2^24 - 2 bytes.
   */
  lemma AudioTagRoundTrip(c: TagCtl, packet: seq<byte>, ts: nat, codec: AudioCodec, chunks: seq<seq<byte>>,
                          m: Memory, globalAudio: nat)
    requires AtTag(c) && 1 <= |packet| <= 0xff_fffe && ts < U32
    requires Flatten(chunks) == TagBytes(AUDIO_TAG, ts, AudioBody(packet, codec))
    ensures var u := C.TimedTag(C.Audio, false, ts);
            ReadsAs(c, m, globalAudio, chunks,
                    (m.(clock := C.Tick(m.clock, u, globalAudio)),
                     Delivered(AccessUnit(C.Audio, AudioByte(codec), RawData, true, C.Pts(m.clock, u, globalAudio),
                                          packet))))
  {
    var body := AudioBody(packet, codec);
    OneTag(c, m, globalAudio, chunks, AUDIO_TAG, ts, body);
    assert body[1..] == packet;
  }

  /**
   A publisher's AAC tag (settings byte 0xa0 to 0xaf, then the packet type): type 0 is a
   sequence header, any other raw data, and a packet without bytes only moves the clock.
   */
  lemma AacTagRead(c: TagCtl, settings: byte, packetType: byte, packet: seq<byte>, ts: nat, chunks: seq<seq<byte>>,
                   m: Memory, globalAudio: nat)
    requires AtTag(c) && 0xa0 <= settings <= 0xaf && |packet| <= 0xff_fffd && ts < U32
    requires Flatten(chunks) == TagBytes(8, ts, [settings, packetType] + packet)
    ensures var u := C.TimedTag(C.Audio, false, ts);
            ReadsAs(c, m, globalAudio, chunks,
                    (m.(clock := C.Tick(m.clock, u, globalAudio)),
                     if packet == [] then Nothing
                     else Delivered(AccessUnit(C.Audio, settings, if packetType == 0 then SeqHeader else RawData, true,
                                               C.Pts(m.clock, u, globalAudio), packet))))
  {
    var body := [settings, packetType] + packet;
    OneTag(c, m, globalAudio, chunks, 8, ts, body);
    assert body[2..] == packet;
  }

  /** The body of an AVC tag: frame type and codec, packet type, composition time, then what the packet type says. */
  function AvcBody(frameType: byte, packetType: byte, time: nat, data: seq<byte>): (b: seq<byte>)
    requires frameType < 16
    ensures |b| == |data| + 5
  {
    [0x10 * frameType + 7, packetType] + Be24(time) + data
  }

  lemma PictureContent(frameType: byte, time: nat, units: seq<seq<byte>>, trailer: seq<byte>, seen: seq<byte>)
    requires frameType < 16 && AvcRewriting.Encodable(units)
    ensures VideoContent(AvcBody(frameType, 1, time, AvcRewriting.Avcc(units)), trailer, seen)
            == Content(7, RawData, frameType == 1, Some(AvcRewriting.AnnexB(units) + AvcRewriting.PADDING))
  {
    var data := AvcRewriting.Avcc(units);
    var body := AvcBody(frameType, 1, time, data);
    assert body[5..] == data;
    RewrittenIs(data, units);
  }

  lemma RecordContent(frameType: byte, time: nat, record: seq<byte>, trailer: seq<byte>, seen: seq<byte>)
    requires frameType < 16
    ensures VideoContent(AvcBody(frameType, 0, time, record), trailer, seen) ==
            match AvcRewriting.SequenceHeader(record + trailer)
            case None => Unreadable
            case Some(data) => Content(7, SpsPps, frameType == 1, if data == seen then None else Some(data))
  {
    assert AvcBody(frameType, 0, time, record)[5..] == record;
  }

  lemma HeaderContent(frameType: byte, time: nat, head: seq<byte>, sps: seq<byte>, numPps: byte, pps: seq<byte>,
                      trailer: seq<byte>, seen: seq<byte>)
    requires frameType < 16 && |head| == 6 && |sps| < 0x1_0000 && |pps| < 0x1_0000 && |trailer| == 4
    requires AvcRewriting.LengthSurvives(|sps|) && AvcRewriting.LengthSurvives(|pps|)
    ensures var data := AvcRewriting.START_CODE + sps + AvcRewriting.START_CODE + pps;
            VideoContent(AvcBody(frameType, 0, time, AvcRewriting.ConfigRecord(head, sps, numPps, pps)), trailer, seen)
            == Content(7, SpsPps, frameType == 1, if data == seen then None else Some(data))
  {
    AvcRewriting.SequenceHeaderExact(head, sps, numPps, pps, trailer);
    RecordContent(frameType, time, AvcRewriting.ConfigRecord(head, sps, numPps, pps), trailer, seen);
  }

  /** What a video tag with readable content is read as. */
  lemma VideoTagRead(c: TagCtl, m: Memory, globalAudio: nat, chunks: seq<seq<byte>>, ts: nat, body: seq<byte>,
                     content: Content)
    requires AtTag(c) && 0 < |body| < 0x100_0000 && ts < U32 && Flatten(chunks) == TagBytes(9, ts, body)
    requires content.Content?
    requires forall trailer :: |trailer| == 4 ==> VideoContent(body, trailer, m.curSpsPps) == content
    ensures var u := C.TimedTag(C.Video, content.sp == SpsPps, ts);
            ReadsAs(c, m, globalAudio, chunks,
                    (Memory(C.Tick(m.clock, u, globalAudio),
                            if content.sp == SpsPps &&
                                content.payload.Some? then content.payload.value else m.curSpsPps),
                     if content.payload.None? then Nothing
                     else Delivered(AccessUnit(C.Video, content.ctype, content.sp, content.isKey,
                                               C.Pts(m.clock, u, globalAudio), content.payload.value))))
  {
    OneTag(c, m, globalAudio, chunks, 9, ts, body);
  }

  /** A picture's tag: its units come out behind start codes, with the padding; a key frame is frame type 1. */
  lemma PictureTagRead(c: TagCtl, frameType: byte, time: nat, units: seq<seq<byte>>, ts: nat, chunks: seq<seq<byte>>,
                       m: Memory, globalAudio: nat)
    requires AtTag(c) && frameType < 16 && ts < U32
    requires AvcRewriting.Encodable(units) && |AvcRewriting.Avcc(units)| <= 0xff_fffa
    requires Flatten(chunks) == TagBytes(9, ts, AvcBody(frameType, 1, time, AvcRewriting.Avcc(units)))
    ensures var u := C.TimedTag(C.Video, false, ts);
            ReadsAs(c, m, globalAudio, chunks,
                    (m.(clock := C.Tick(m.clock, u, globalAudio)),
                     Delivered(AccessUnit(C.Video, 7, RawData, frameType == 1, C.Pts(m.clock, u, globalAudio),
                                          AvcRewriting.AnnexB(units) + AvcRewriting.PADDING))))
  {
    var data := AvcRewriting.Avcc(units);
    forall trailer: seq<byte> {
      PictureContent(frameType, time, units, trailer, m.curSpsPps);
    }
    VideoTagRead(c, m, globalAudio, chunks, ts, AvcBody(frameType, 1, time, data),
                 Content(7, RawData, frameType == 1, Some(AvcRewriting.AnnexB(units) + AvcRewriting.PADDING)));
  }

  /**
   A sequence header's tag, with lengths that survive: SPS and PPS are delivered behind start
   codes and remembered, unless they are the ones remembered already.
   */
  lemma HeaderTagRead(c: TagCtl, frameType: byte, time: nat, head: seq<byte>, sps: seq<byte>, numPps: byte,
                      pps: seq<byte>, ts: nat, chunks: seq<seq<byte>>, m: Memory, globalAudio: nat)
    requires AtTag(c) && frameType < 16 && ts < U32
    requires |head| == 6 && |sps| < 0x1_0000 && |pps| < 0x1_0000
    requires AvcRewriting.LengthSurvives(|sps|) && AvcRewriting.LengthSurvives(|pps|)
    requires Flatten(chunks)
             == TagBytes(9, ts, AvcBody(frameType, 0, time, AvcRewriting.ConfigRecord(head, sps, numPps, pps)))
    ensures var u := C.TimedTag(C.Video, true, ts);
            var data := AvcRewriting.START_CODE + sps + AvcRewriting.START_CODE + pps;
            ReadsAs(c, m, globalAudio, chunks,
                    (Memory(C.Tick(m.clock, u, globalAudio), data),
                     if data == m.curSpsPps then Nothing
                     else Delivered(AccessUnit(C.Video, 7, SpsPps, frameType == 1, C.Pts(m.clock, u, globalAudio),
                                               data))))
  {
    var record := AvcRewriting.ConfigRecord(head, sps, numPps, pps);
    var data := AvcRewriting.START_CODE + sps + AvcRewriting.START_CODE + pps;
    forall trailer: seq<byte> | |trailer| == 4 {
      HeaderContent(frameType, time, head, sps, numPps, pps, trailer, m.curSpsPps);
    }
    VideoTagRead(c, m, globalAudio, chunks, ts, AvcBody(frameType, 0, time, record),
                 Content(7, SpsPps, frameType == 1, if data == m.curSpsPps then None else Some(data)));
  }

  /** A script tag changes nothing and delivers nothing. */
  lemma ScriptTagRead(c: TagCtl, body: seq<byte>, ts: nat, chunks: seq<seq<byte>>, m: Memory, globalAudio: nat)
    requires AtTag(c) && |body| < 0x100_0000 && ts < U32 && Flatten(chunks) == TagBytes(18, ts, body)
    ensures ReadsAs(c, m, globalAudio, chunks, (m, Nothing))
  {
    OneTag(c, m, globalAudio, chunks, 18, ts, body);
  }
}
