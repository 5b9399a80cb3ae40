/**
 MixCoder::getOutput as a function on values: which stream is due, which frames are
 popped into the caches, which cached frames count as valid, what is packaged for whom.
 */
module Mixing {
  import opened Bytes
  import opened BitMask
  import opened FlvWriting
  import opened SegmentWriting
  import opened Scheduling

  type VideoCache = s: seq<Option<VideoRaw>> | |s| == 32 witness seq(32, _ => None)
  type AudioCache = s: seq<Option<AudioRaw>> | |s| == 32 witness seq(32, _ => None)
  type Flags = s: seq<bool> | |s| == 32 witness seq(32, _ => false)
  type SentFlags = s: seq<bool> | |s| == 33 witness seq(33, _ => false)
  type Sources = s: seq<nat> | |s| == 32 witness seq(32, _ => 0)

  const MOBILE: nat := 2

  /**
   The server between two calls. `rawVideo` and `rawAudio` are the cached frames with their
   valid flags; `sent[i]` says that slot i has had its FLV preamble. `crashed` is set when
   an assert fails or a null frame is dereferenced.
   */
  datatype Mix = Mix(parser: Sched, rawVideo: VideoCache, videoValid: Flags, rawAudio: AudioCache, audioValid: Flags,
                     source: Sources, sent: SentFlags, crashed: bool)

  const START: Mix :=
    Mix(INIT, seq(32, _ => None), seq(32, _ => false), seq(32, _ => None), seq(32, _ => false),
        seq(32, _ => 0), seq(33, _ => false), false)

  datatype Choice = NoStream | AudioStream(pts: nat) | VideoStream(pts: nat) | Crash

  /** Both queries, then the earlier of the two; a tie goes to video. */
  function Pick(s: Sched): (Sched, Choice) {
    match AudioReady(s)
    case Ready(a) =>
      var (s', v) := VideoReady(s, a);
      (match v
       case AssertFails => (s', Crash)
       case NotReady => (s', AudioStream(a))
       case Ready(t) => (s', if a < t then AudioStream(a) else VideoStream(t)))
    case _ => (s, NoStream)
  }

  // ----- popping

  /** What is left of a queue once every front not past t is popped. */
  function DrainTo(q: seq<VideoRaw>, t: nat): seq<VideoRaw> {
    if q != [] && q[0].pts <= t then DrainTo(q[1..], t) else q
  }

  /** The last record so popped, or else what was cached before. */
  function LastDrained(q: seq<VideoRaw>, t: nat, cached: Option<VideoRaw>): Option<VideoRaw> {
    if q != [] && q[0].pts <= t then LastDrained(q[1..], t, Some(q[0])) else cached
  }

  function VideoQueueAfter(s: Sched, t: nat, i: nat): seq<VideoRaw>
    requires i < STREAMS
  {
    if s.videoStatus[i] == Started then DrainTo(s.videoQueue[i], t) else s.videoQueue[i]
  }

  function CachedAfter(s: Sched, cache: VideoCache, t: nat, i: nat): Option<VideoRaw>
    requires i < STREAMS
  {
    if s.videoStatus[i] == Started then LastDrained(s.videoQueue[i], t, cache[i]) else cache[i]
  }

  /** The first picture since the last SPS/PPS is due by t. */
  predicate HasFirstFrameDecoded(s: Sched, i: nat, t: nat)
    requires i < STREAMS
  {
    s.decoder[i].firstFrameStarted && s.decoder[i].firstFramePts <= t
  }

  function ValidAfter(s: Sched, cache: VideoCache, valid: Flags, t: nat, i: nat): bool
    requires i < STREAMS
  {
    if CachedAfter(s, cache, t, i).None? then valid[i]
    else s.videoStatus[i] == Started && HasFirstFrameDecoded(s, i, t)
  }

  function PopVideo(m: Mix, t: nat): Mix {
    var s := m.parser;
    m.(parser := s.(videoQueue := seq(32, i requires 0 <= i < 32 => VideoQueueAfter(s, t, i))),
       rawVideo := seq(32, i requires 0 <= i < 32 => CachedAfter(s, m.rawVideo, t, i)),
       videoValid := seq(32, i requires 0 <= i < 32 => ValidAfter(s, m.rawVideo, m.videoValid, t, i)))
  }

  function AudioQueueAfter(s: Sched, i: nat): seq<AudioRaw>
    requires i < STREAMS
  {
    if s.audioStatus[i] == Started && s.audioQueue[i] != [] then s.audioQueue[i][1..] else s.audioQueue[i]
  }

  function AudioCachedAfter(s: Sched, cache: AudioCache, i: nat): Option<AudioRaw>
    requires i < STREAMS
  {
    if s.audioStatus[i] == Started && s.audioQueue[i] != [] then Some(s.audioQueue[i][0]) else cache[i]
  }

  function AudioValidAfter(s: Sched, cache: AudioCache, valid: Flags, i: nat): bool
    requires i < STREAMS
  {
    if AudioCachedAfter(s, cache, i).None? then valid[i] else s.audioStatus[i] == Started
  }

  /** A started stream without a frame makes the source dereference the null frame it just got. */
  function PopAudio(m: Mix): Mix {
    var s := m.parser;
    if !AudioFilled(s, STREAMS) then m.(crashed := true)
    else
      m.(parser := s.(audioQueue := seq(32, i requires 0 <= i < 32 => AudioQueueAfter(s, i))),
         rawAudio := seq(32, i requires 0 <= i < 32 => AudioCachedAfter(s, m.rawAudio, i)),
         audioValid := seq(32, i requires 0 <= i < 32 => AudioValidAfter(s, m.rawAudio, m.audioValid, i)))
  }

  // ----- packaging

  /** Streams the mixers work on. */
  predicate VideoOn(m: Mix, i: nat)
    requires i < STREAMS
  {
    m.rawVideo[i].Some? && m.videoValid[i]
  }

  predicate AudioOn(m: Mix, i: nat)
    requires i < STREAMS
  {
    m.rawAudio[i].Some? && m.audioValid[i]
  }

  type Rects = s: seq<VideoRect> | |s| == 32 witness seq(32, _ => VideoRect(0, 0, 0, 0))
  type AudioPackets = s: seq<Option<seq<byte>>> | |s| == 33 witness seq(33, _ => None)

  /**
   What mixers and encoders return in one call: the encoded picture with its key flag and
   the tile of each stream, and one encoded audio frame per slot; `None` where an encoder has
   nothing to give.
   */
  datatype Codec = Codec(video: Option<seq<byte>>, isKey: bool, rects: Rects, audio: AudioPackets)

  const NO_RECT: VideoRect := VideoRect(0, 0, 0, 0)

  function VideoTag(codec: Codec, t: nat, r: VideoRect): Tag
    requires codec.video.Some?
  {
    Tag(VIDEO_TAG, t, VideoBody(codec.video.value, codec.isKey, r))
  }

  function AudioTag(packet: seq<byte>, a: nat): Tag {
    Tag(AUDIO_TAG, a, AudioBody(packet, Mp3))
  }

  predicate AnyVideoOn(m: Mix) {
    exists i :: 0 <= i < STREAMS && VideoOn(m, i)
  }

  predicate AnyAudioOn(m: Mix) {
    exists i :: 0 <= i < STREAMS && AudioOn(m, i)
  }

  /** The tag made for slot i once the frames are popped: every valid mobile stream, and the all-in slot. */
  function VideoTagFor(m: Mix, t: nat, codec: Codec, i: nat): Option<Tag>
    requires i < SLOTS
  {
    if !AnyVideoOn(m) || codec.video.None? then None
    else if i == ALL_IN then Some(VideoTag(codec, t, NO_RECT))
    else if VideoOn(m, i) && m.source[i] == MOBILE then Some(VideoTag(codec, t, codec.rects[i]))
    else None
  }

  function AudioTagFor(m: Mix, a: nat, codec: Codec, i: nat): Option<Tag>
    requires i < SLOTS
  {
    if !AnyAudioOn(m) || codec.audio[i].None? then None
    else if i == ALL_IN || (AudioOn(m, i) && m.source[i] == MOBILE) then Some(AudioTag(codec.audio[i].value, a))
    else None
  }

  function TagFor(m: Mix, choice: Choice, codec: Codec, i: nat): Option<Tag>
    requires i < SLOTS
  {
    match choice
    case VideoStream(t) => VideoTagFor(m, t, codec, i)
    case AudioStream(a) => AudioTagFor(m, a, codec, i)
    case _ => None
  }

  /** Frames popped for the chosen stream. */
  function Popped(m: Mix): (Mix, Choice) {
    var (s, choice) := Pick(m.parser);
    var m1 := m.(parser := s);
    match choice
    case VideoStream(t) => (PopVideo(m1, t), choice)
    case AudioStream(a) => (PopAudio(m1), choice)
    case Crash => (m1.(crashed := true), choice)
    case NoStream => (m1, choice)
  }

  /** At most one tag per slot. */
  type TagRow = s: seq<Option<Tag>> | |s| == 33 witness seq(33, _ => None)

  const NO_TAG_ROW: TagRow := seq(33, _ => None)

  /** The tags one call packages, slot by slot. */
  function TagsMade(m: Mix, codec: Codec): TagRow {
    var (m1, choice) := Popped(m);
    if m.crashed || m1.crashed then NO_TAG_ROW else seq(33, i requires 0 <= i < 33 => TagFor(m1, choice, codec, i))
  }

  function BufferMade(sent: bool, metadata: seq<byte>, tag: Option<Tag>): seq<byte> {
    if tag.None? then [] else Packaged(sent, metadata, TagBytes(tag.value.kind, tag.value.ts, tag.value.body))
  }

  /** The buffers these tags become, with the preamble where it is the slot's first. */
  function BuffersMade(sent: SentFlags, metadata: seq<byte>, tags: TagRow): Buffers {
    seq(33, i requires 0 <= i < 33 => BufferMade(sent[i], metadata, tags[i]))
  }

  function SentAfter(sent: SentFlags, tags: TagRow): SentFlags {
    seq(33, i requires 0 <= i < 33 => sent[i] || tags[i].Some?)
  }

  function GetOutput(m: Mix, codec: Codec): Mix {
    if m.crashed then m
    else Popped(m).0.(sent := SentAfter(m.sent, TagsMade(m, codec)))
  }

  function OutputBytes(m: Mix, metadata: seq<byte>, codec: Codec): Option<seq<byte>> {
    OneFrame(BuffersMade(m.sent, metadata, TagsMade(m, codec)))
  }

  // ----- runs

  datatype Event =
    | MaskSeen(mask: nat)
    | SourceSeen(id: nat, source: nat)
    | VideoParsed(id: nat, u: VideoUnit)
    | AudioParsed(id: nat, frames: seq<AudioRaw>)
    | OutputAsked(codec: Codec)

  function Step(m: Mix, e: Event): Mix {
    if m.crashed then m
    else match e
      case MaskSeen(mask) => m.(parser := ApplyMask(m.parser, mask))
      case SourceSeen(i, src) => if i < STREAMS then m.(source := m.source[i := src]) else m
      case VideoParsed(i, u) =>
        if i >= STREAMS then m
        else if DecoderAsserts(m.parser, i, u) then m.(crashed := true)
        else m.(parser := VideoIn(m.parser, i, u))
      case AudioParsed(i, frames) => if i < STREAMS then m.(parser := AudioIn(m.parser, i, frames)) else m
      case OutputAsked(codec) => GetOutput(m, codec)
  }

  function Run(m: Mix, es: seq<Event>): Mix
    decreases |es|
  {
    if es == [] then m else Run(Step(m, es[0]), es[1..])
  }
}
