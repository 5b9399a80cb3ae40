/**
 FLVSegmentParser's queues and clocks: what parsed frames do to them, and the two
 readiness queries. Bucket times are kept in thirds of a millisecond, so that the
 interval of 1000/30 ms is the integer 100 and all arithmetic is exact.
 */
module Scheduling {
  import opened Bytes
  import opened BitMask

  /** The u32 stamp that means "no frame". */
  const NO_STAMP: nat := 0xffff_ffff

  /** 1000/30 ms in thirds of a millisecond. */
  const INTERVAL: nat := 100

  datatype Status = Offline | NotStarted | Started

  datatype Planes = Planes(y: seq<byte>, u: seq<byte>, v: seq<byte>)

  /** A queued video record: a decoded picture, or an SPS/PPS record without planes. */
  datatype VideoRaw = VideoRaw(pts: nat, isSpsPps: bool, planes: Option<Planes>)

  /** 1152 samples, interleaved if stereo. */
  datatype AudioRaw = AudioRaw(pts: nat, isStereo: bool, frame: seq<int>)

  /** The fields of VideoDecoder that outlive a call. */
  datatype Decoder = Decoder(hasSpsPps: bool, firstFrameStarted: bool, firstFramePts: nat)

  type AudioQueues = s: seq<seq<AudioRaw>> | |s| == 32 witness seq(32, _ => [])
  type VideoQueues = s: seq<seq<VideoRaw>> | |s| == 32 witness seq(32, _ => [])
  type Statuses = s: seq<Status> | |s| == 32 witness seq(32, _ => Offline)
  type Decoders = s: seq<Decoder> | |s| == 32 witness seq(32, _ => Decoder(false, false, 0))

  /** `lastBucket` is lastBucketTimestamp_ in thirds of a millisecond. */
  datatype Sched = Sched(audioQueue: AudioQueues, audioStatus: Statuses, videoQueue: VideoQueues, videoStatus: Statuses,
                         decoder: Decoders, hasStarted: bool, lastBucket: nat, globalAudio: nat)

  const INIT: Sched :=
    Sched(seq(32, _ => []), seq(32, _ => Offline), seq(32, _ => []), seq(32, _ => Offline),
          seq(32, _ => Decoder(false, false, NO_STAMP)), false, 0, 0)

  // ----- what arrives

  function Masked(st: Status, online: bool): Status {
    if !online then Offline else if st == Offline then NotStarted else st
  }

  function MaskedUpTo(sts: Statuses, mask: nat, n: nat, i: nat): Status
    requires i < STREAMS
  {
    if i < n then Masked(sts[i], Bit(mask, i)) else sts[i]
  }

  function ApplyMask(s: Sched, mask: nat): Sched {
    s.(audioStatus := seq(32, i requires 0 <= i < 32 => Masked(s.audioStatus[i], Bit(mask, i))),
       videoStatus := seq(32, i requires 0 <= i < 32 => Masked(s.videoStatus[i], Bit(mask, i))))
  }

  /** A video unit: `decoded` is what the H.264 decoder makes of a picture unit. */
  datatype VideoUnit = VideoUnit(pts: nat, isSpsPps: bool, decoded: Option<Planes>)

  /** A picture unit before any SPS/PPS fails an assert of the decoder. */
  predicate DecoderAsserts(s: Sched, i: nat, u: VideoUnit)
    requires i < STREAMS
  {
    !u.isSpsPps && !s.decoder[i].hasSpsPps
  }

  /** SPS/PPS units are queued, and pictures that decode. */
  predicate IsQueued(d: Decoder, u: VideoUnit) {
    u.isSpsPps || (d.hasSpsPps && u.decoded.Some?)
  }

  function DecoderAfter(d: Decoder, u: VideoUnit): Decoder {
    if u.isSpsPps then Decoder(true, false, d.firstFramePts)
    else if !IsQueued(d, u) || d.firstFrameStarted then d
    else Decoder(true, true, u.pts)
  }

  function QueueAfter(d: Decoder, q: seq<VideoRaw>, u: VideoUnit): seq<VideoRaw> {
    if !IsQueued(d, u) then q else q + [VideoRaw(u.pts, u.isSpsPps, if u.isSpsPps then None else u.decoded)]
  }

  function VideoIn(s: Sched, i: nat, u: VideoUnit): Sched
    requires i < STREAMS
  {
    var d := s.decoder[i];
    s.(decoder := s.decoder[i := DecoderAfter(d, u)],
       videoQueue := s.videoQueue[i := QueueAfter(d, s.videoQueue[i], u)],
       videoStatus := if IsQueued(d, u) then s.videoStatus[i := Started] else s.videoStatus)
  }

  /** The 1152-sample frames one audio unit yields, already stamped by the sample clock. */
  function AudioIn(s: Sched, i: nat, frames: seq<AudioRaw>): Sched
    requires i < STREAMS
  {
    s.(audioQueue := s.audioQueue[i := s.audioQueue[i] + frames],
       audioStatus := s.audioStatus[i := Started],
       globalAudio := if frames == [] then s.globalAudio else frames[|frames| - 1].pts)
  }

  // ----- readiness

  datatype Readiness = NotReady | Ready(ts: nat) | AssertFails

  /** Every started stream below n has a frame queued. */
  predicate AudioFilled(s: Sched, n: nat)
    requires n <= STREAMS
  {
    forall i :: 0 <= i < n && s.audioStatus[i] == Started ==> s.audioQueue[i] != []
  }

  predicate AnyAudio(s: Sched, n: nat)
    requires n <= STREAMS
  {
    exists i :: 0 <= i < n && s.audioStatus[i] == Started
  }

  function Min(a: nat, b: nat): nat {
    if a < b then a else b
  }

  function Max(a: nat, b: nat): nat {
    if a > b then a else b
  }

  /** The least front stamp among started streams below n. */
  function AudioStamp(s: Sched, n: nat): nat
    requires n <= STREAMS
  {
    if n == 0 then NO_STAMP
    else if s.audioStatus[n - 1] == Started && s.audioQueue[n - 1] != [] then
      Min(s.audioQueue[n - 1][0].pts, AudioStamp(s, n - 1))
    else AudioStamp(s, n - 1)
  }

  function AudioReady(s: Sched): Readiness {
    if AnyAudio(s, STREAMS) && AudioFilled(s, STREAMS) then Ready(AudioStamp(s, |s.audioQueue|)) else NotReady
  }

  /** Division by the interval, truncated towards zero as a cast to int does. */
  function TruncDiv(a: int): int {
    if a >= 0 then a / INTERVAL else -(-a / INTERVAL)
  }

  function NextBucket(s: Sched): nat {
    s.lastBucket + INTERVAL
  }

  /** The last grid point not after the audio stamp (not before it, if audio is behind). */
  function AudioBucketFrom(last: nat, audioTs: nat): (b: nat)
    ensures b >= 3 * audioTs || b <= 3 * audioTs < b + INTERVAL
    ensures 3 * audioTs >= last ==> last <= b <= 3 * audioTs
    ensures (b - last) % INTERVAL == 0
  {
    last + INTERVAL * TruncDiv(3 * audioTs - last)
  }

  function AudioBucket(s: Sched, audioTs: nat): nat {
    AudioBucketFrom(s.lastBucket, audioTs)
  }

  /** nextLimitTimestamp, in whole milliseconds. */
  function Limit(s: Sched, audioTs: nat): nat {
    Max(NextBucket(s), AudioBucket(s, audioTs)) / 3
  }

  predicate HasFront(s: Sched, i: nat)
    requires i < STREAMS
  {
    s.videoStatus[i] == Started && s.videoQueue[i] != []
  }

  predicate FrontIsSpsPps(s: Sched, i: nat)
    requires i < STREAMS
  {
    HasFront(s, i) && s.videoQueue[i][0].isSpsPps
  }

  predicate FrontIsPicture(s: Sched, i: nat)
    requires i < STREAMS
  {
    HasFront(s, i) && !s.videoQueue[i][0].isSpsPps
  }

  /** Fronts that take part in the fold: once started, pictures past the limit do not, SPS/PPS records always do. */
  predicate Recorded(s: Sched, limit: nat, i: nat)
    requires i < STREAMS
  {
    HasFront(s, i) && (s.videoQueue[i][0].isSpsPps || !s.hasStarted || s.videoQueue[i][0].pts <= limit)
  }

  /** frameTimestamp after the streams below n. */
  function FrameStamp(s: Sched, limit: nat, n: nat): nat
    requires n <= STREAMS
  {
    if n == 0 then NO_STAMP
    else
      var f := FrameStamp(s, limit, n - 1);
      if !Recorded(s, limit, n - 1) then f
      else if f == NO_STAMP then s.videoQueue[n - 1][0].pts
      else Max(s.videoQueue[n - 1][0].pts, f)
  }

  predicate AnyPicture(s: Sched, n: nat)
    requires n <= STREAMS
  {
    exists i :: 0 <= i < n && FrontIsPicture(s, i)
  }

  predicate AnySpsPps(s: Sched, n: nat)
    requires n <= STREAMS
  {
    exists i :: 0 <= i < n && FrontIsSpsPps(s, i)
  }

  /** The stamp of the last SPS/PPS front among the streams below n. */
  function SpsPpsStamp(s: Sched, n: nat): nat
    requires n <= STREAMS
  {
    if n == 0 then 0
    else if FrontIsSpsPps(s, n - 1) then s.videoQueue[n - 1][0].pts
    else SpsPpsStamp(s, n - 1)
  }

  /** The query advances the bucket it reports. */
  function VideoReady(s: Sched, audioTs: nat): (r: (Sched, Readiness)) {
    var next, audio := NextBucket(s), AudioBucket(s, audioTs);
    var frame := FrameStamp(s, Limit(s, audioTs), |s.videoQueue|);
    if s.hasStarted then
      if frame == NO_STAMP then (s, NotReady)
      else if frame <= next / 3 then
        if audio >= next then (s.(lastBucket := next), Ready(next / 3)) else (s, NotReady)
      else if audio >= 3 * frame && audio > next then (s.(lastBucket := audio), Ready(audio / 3))
      else (s, AssertFails)
    else if AnyPicture(s, STREAMS) then (s.(hasStarted := true, lastBucket := 3 * frame), Ready(frame))
    else if AnySpsPps(s, STREAMS) then (s.(lastBucket := audio), Ready(SpsPpsStamp(s, |s.videoQueue|)))
    else (s, NotReady)
  }

  // ----- the class

  class FlvSegmentParser {
    var audioQueue: AudioQueues
    var audioStreamStatus: Statuses
    var videoQueue: VideoQueues
    var videoStreamStatus: Statuses
    var videoDecoder: Decoders
    var hasStarted: bool
    var lastBucketTimestamp: nat
    var globalAudioTimestamp: nat

    ghost function State(): Sched
      reads this
    {
      Sched(audioQueue, audioStreamStatus, videoQueue, videoStreamStatus, videoDecoder,
            hasStarted, lastBucketTimestamp, globalAudioTimestamp)
    }

    constructor ()
      ensures State() == INIT
    {
      audioQueue, videoQueue := seq(32, _ => []), seq(32, _ => []);
      audioStreamStatus, videoStreamStatus := seq(32, _ => Offline), seq(32, _ => Offline);
      videoDecoder := seq(32, _ => Decoder(false, false, NO_STAMP));
      hasStarted, lastBucketTimestamp, globalAudioTimestamp := false, 0, 0;
    }

    /** The mask loop of readData. */
    method HandleMask(mask: nat)
      modifies `audioStreamStatus, `videoStreamStatus
      ensures State() == ApplyMask(old(State()), mask)
    {
      var streamMask := mask;
      for index := 0 to STREAMS
        invariant streamMask == Shift(mask, index)
        invariant forall i :: 0 <= i < STREAMS ==>
                    videoStreamStatus[i] == MaskedUpTo(old(videoStreamStatus), mask, index, i)
        invariant forall i :: 0 <= i < STREAMS ==>
                    audioStreamStatus[i] == MaskedUpTo(old(audioStreamStatus), mask, index, i)
      {
        if streamMask % 2 == 1 {
          if videoStreamStatus[index] == Offline {
            videoStreamStatus := videoStreamStatus[index := NotStarted];
          }
          if audioStreamStatus[index] == Offline {
            audioStreamStatus := audioStreamStatus[index := NotStarted];
          }
        } else {
          videoStreamStatus := videoStreamStatus[index := Offline];
          audioStreamStatus := audioStreamStatus[index := Offline];
        }
        streamMask := streamMask / 2;
      }
      assert State().videoStatus == ApplyMask(old(State()), mask).videoStatus;
      assert State().audioStatus == ApplyMask(old(State()), mask).audioStatus;
    }

    /** onFLVFrameParsed for video, with VideoDecoder::newAccessUnit; the caller has checked DecoderAsserts. */
    method OnVideoUnit(i: nat, u: VideoUnit)
      requires i < STREAMS && !DecoderAsserts(State(), i, u)
      modifies `videoQueue, `videoStreamStatus, `videoDecoder
      ensures State() == VideoIn(old(State()), i, u)
    {
      var isValidFrame := false;
      if u.isSpsPps {
        videoDecoder := videoDecoder[i := videoDecoder[i].(firstFrameStarted := false, hasSpsPps := true)];
      } else if u.decoded.Some? {
        isValidFrame := true;
        if !videoDecoder[i].firstFrameStarted {
          videoDecoder := videoDecoder[i := videoDecoder[i].(firstFrameStarted := true, firstFramePts := u.pts)];
        }
      }
      if isValidFrame || u.isSpsPps {
        var v := VideoRaw(u.pts, u.isSpsPps, if u.isSpsPps then None else u.decoded);
        videoQueue := videoQueue[i := videoQueue[i] + [v]];
        videoStreamStatus := videoStreamStatus[i := Started];
      }
      assert State().decoder == VideoIn(old(State()), i, u).decoder;
    }

    /** onFLVFrameParsed for audio: queue every complete frame. */
    method OnAudioFrames(i: nat, frames: seq<AudioRaw>)
      requires i < STREAMS
      modifies `audioQueue, `audioStreamStatus, `globalAudioTimestamp
      ensures State() == AudioIn(old(State()), i, frames)
    {
      for k := 0 to |frames|
        invariant audioQueue[i] == old(audioQueue)[i] + frames[..k] && audioStreamStatus == old(audioStreamStatus)
        invariant forall j :: 0 <= j < STREAMS && j != i ==> audioQueue[j] == old(audioQueue)[j]
        invariant globalAudioTimestamp == if k == 0 then old(globalAudioTimestamp) else frames[k - 1].pts
      {
        audioQueue := audioQueue[i := audioQueue[i] + [frames[k]]];
        globalAudioTimestamp := frames[k].pts;
        assert frames[..k + 1] == frames[..k] + [frames[k]];
      }
      assert frames[..|frames|] == frames;
      assert audioQueue == old(audioQueue)[i := old(audioQueue)[i] + frames];
      audioStreamStatus := audioStreamStatus[i := Started];
    }

    method IsNextAudioStreamReady() returns (r: Readiness)
      ensures r == AudioReady(State())
    {
      var s := State();
      var audioTimestamp, totalStreams := NO_STAMP, 0;
      var i := 0;
      while i < STREAMS
        invariant 0 <= i <= STREAMS && audioTimestamp == AudioStamp(s, i)
        invariant AudioFilled(s, i) && (totalStreams > 0 <==> AnyAudio(s, i))
      {
        if audioStreamStatus[i] == Started {
          if audioQueue[i] != [] {
            audioTimestamp := if audioQueue[i][0].pts < audioTimestamp then audioQueue[i][0].pts else audioTimestamp;
          } else {
            assert !AudioFilled(s, STREAMS);
            return NotReady;
          }
          totalStreams := totalStreams + 1;
        }
        i := i + 1;
      }
      r := if totalStreams > 0 then Ready(audioTimestamp) else NotReady;
    }

    method IsNextVideoStreamReady(audioTimestamp: nat) returns (r: Readiness)
      modifies `hasStarted, `lastBucketTimestamp
      ensures (State(), r) == VideoReady(old(State()), audioTimestamp)
    {
      ghost var s := State();
      var nextBucket := lastBucketTimestamp + INTERVAL;
      var audioBucket := AudioBucketFrom(lastBucketTimestamp, audioTimestamp);
      var nextLimit := (if nextBucket > audioBucket then nextBucket else audioBucket) / 3;
      var frameTimestamp, hasPicture, hasSpsPps, spsPpsTimestamp := ScanFronts(nextLimit);
      r := NotReady;
      if hasStarted {
        if frameTimestamp != NO_STAMP {
          if frameTimestamp <= nextBucket / 3 {
            if audioBucket >= nextBucket {
              lastBucketTimestamp := nextBucket;
              r := Ready(nextBucket / 3);
            }
          } else if audioBucket >= 3 * frameTimestamp && audioBucket > nextBucket {
            lastBucketTimestamp := audioBucket;
            r := Ready(audioBucket / 3);
          } else {
            r := AssertFails;
          }
        }
      } else if hasPicture {
        hasStarted := true;
        lastBucketTimestamp := 3 * frameTimestamp;
        r := Ready(frameTimestamp);
      } else if hasSpsPps {
        lastBucketTimestamp := audioBucket;
        r := Ready(spsPpsTimestamp);
      }
    }

    method ScanFronts(nextLimit: nat)
      returns (frameTimestamp: nat, hasPicture: bool, hasSpsPps: bool, spsPpsTimestamp: nat)
      ensures frameTimestamp == FrameStamp(State(), nextLimit, |videoQueue|)
      ensures hasPicture == AnyPicture(State(), STREAMS) && hasSpsPps == AnySpsPps(State(), STREAMS)
      ensures spsPpsTimestamp == SpsPpsStamp(State(), |videoQueue|)
    {
      frameTimestamp, hasPicture, hasSpsPps, spsPpsTimestamp := NO_STAMP, false, false, 0;
      ghost var s := State();
      for i := 0 to |videoQueue|
        invariant frameTimestamp == FrameStamp(s, nextLimit, i) && spsPpsTimestamp == SpsPpsStamp(s, i)
        invariant hasPicture == AnyPicture(s, i) && hasSpsPps == AnySpsPps(s, i)
      {
        if videoStreamStatus[i] == Started && videoQueue[i] != [] {
          var front := videoQueue[i][0];
          var record := true;
          if front.isSpsPps {
            assert FrontIsSpsPps(s, i);
            hasSpsPps, spsPpsTimestamp := true, front.pts;
          } else {
            assert FrontIsPicture(s, i);
            hasPicture := true;
            if hasStarted && front.pts > nextLimit {
              record := false;
            }
          }
          if record {
            frameTimestamp := if frameTimestamp == NO_STAMP ||
                front.pts > frameTimestamp then front.pts else frameTimestamp;
          }
        }
      }
    }

    /** Pops a front that is not past the timestamp. */
    method GetNextVideoFrame(i: nat, timestamp: nat) returns (v: Option<VideoRaw>)
      requires i < STREAMS
      modifies `videoQueue
      ensures var q := old(videoQueue)[i];
              if q != [] && q[0].pts <= timestamp
              then v == Some(q[0]) && videoQueue == old(videoQueue)[i := q[1..]]
              else v == None && videoQueue == old(videoQueue)
    {
      v := None;
      if videoQueue[i] != [] && videoQueue[i][0].pts <= timestamp {
        v := Some(videoQueue[i][0]);
        videoQueue := videoQueue[i := videoQueue[i][1..]];
      }
    }

    method GetNextAudioFrame(i: nat) returns (a: Option<AudioRaw>)
      requires i < STREAMS
      modifies `audioQueue
      ensures var q := old(audioQueue)[i];
              if q != [] then a == Some(q[0]) && audioQueue == old(audioQueue)[i := q[1..]]
              else a == None && audioQueue == old(audioQueue)
    {
      a := None;
      if audioQueue[i] != [] {
        a := Some(audioQueue[i][0]);
        audioQueue := audioQueue[i := audioQueue[i][1..]];
      }
    }
  }
}
