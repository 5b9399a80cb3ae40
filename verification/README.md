# Mixcoder, verified

The mixcoder server takes many publishers' FLV streams from one byte pipe, aligns them
in time, mixes them, and sends each viewer its own FLV stream. This project models the
logic of `old/server/mixcoder/prog` in Dafny and proves what that logic promises. Codecs
are opaque: their results are parameters that may take any value.

Run `dafny verify dfyconfig.toml` here to check everything.

## What is where

- `Bytes`, `BitMask`: byte strings, fixed-width integers, stream masks.
- `Chunked`: the loop shape shared by the three incremental parsers. A parser's meaning
  is what it does byte by byte; the copying loops of the source are proved to mean the same.
- `SegmentInReading`, `SegmentDemuxing`: the SGI demultiplexer in front of 32 FLV parsers.
- `FlvReading`, `AvcRewriting`, `StreamClock`: one stream's FLV parser, its payload
  rewriting and its clock.
- `Scheduling`, `BucketClock`: the 32 audio and 32 video queues, the readiness queries, the
  30 fps bucket clock. `Mixing`, `MixCoding`: `getOutput`, on values and as a class.
- `MixingRuns`, `PictureValidity`, `AudioLockstep`, `OutputStreams`: what holds over whole runs.
- `Histories`: what the mixer holds after a run, told from the run's events alone, and from that which
  streams a call composes. `Packaging`: who gets a tag, and its bytes read back as numbers.
- `FlvWriting`, `SegmentWriting`, `SegmentOutReading`, `SegmentRoundTrip`: the output side and its inverse.
- `TemporalLayers`: the VP8 layering. `Reframing`, `SampleClock`, `AudioMixing`,
  `PictureTiling`: the buffer algorithms.
- `Server`: everything put together, from the bytes read to the bytes written. `Hearing`: its audio
  path, from the samples of a stream's access units to the frames queued. `Seeing`: its video path.
- `Scenes`: the server fed by one publisher, followed tag by tag. `Incidents`: byte streams on which
  what the code hopes for fails. `Broadcasting`: byte streams on which audio stays in order.

Code that changes state is a class or a method on arrays; its `ensures` ties the new state
to a function on values, and lemmas about that function state what is promised. The source's
`FLVSegmentParser` is split in two classes along its two jobs: `SegmentDemux` (bytes to
masks and tags) and `FlvSegmentParser` (queues and clocks).

## Choices a reader should know

- Bucket times are exact, in thirds of a millisecond, so 1000/30 ms is the integer 100. The
  source keeps them as doubles. The sample clock is exact too; the source's double quotient
  has the same integer part as long as the count is exactly representable.
- `MAX_S32` is 0x0fffffff in this code base. An offset that happens to be that value is taken
  for unset, so the promise that a resynchronised unit gets the global audio clock has one
  exception below 2^31 - 1 (`StreamClock.ResyncSmall`).
- A failed assert, an uncaught exception or a null dereference ends a run: `Aborted`,
  `crashed`, `Unreadable`. Where a payload is malformed the source reads past it; that is `None`.
- The header comment promises video queues sorted by timestamp. The code does not enforce it: a
  publisher's clock can be set back, and the first stamps of a stream may be out of order.
  `PictureValidity` gives the exact conditions, on the queues and on what arrives, under which only
  pictures are composed; order is enough but not needed. `Incidents.OutOfOrderFails` is a byte
  stream on which it fails, `Incidents.AssertReached` one on which an assert of the bucket clock fails.
- A zero stream mask is followed exactly (the counter wraps); the round trip is stated for
  1 to 31 bits, which is what the parser accepts.
- `AudioResampler` is modelled with its defect: the exact sizes for which it conserves
  samples are proved, and that it fails for all others.
- The mixer's index array for four streams is declared with two entries in the source
  (`AudioMixer.cpp:240`); the model gives it as many as are found.
- Picture sizes are in units of eight pixels; the server's 640 by 480 is `Size(80, 60)`.
- Stamps are u32 values below 0xffffffff, which the code reserves for "no frame". Packets
  fit the 24-bit size field of their tag.
- The onMetaData body of the FLV preamble is a parameter of the source's length 0x123; the rest of
  the preamble is literal.
- A reference table is judged by decoders that get `None` for a reference the flags forbid. A frame
  may copy one buffer to another (section 9.7 of RFC 6386) only from a buffer it may reference.

## Model

| member | source | states |
|---|---|---|
| `MixingRuns.CallDecreases` | old/server/mixcoder/prog/MixCoder.cpp:68-206 | Every call that selects a stream decreases the lexicographic measure (queued audio, not started, queued video, audio time minus bucket time). |
| `MixCoding.MixCoder.Drain` | old/server/mixcoder/prog/MixCoderMain.cpp:58-63 | The loop `while( output = getOutput() )` terminates for any encoder results; what it writes is exactly the output of the calls made, and the last call had nothing to give. |
| `MixCoding.MixCoder.GetOutput` | old/server/mixcoder/prog/MixCoder.cpp:68-207 | One call takes the server to the specified next state and returns the specified bytes; all output buffers are empty again, so none is ever overwritten. |
| `MixCoding.MixCoder.DrainStream` | old/server/mixcoder/prog/MixCoder.cpp:104-109 | The do-while loop pops exactly the records not past the bucket and caches the last of them. |
| `MixCoding.MixCoder.PopVideoFrames` | old/server/mixcoder/prog/MixCoder.cpp:98-128 | The first video loop leaves queues, cache and valid flags as `Histories.ComposedExactly` tells them from the run's events, and counts a stream exactly if some stream is to be composed. |
| `MixCoding.MixCoder.PopAudioFrames` | old/server/mixcoder/prog/MixCoder.cpp:152-178 | The first audio loop, likewise. |
| `MixCoding.MixCoder.PackageVideo` | old/server/mixcoder/prog/MixCoder.cpp:130-150 | Each valid mobile stream's slot gets one tag with its own tile, the all-in slot one with zeros, no other slot any; `Packaging.VideoTagsExactly` reads them back byte by byte. |
| `MixCoding.MixCoder.PackageAudio` | old/server/mixcoder/prog/MixCoder.cpp:180-203 | Each valid mobile stream's slot and the all-in slot get the tag of their own encoder, if it returned anything. |
| `Packaging.VideoTagsExactly` | old/server/mixcoder/prog/MixCoder.cpp:130-150 | In a video call at t, slot i has a tag if and only if the encoder returned a picture, stream i is composed and comes from a mobile; the tag is of kind 9, stamped t, and its body read back byte by byte gives the key flag, codec 8, the four 16-bit numbers of the i-th tile and the packet. The all-in slot has the same with zeros, exactly if any stream is composed. |
| `Packaging.AudioTagsExactly` | old/server/mixcoder/prog/MixCoder.cpp:180-203 | In an audio call at a: kind 8, stamp a, byte 0x2f and exactly the packet of the slot's own encoder. |
| `Packaging.ShownIsWritten` | old/server/mixcoder/prog/MixCoder.cpp:130-206 | A call that composes a stream and gets a picture from the encoder returns a frame. |
| `Packaging.TagLayout` | old/server/mixcoder/prog/FLVOutput.cpp:63-141 | Every byte of a tag: type, DataSize, lower and highest timestamp bytes, StreamID 0, data, PreviousTagSize. |
| `Packaging.PreambleLayout` | old/server/mixcoder/prog/FLVOutput.cpp:8-61 | The preamble is the literal file header, PreviousTagSize0 and the script tag. |
| `Packaging.EntryLayout` | old/server/mixcoder/prog/FLVSegmentOutput.cpp:62-88 | A slot's entry in an SGO frame: its number, its length lowest byte first, its buffer. |
| `Packaging.FrameLayout` | old/server/mixcoder/prog/FLVSegmentOutput.cpp:48-60 | An SGO frame starts with its name and a mask of exactly the slots with something to send. |
| `Histories.RunsAreTold` | old/server/mixcoder/prog/FLVSegmentParser.cpp:161-200 | After any run from start-up that has not crashed, from the events alone: a stream is started if and only if something has arrived for it and every mask since has had its bit; its queues are what arrived and was not taken, in order; its caches what was taken last; its source the one last told; its decoder's stamp that of the first picture behind the last header. |
| `Histories.GlobalClockTold` | old/server/mixcoder/prog/FLVSegmentParser.cpp:184-194 | After any such run the global audio clock is the stamp of the last frame that arrived, of any stream. |
| `Histories.ComposedExactly` | old/server/mixcoder/prog/MixCoder.cpp:98-128 | After any such run, the video call due at t takes of each started stream the records up to the first not due, and composes it if and only if it is started, something has ever been taken, the records end in pictures and the first of these behind the last header is stamped at or before t. |
| `Histories.StartIsComposed` | old/server/mixcoder/prog/MixCoder.cpp:104-119 | The call that starts the clock composes the stream whose front picture gave the bucket, once its header has been taken and no other waits. |
| `Incidents.FirstPictureIsSent` | old/server/mixcoder/prog/VideoDecoder.h:25-30 | A byte stream from start-up whose first bucket is its first picture's own stamp: the call composes it, and writes tags for the publisher and the all-in slot. |
| `MixCoding.MixCoder.Select` | old/server/mixcoder/prog/MixCoder.cpp:70-91 | Both readiness queries, then audio exactly if it is strictly earlier. |
| `MixCoding.BytesNeedAStream` | old/server/mixcoder/prog/MixCoder.cpp:93-206 | Only a call that selected a stream returns bytes. |
| `MixingRuns.GridOverRuns` | old/server/mixcoder/prog/FLVSegmentParser.cpp:72-96 | Once video has started, over every run the bucket clock moves only in calls that take the video branch, by a positive number of whole 1000/30 ms intervals, to exactly the bucket that is due from the fronts found, and the stamp never exceeds the audio stamp: no advanced bucket is lost. |
| `MixingRuns.GridTimes` | old/server/mixcoder/prog/FLVSegmentParser.cpp:72-96 | Any video output of such a run is a positive number of whole intervals after any earlier call's bucket time. |
| `MixingRuns.BucketsOverRuns` | old/server/mixcoder/prog/FLVSegmentParser.cpp:72-96 | Over every run of proper stamps, every call's bucket is the one `BucketExactly` says: the next while all fronts within the limit are due by it, the audio's grid point only when one is not. No interval is passed over otherwise. |
| `MixingRuns.FirstBucketTaken` | old/server/mixcoder/prog/MixCoder.cpp:77-86 | The very first bucket is output at once exactly when its stamp is not past the audio; otherwise audio goes first. |
| `MixingRuns.RunCrashExact` | old/server/mixcoder/prog/FLVSegmentParser.cpp:87-91 | A run of proper u32 stamps fails an assert or dereferences null exactly when it meets a picture before any SPS/PPS, or a call in which a started clock sees an SPS/PPS front past its limit. |
| `Incidents.AssertReached` | old/server/mixcoder/prog/FLVSegmentParser.cpp:87-91 | The second of these happens: a concrete byte stream (SPS/PPS, pictures, one audio frame, a gap, SPS/PPS again) after which the next output call fails the assert. |
| `MixingRuns.CrashExact` | old/server/mixcoder/prog/VideoDecoder.cpp:82-84 | The same for one step. |
| `MixingRuns.CallKeepsStamps` | old/server/mixcoder/prog/FLVSegmentParser.cpp:354-381 | Popping never introduces the stamp that means no frame. |
| `BucketClock.AssertsExact` | old/server/mixcoder/prog/FLVSegmentParser.cpp:87-91 | The two asserts of the readiness query fail if and only if the clock has started and an SPS/PPS front, which the limit does not filter, is stamped past the limit. |
| `BucketClock.FrameStampIsMax` | old/server/mixcoder/prog/FLVSegmentParser.cpp:36-69 | The fold over all 32 queues is the maximum over the fronts that take part, and the sentinel exactly if none does. |
| `BucketClock.AudioStampIsMin` | old/server/mixcoder/prog/FLVSegmentParser.cpp:122-140 | The audio stamp is the least front stamp of the started streams. |
| `BucketClock.BucketStep` | old/server/mixcoder/prog/FLVSegmentParser.cpp:72-96 | A reported bucket is a positive number of intervals later, not past the audio; an unreported one leaves the clock alone. |
| `BucketClock.BucketDue` | old/server/mixcoder/prog/FLVSegmentParser.cpp:72-102 | Once started, a bucket is reported if and only if audio has reached the next bucket and some front takes part. |
| `BucketClock.BucketExactly` | old/server/mixcoder/prog/FLVSegmentParser.cpp:72-96 | A started clock that meets no late SPS/PPS, from the fronts alone: a bucket is reported if and only if the audio has reached the next one and some front is stamped within the limit; it is the next one (100 thirds later) if all such fronts are due by then, and otherwise the greatest grid point not past the audio; nothing else changes. |
| `BucketClock.StartExactly` | old/server/mixcoder/prog/FLVSegmentParser.cpp:103-111 | Before the start, with a picture at some front: the clock starts at the latest stamp of all fronts, and nothing else changes. |
| `BucketClock.HeaderExactly` | old/server/mixcoder/prog/FLVSegmentParser.cpp:112-117 | Before the start, with headers only: the header of the last stream that has one is reported, and the grid moves to the audio. |
| `BucketClock.AudioExactly` | old/server/mixcoder/prog/FLVSegmentParser.cpp:122-140 | Audio is ready exactly when some stream is started and every started one has a frame, at the least front stamp. |
| `BucketClock.FirstBucket` | old/server/mixcoder/prog/FLVSegmentParser.cpp:103-109 | The grid starts at the latest front stamp. |
| `BucketClock.SpsPpsStampIsFront` | old/server/mixcoder/prog/FLVSegmentParser.cpp:110-117 | Before the start an SPS/PPS record is reported at the stamp of a front, so that it is popped by the same call. |
| `PictureValidity.ValidStreamsArePictures` | old/server/mixcoder/prog/MixCoder.cpp:99-128 | From start-up, over any run, judged by what arrives: every state is safe for whatever bucket time comes if and only if no first picture since an SPS/PPS arrives behind a record stamped after it that itself stands behind an SPS/PPS record; and then every stream marked valid when a frame is composed has a decoded picture cached. |
| `PictureValidity.PicturesExactly` | old/server/mixcoder/prog/MixCoder.cpp:99-128 | From start-up, over any run, judged call by call: only decoded pictures are ever composed if and only if no call finds a started stream whose first picture is due and whose queue is held back, at that bucket time, directly behind an SPS/PPS record. |
| `PictureValidity.TrapExact` | old/server/mixcoder/prog/MixCoder.cpp:104-115 | Some bucket time at which the first picture is due leaves an SPS/PPS record cached if and only if the queue has a record stamped after that picture and after all before it, directly behind an SPS/PPS record. |
| `PictureValidity.ComposesExact` | old/server/mixcoder/prog/MixCoder.cpp:113-119 | The exact condition for one call. |
| `PictureValidity.OrderedQueuesSuffice` | old/server/mixcoder/prog/FLVSegmentParser.h:35-36 | Queues in order, as the header comment promises (but for a stream's first record), are enough. |
| `PictureValidity.DrainHeld` | old/server/mixcoder/prog/VideoDecoder.h:25-30 | Popping up to any time keeps account of the first picture since the last SPS/PPS, whatever the order of the queue. |
| `PictureValidity.DrainSetsNoTrap` | old/server/mixcoder/prog/MixCoder.cpp:104-109 | Popping never makes a safe queue unsafe. |
| `PictureValidity.VideoInKeeps` | old/server/mixcoder/prog/VideoDecoder.cpp:69-125 | What arrives keeps account of the first picture (SPS/PPS clears the first-picture flag, the first decoded picture sets it with its stamp), and makes a safe state unsafe exactly in the one case above. |
| `PictureValidity.RunComposes` | old/server/mixcoder/prog/FLVSegmentParser.cpp:163-170 | Both exact conditions over every run from any accounted-for state. |
| `Incidents.OutOfOrderFails` | old/server/mixcoder/prog/MixCoder.cpp:113-119 | A concrete byte stream from start-up (SPS/PPS, two pictures that do not decode, another SPS/PPS, a jump of the audio clock, a picture, a sound) after which a stream counts as valid while its cache holds an SPS/PPS record. |
| `Scenes.ScriptShows` | old/server/mixcoder/prog/FLVSegmentParser.cpp:161-200 | Byte by byte and call by call, the whole server does with one publisher's tags what the scene does that such streams are evaluated in. |
| `AudioLockstep.LockstepPops` | old/server/mixcoder/prog/MixCoder.cpp:152-178 | An audio call takes exactly the front of every started stream and nothing else; the fallback that would dereference a null frame is unreachable. |
| `AudioLockstep.AudioNeverBack` | old/server/mixcoder/prog/FLVSegmentParser.cpp:122-140 | Over any run, segment masks included, in which every started stream's frames arrive in order and no stream joins with frames behind the output so far, audio output stamps never decrease. |
| `AudioLockstep.GoesBackExact` | old/server/mixcoder/prog/FLVSegmentParser.cpp:122-140 | A call's audio stamp falls behind a given one if and only if some started stream's front does. |
| `Broadcasting.BroadcastsAreInOrder` | old/server/mixcoder/prog/FLVSegmentParser.cpp:227-270 | From the first byte, over any number of segments with a sound each: if the sample clock's stamps are in order, the server's run is one `AudioNeverBack` speaks of, and it outputs exactly those stamps. |
| `Scheduling.FlvSegmentParser.IsNextVideoStreamReady` | old/server/mixcoder/prog/FLVSegmentParser.cpp:19-120 | The mutating readiness query computes the answer and the new clock that `BucketExactly`, `StartExactly`, `HeaderExactly` and `AssertsExact` pin from the fronts. |
| `Scheduling.FlvSegmentParser.ScanFronts` | old/server/mixcoder/prog/FLVSegmentParser.cpp:41-69 | Its loop over the 32 queues computes the fold, both flags and the last SPS/PPS stamp. |
| `Scheduling.FlvSegmentParser.IsNextAudioStreamReady` | old/server/mixcoder/prog/FLVSegmentParser.cpp:122-140 | Ready exactly if some stream is started and every started queue is nonempty, at the least front stamp. |
| `Scheduling.FlvSegmentParser.HandleMask` | old/server/mixcoder/prog/FLVSegmentParser.cpp:246-263 | The shifting loop sets each stream's two statuses by its own mask bit. |
| `Scheduling.FlvSegmentParser.OnVideoUnit` | old/server/mixcoder/prog/FLVSegmentParser.cpp:163-170 | Queues the record of a decoded picture or an SPS/PPS unit, with the decoder's flags updated. |
| `Scheduling.FlvSegmentParser.OnAudioFrames` | old/server/mixcoder/prog/FLVSegmentParser.cpp:184-196 | Queues every frame in order, moves the global audio clock to the last, starts the stream. |
| `Scheduling.FlvSegmentParser.GetNextVideoFrame` | old/server/mixcoder/prog/FLVSegmentParser.cpp:354-369 | Pops the front exactly if it is not past the timestamp. |
| `Scheduling.FlvSegmentParser.GetNextAudioFrame` | old/server/mixcoder/prog/FLVSegmentParser.cpp:371-381 | Pops the front if there is one. |
| `Scheduling.AudioBucketFrom` | old/server/mixcoder/prog/FLVSegmentParser.cpp:29-30 | The audio bucket is on the grid, at most one interval before the audio, or not before it when audio is behind. |
| `OutputStreams.ViewersGetTheirTags` | old/server/mixcoder/prog/MixCoder.cpp:130-203 | End to end: split what main writes over any run into any reads; writer i of the SGO parser gets nothing if no tag was made for slot i, and otherwise an FLV file whose tags are the script tag and then exactly those made, in order. |
| `OutputStreams.FewMobilesFewViewers` | old/server/mixcoder/prog/MixCoder.cpp:130-146 | At most 30 mobile sources over a run keep every frame of it within the 30 viewers the SGO parser accepts. |
| `OutputStreams.NothingLost` | old/server/mixcoder/prog/FLVSegmentOutput.cpp:18-91 | Over any run, what slot i is given is all its tags once each, in order, behind one preamble. |
| `OutputStreams.WrittenIsEmitted` | old/server/mixcoder/prog/MixCoderMain.cpp:58-62 | The bytes written are the serialized frames, calls without output adding nothing. |
| `OutputStreams.FileReads` | old/server/mixcoder/prog/FLVOutput.cpp:118-140 | Preamble and tags form a file that an FLV reader takes apart into exactly those tags, so each DataSize and PreviousTagSize is right (section E.3 of the Adobe FLV File Format Specification 10.1). |
| `SegmentRoundTrip.RoundTrip` | old/server/mixcoder/prog/SegOutputParser.cpp:66-172 | However the multiplexed bytes of any sequence of frames are cut into reads, writer i receives exactly what slot i was given, empty all-in entries included. |
| `SegmentRoundTrip.FrameRead` | old/server/mixcoder/prog/SegOutputParser.cpp:102-103 | One frame is delivered whole if it has at most 30 viewers; with more the parser's assert fails. |
| `SegmentRoundTrip.EntriesRead` | old/server/mixcoder/prog/SegOutputParser.cpp:125-168 | The per-viewer entries bring the parser from header to header, one count at a time. |
| `SegmentOutReading.SegOutputParser.ReadData` | old/server/mixcoder/prog/SegOutputParser.cpp:66-172 | The copying loop terminates and means the same as feeding the bytes one by one, zero-length entries being flushed by the next byte. |
| `SegmentOutReading.SegOutputParser.Act` | old/server/mixcoder/prog/SegOutputParser.cpp:79-166 | What each case does with a full buffer. |
| `SegmentWriting.FlvSegmentOutput.GetOneFrameForAllStreams` | old/server/mixcoder/prog/FLVSegmentOutput.cpp:28-91 | Returns the serialized frame exactly if some buffer is nonempty, and resets every buffer. |
| `SegmentWriting.FlvSegmentOutput.Measure` | old/server/mixcoder/prog/FLVSegmentOutput.cpp:30-46 | Mask, payload size and entry count of the first pass. |
| `SegmentWriting.FlvSegmentOutput.WriteAll` | old/server/mixcoder/prog/FLVSegmentOutput.cpp:58-88 | The second pass fills exactly the bytes allocated from the first pass's sizes. |
| `SegmentWriting.EntriesSize` | old/server/mixcoder/prog/FLVSegmentOutput.cpp:34-58 | Sizes counted are sizes written. |
| `SegmentWriting.FlvSegmentOutput.PackageVideoFrame` | old/server/mixcoder/prog/FLVSegmentOutput.cpp:18-22 | Sets one slot's buffer and preamble flag and no other. |
| `SegmentWriting.FlvSegmentOutput.PackageAudioFrame` | old/server/mixcoder/prog/FLVSegmentOutput.cpp:23-27 | The same for audio. |
| `FlvWriting.FlvOutput.PackageVideoFrame` | old/server/mixcoder/prog/FLVOutput.cpp:63-141 | Writes a well-formed video tag, behind the preamble the first time only. |
| `FlvWriting.FlvOutput.PackageAudioFrame` | old/server/mixcoder/prog/FLVOutput.cpp:143-205 | The same for audio. |
| `BitMask.CountBits` | old/server/mixcoder/prog/FLVSegmentParser.cpp:153-159 | Kernighan's loop counts the set bits. |
| `BitMask.ClearLowest` | old/server/mixcoder/prog/SegOutputParser.cpp:12-18 | n & (n - 1) has one set bit less. |
| `BitMask.BitOfMask` | old/server/mixcoder/prog/FLVSegmentParser.cpp:246-263 | Reading a mask by shifting gives back the streams it was built from. |
| `SegmentDemuxing.PublishersRecovered` | old/server/mixcoder/prog/FLVSegmentParser.cpp:202-338 | Cut every publisher's FLV bytes into segments at any points and the segment bytes into reads at any points: each stream's tags come out whole and in order. |
| `SegmentDemuxing.StreamsAreIndependent` | old/server/mixcoder/prog/FLVSegmentParser.cpp:300-331 | For any bytes in any reads, well formed or not: each stream's parser is where feeding it that stream's bytes in one piece would put it, and the state depends on the total bytes only. |
| `SegmentDemuxing.SegmentRead` | old/server/mixcoder/prog/FLVSegmentParser.cpp:209-331 | A segment with 1 to 31 mask bits hands each stream its payload and leaves the parser before the next segment. |
| `SegmentDemuxing.ZeroMaskDerails` | old/server/mixcoder/prog/FLVSegmentParser.cpp:265-325 | After a zero mask the counter wraps: the next part is counted as the first of 2^32. |
| `SegmentDemuxing.TagsRead` | old/server/mixcoder/prog/FLVParser.cpp:8-59 | Any sequence of tags with 24-bit sizes is recognised exactly. |
| `SegmentInReading.SegmentDemux.ReadData` | old/server/mixcoder/prog/FLVSegmentParser.cpp:202-338 | The copying loop terminates and means the same as feeding the bytes one by one. |
| `SegmentInReading.SegmentDemux.Act` | old/server/mixcoder/prog/FLVSegmentParser.cpp:218-331 | What each case does with a full buffer. |
| `SegmentInReading.SegmentDemux.Dispatch` | old/server/mixcoder/prog/FLVSegmentParser.cpp:311-316 | A finished share goes to its own stream's parser and no other. |
| `Chunked.ChunkingIndependence` | old/server/mixcoder/prog/FLVSegmentParser.cpp:207-336 | A parser of this shape is left in the same state however the bytes are split into reads. |
| `Chunked.PassSound` | old/server/mixcoder/prog/FLVParser.cpp:12-58 | One turn of the copying loop means the same as feeding the bytes it copied. |
| `Server.BytesToViewers` | old/server/mixcoder/prog/MixCoderMain.cpp:52-63 | From bytes to bytes: feed any bytes to a server just started, in any reads with any output calls between them, and cut what it writes into any reads of the SGO parser; writer i gets nothing, or an FLV file of exactly the tags made for slot i, in order. |
| `Server.ServeFollows` | old/server/mixcoder/prog/FLVSegmentParser.cpp:161-200 | Every run of the whole server on bytes is a run of the mixer's state machine on the events those bytes cause, until a parser crashes it, and writes exactly what that run writes; which audio events those are, `Hearing.ServerHears` says. |
| `Server.BytesToMobileViewers` | old/server/mixcoder/prog/MixCoderMain.cpp:52-63 | The same as `BytesToViewers` for all bytes read in which segment headers mark at most 30 streams as mobile. |
| `Server.ReadsDoNotMatter` | old/server/mixcoder/prog/MixCoder.cpp:62-65 | However the pipe splits the bytes, parsers, clocks, decoders, resamplers, queues and the global audio clock end up as after one big read. |
| `Hearing.ServerHears` | old/server/mixcoder/prog/FLVSegmentParser.cpp:171-196 | From any state of the server, over any reads and calls, with any other streams beside: while a stream's audio units share a settings byte (or are all Speex) and have manageable sizes, the frames its events queue, followed by its residual, are exactly its residual before followed by the samples of those units, in order; each frame has 1152 samples and is stamped by the sample clock with the stamp of the unit that completed it. |
| `Hearing.AllHeard` | old/server/mixcoder/prog/FLVSegmentParser.cpp:171-196 | The same from the first byte on, with nothing held before. |
| `Hearing.CodecChanged` | old/server/mixcoder/prog/FLVSegmentParser.cpp:172-180 | A unit of another codec loses the residual and nothing else: the sample clock and the stream's memory go on. |
| `Hearing.EarExactly` | old/server/mixcoder/prog/FLVSegmentParser.cpp:172-180 | The decoder is kept for the same settings byte and among Speex settings, and replaced otherwise; the clock is kept either way. |
| `Seeing.ServerSees` | old/server/mixcoder/prog/FLVSegmentParser.cpp:161-170 | From the first byte, over any reads and calls that crash nothing: the mixer is given exactly each stream's video units, in order, each with its adjusted stamp, headers as headers and pictures as the decoder makes them. |
| `Seeing.TagHandled` | old/server/mixcoder/prog/FLVParser.cpp:285-296 | One tag: its parser remembers what reading it with the global audio clock leaves behind, a delivered unit is told to the mixer once, and no other stream is touched. |
| `FlvReading.AudioTagRoundTrip` | old/server/mixcoder/prog/FLVParser.cpp:206-241 | An audio tag written by FLVOutput with any u32 stamp and 1 to 2^24 - 2 payload bytes is read back in any number of reads: type, codec byte, raw stamp, payload. |
| `FlvReading.AacTagRead` | old/server/mixcoder/prog/FLVParser.cpp:206-241 | An AAC tag (settings 0xa0 to 0xaf) in any number of reads: packet type 0 is a sequence header, any other raw data, and a tag without packet bytes delivers nothing but moves the clock. |
| `FlvReading.PictureTagRead` | old/server/mixcoder/prog/FLVParser.cpp:91-202 | An AVC picture tag in any number of reads is delivered as its units behind start codes and 16 zero bytes, a key frame exactly for frame type 1. |
| `FlvReading.HeaderTagRead` | old/server/mixcoder/prog/FLVParser.cpp:115-200 | A sequence header whose lengths survive is delivered as SPS and PPS behind start codes and remembered; the same one again delivers nothing. |
| `FlvReading.ScriptTagRead` | old/server/mixcoder/prog/FLVParser.cpp:242-251 | A script tag delivers nothing and changes neither clock nor memory. |
| `FlvReading.TagRead` | old/server/mixcoder/prog/FLVParser.cpp:14-55 | One tag is recognised wherever its bytes start. |
| `FlvReading.FlvParser.ReadData` | old/server/mixcoder/prog/FLVParser.cpp:8-59 | The copying loop terminates, means the same as feeding the bytes one by one, and hands on exactly the completed tags. |
| `FlvReading.FlvParser.ParseNextFlvFrame` | old/server/mixcoder/prog/FLVParser.cpp:61-297 | One tag: content, clock, repeated SPS/PPS suppressed, empty bodies ignored. |
| `FlvReading.FlvParser.ReadContent` | old/server/mixcoder/prog/FLVParser.cpp:89-247 | The codec switch. |
| `FlvReading.FlvParser.AdjustTimestamp` | old/server/mixcoder/prog/FLVParser.cpp:255-290 | The clock adjustment and its memory. |
| `AvcRewriting.RewriteUnits` | old/server/mixcoder/prog/FLVParser.cpp:142-171 | The loop terminates; it succeeds if and only if the payload is a list of length-prefixed units, and then yields exactly the nonempty units behind start codes, then 16 zero bytes (section 5.2.4.1 of ISO/IEC 14496-15, Annex B of ITU-T H.264). |
| `AvcRewriting.AvccInjective` | old/server/mixcoder/prog/FLVParser.cpp:149-165 | A payload is at most one list of units. |
| `AvcRewriting.SequenceHeaderExact` | old/server/mixcoder/prog/FLVParser.cpp:130-139 | The sequence header yields start code, SPS, start code, PPS if and only if both lengths have a low byte below 0x80 or a high byte of 0xff. |
| `AvcRewriting.LengthRead` | old/server/mixcoder/prog/FLVParser.cpp:132-136 | A length read through signed chars is right exactly then, and otherwise at least 256 too large. |
| `StreamClock.ResyncExact` | old/server/mixcoder/prog/FLVParser.cpp:255-279 | A resynchronising unit is stamped with the global audio clock if and only if the new offset is not the unset value and the clock is below 2^31 when the unit moves backwards. |
| `StreamClock.ResyncSmall` | old/server/mixcoder/prog/FLVParser.cpp:255-279 | Below 2^31 - 1 the only failure is an offset of exactly 2^28 - 1. |
| `StreamClock.ResyncMissed` | old/server/mixcoder/prog/FLVParser.cpp:255-272 | A concrete unit for which that happens. |
| `StreamClock.GapsPreserved` | old/server/mixcoder/prog/FLVParser.cpp:271-279 | Over any run, until the next resynchronisation gaps between shifted stamps are the original gaps modulo 2^32. |
| `StreamClock.RemembersLast` | old/server/mixcoder/prog/FLVParser.cpp:285-290 | Over any run, the clock's memory is the stamp given to the last tag of each kind, and the raw stamp of the last audio tag. |
| `StreamClock.JumpExactly` | old/server/mixcoder/prog/FLVParser.cpp:261-267 | Once an offset is set, an audio tag resynchronises exactly if its stamp is more than 100 ms past that of the audio tag before it. |
| `StreamClock.StampedAfterLast` | old/server/mixcoder/prog/FLVParser.cpp:268-283 | An SPS/PPS unit is stamped 1 after the last video stamp; a unit whose shifted stamp is negative, 1 after the last stamp of its own kind. |
| `TemporalLayers.LayersDroppable` | old/server/mixcoder/prog/VideoEncoder.cpp:121-146 | With a closed table, for every stream, bound, decoder and starting state, dropping the layers above the bound leaves the pictures of the remaining frames exactly as they were (sections 9.7 and 9.8 of RFC 6386). |
| `TemporalLayers.Vp8Closed` | old/server/mixcoder/prog/VideoEncoder.cpp:121-146 | The encoder's 16-phase table is closed. |
| `TemporalLayers.DroppableExactlyWhenClosed` | old/server/mixcoder/prog/VideoEncoder.cpp:121-146 | A table of layer ids and flags makes layers droppable if and only if what a frame may reference is only updated by its own layer and below. |
| `TemporalLayers.OpenTableFails` | old/server/mixcoder/prog/VideoEncoder.cpp:131-146 | Any table that is not closed fails on a stream of two frames. |
| `TemporalLayers.VideoEncoder.FilesDecodeAlike` | old/server/mixcoder/prog/VideoEncoder.cpp:215-219 | Each of the five per-layer files decodes to the pictures the whole stream gives those frames. |
| `TemporalLayers.VideoEncoder.EncodeAFrame` | old/server/mixcoder/prog/VideoEncoder.cpp:198-241 | One frame: its phase, key flag exactly at phase 0, every layer file from its own layer up extended; an encoder error changes nothing. |
| `TemporalLayers.IdsAreLayered` | old/server/mixcoder/prog/VideoEncoder.cpp:121-121 | The literal table of layer ids is the binary hierarchy. |
| `TemporalLayers.FlagsInFull` | old/server/mixcoder/prog/VideoEncoder.cpp:131-146 | The table of flags, place by place, as literal flags. |
| `Reframing.ConservesExactly` | old/server/mixcoder/prog/AudioResampler.cpp:43-87 | A call loses, repeats and moves no sample, for every content of the buffers, if and only if the residual and the new samples are manageable: at most 1152 without residual, less than 2304 together otherwise. |
| `Reframing.RunConserves` | old/server/mixcoder/prog/AudioResampler.cpp:40-106 | Over any run of manageable calls, drained after each, the frames taken out and the residual are exactly the samples fed, in order, and every frame has 1152. |
| `Reframing.SmallCallsManageable` | old/server/mixcoder/prog/AudioResampler.cpp:43-87 | Calls of at most 1152 samples are always manageable. |
| `Reframing.UnmanageableFails` | old/server/mixcoder/prog/AudioResampler.cpp:68-87 | Beyond that every state has an input on which samples are lost or repeated. |
| `Reframing.DrainReverses` | old/server/mixcoder/prog/AudioResampler.cpp:97-106 | Any list of queued frames comes out reversed, so one at a time is what keeps the order. |
| `Reframing.AudioResampler.Resample` | old/server/mixcoder/prog/AudioResampler.cpp:43-88 | The loop in place on the residual buffer computes the specified state for all sizes that do not overrun. |
| `Reframing.AudioResampler.GetNextRawMp3Frame` | old/server/mixcoder/prog/AudioResampler.cpp:97-106 | Takes the back of the list. |
| `SampleClock.NoDrift` | old/server/mixcoder/prog/AudioTimestampMapper.h:15-26 | j frames after a reset the stamp is the reset stamp plus floor(1280 j / 49), however long the run. |
| `SampleClock.StepsAndError` | old/server/mixcoder/prog/AudioTimestampMapper.h:31-33 | Steps are 26 or 27 ms and the error stays below 1 ms. |
| `SampleClock.ResetExact` | old/server/mixcoder/prog/AudioTimestampMapper.h:16-28 | While the u32 sum does not wrap, a reset after the first stamp is exactly a jump of more than 100 ms. |
| `SampleClock.OrderedExactly` | old/server/mixcoder/prog/AudioTimestampMapper.h:15-34 | Over any inputs, mapped stamps never decrease if and only if every reset after the first stamp lands at or past the last mapped one. |
| `SampleClock.StepsBack` | old/server/mixcoder/prog/AudioTimestampMapper.h:18-22 | A concrete input on which they decrease. |
| `SampleClock.AudioTimestampMapper.GetNextTimestamp` | old/server/mixcoder/prog/AudioTimestampMapper.h:15-34 | One call. |
| `AudioMixing.AudioMixer.MixStreams` | old/server/mixcoder/prog/AudioMixer.cpp:179-265 | Every specialised path for one to four streams, all-in or excluding a valid stream, equals the brute-force clipped sum; only a viewer alone gets noise. |
| `AudioMixing.MixMinus` | old/server/mixcoder/prog/AudioMixer.cpp:246-259 | Where nothing clips, the all-in sample is the viewer's mix plus the viewer's own sample. |
| `AudioMixing.ClipExactly` | old/server/mixcoder/prog/AudioMixer.cpp:5-5 | Sums outside 16 bits become the nearer end of the range; others stay. |
| `AudioMixing.TwoHearEachOther` | old/server/mixcoder/prog/AudioMixer.cpp:48-76 | Of two valid streams each is sent the other's samples, and the all-in stream the clipped sum. |
| `AudioMixing.AudioMixer.MixOneStream` | old/server/mixcoder/prog/AudioMixer.cpp:26-46 | One stream, mono doubled from the end. |
| `AudioMixing.AudioMixer.MixTwoStreams` | old/server/mixcoder/prog/AudioMixer.cpp:48-76 | Two streams, clipped sum. |
| `AudioMixing.AudioMixer.MixThreeStreams` | old/server/mixcoder/prog/AudioMixer.cpp:78-115 | Three streams. |
| `AudioMixing.AudioMixer.MixFourStreams` | old/server/mixcoder/prog/AudioMixer.cpp:117-163 | Four streams. |
| `AudioMixing.AudioMixer.FindIndexes` | old/server/mixcoder/prog/AudioMixer.cpp:164-174 | The valid streams but the excluded one, in order. |
| `AudioMixing.SumIsOverIndexes` | old/server/mixcoder/prog/AudioMixer.cpp:246-259 | The brute-force sum is the sum over those indexes. |
| `PictureTiling.VideoMixer.MixStreams` | old/server/mixcoder/prog/VideoMixer.cpp:62-283 | For one to four pictures the finished buffer shows, in all three planes, each picture at its tile and black elsewhere, every write is in bounds, and the rectangles told are the tiles; `TileSizes`, `TilesCoverExactly` and `ShownInNumbers` give tiles, places and values as numbers. |
| `PictureTiling.ShownExactly` | old/server/mixcoder/prog/VideoMixer.cpp:107-280 | What is shown at a place is the one picture whose tile it is in, or black. |
| `PictureTiling.TilesDisjoint` | old/server/mixcoder/prog/VideoMixer.cpp:107-280 | No two tiles share a pixel, in any plane. |
| `PictureTiling.TilesFit` | old/server/mixcoder/prog/VideoMixer.cpp:107-280 | Tiles lie inside the picture, in every plane. |
| `PictureTiling.PlanesExactly` | old/server/mixcoder/prog/VideoMixer.cpp:107-114 | The buffer is W * H luma bytes row by row, then two chroma planes of half the width and height. |
| `PictureTiling.TileSizes` | old/server/mixcoder/prog/VideoMixer.cpp:5-18 | One picture has the whole of each plane; two to four have tiles of exactly half its width and half its height, in luma and chroma. |
| `PictureTiling.TilesCoverExactly` | old/server/mixcoder/prog/VideoMixer.cpp:107-280 | Which places are covered: all with one or four pictures; with two the middle half of the rows; with three the lower half, and the upper without its outer quarters. |
| `PictureTiling.ShownInNumbers` | old/server/mixcoder/prog/VideoMixer.cpp:107-280 | A place in a tile shows the byte of that scaled picture at the tile's own row and column; any other place shows luma 16 or chroma 128. |
| `PictureTiling.OffsetsAreCorners` | old/server/mixcoder/prog/VideoMixer.cpp:130-150 | The offsets added up from fractions of the area are the corners of the tiles in Y, U and V. |
| `PictureTiling.StartNext` | old/server/mixcoder/prog/VideoMixer.cpp:213-219 | How the starting offsets move from picture to picture. |
| `PictureTiling.LayPicture` | old/server/mixcoder/prog/VideoMixer.cpp:128-158 | The three row loops change exactly one tile, in three planes. |
| `PictureTiling.Blit` | old/server/mixcoder/prog/VideoMixer.cpp:134-138 | One row loop copies exactly the block of rows. |
| `PictureTiling.VideoMixer.PaintBlack` | old/server/mixcoder/prog/VideoMixer.cpp:111-114 | Luma 16 and chroma 128 everywhere. |
| `PictureTiling.VideoMixer.RectFromOffset` | old/server/mixcoder/prog/VideoMixer.cpp:173-177 | Remainder and quotient of the offset are the tile's column and row. |

## Left out

- Codec and library calls (H.264, VP8, MP3, AAC, Speex, rate conversion, picture scaling): uninterpreted results.
- Entropy state of VP8: abstracted, because the encoder is configured as error resilient.
- `genWhiteNoise`: random; the mix of a viewer who is alone is left unspecified.
- More than four streams in either mixer: the code defines nothing there.
- `SegInputParser.cpp`, `FLVTimestampMapper.java`: near-duplicates of the framing modelled here.
- Process start-up, signals, logging and the files of `FileWriter`: a writer is the bytes appended to it.
- Wrap-around of the int frame counter of `VideoEncoder` after 2^31 frames, and of bucket times past 2^32 ms.
- `tryToInitSws` and the collection of valid streams in `VideoMixer`: the scaled pictures are inputs, in stream order.
- AVC tags whose DataSize is below 5, and AAC tags of one byte: `Unreadable`, where the source's unsigned size wraps.
- Malformed AVCC payloads whose last length makes the source's 32-bit addition wrap: counted as malformed like the others.
- `OutputStreams.ViewersGetTheirTags`: for frames with at most 30 mobile viewers, the most the SGO parser accepts; the same for `Server.BytesToViewers`.
- `AudioLockstep.AudioNeverBack`: that a publisher's frames arrive in order is a condition; `SampleClock.OrderedExactly` says when its clock meets it.
- `Server.ReadsDoNotMatter`: between two output calls; the decoders are functions of what their stream was given.
