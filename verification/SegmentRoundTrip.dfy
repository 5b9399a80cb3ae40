/** The SGO parser is the inverse of the SGO serializer, over runs of frames and any split into reads. */
module SegmentRoundTrip {
  import opened Bytes
  import opened BitMask
  import opened Chunked
  import opened SegmentWriting
  import opened SegmentOutReading

  /** Between frames: at a header, or still holding the empty all-in entry that only the next byte flushes. */
  ghost predicate AtBoundary(r: Reader<Ctl>, w: Buffers) {
    r.buf == [] && r.ctl.written == w &&
    (r.ctl.phase == SegHeader ||
     (r.ctl.phase == StreamData && r.ctl.streamLen == 0 && r.ctl.streamCnt == 1 && r.ctl.streamId == ALL_IN))
  }

  ghost predicate AtEntry(r: Reader<Ctl>, cnt: nat, w: Buffers) {
    r.buf == [] && r.ctl.written == w && r.ctl.phase == StreamHeader && r.ctl.streamCnt == cnt
  }

  /** Every length fits its four-byte field. */
  ghost predicate Encodable(bufs: Buffers) {
    forall i :: 0 <= i < SLOTS ==> |bufs[i]| < U32
  }

  function Viewers(bufs: Buffers): nat {
    Count(Present(bufs)[..32])
  }

  /** w with the buffers of the slots below n appended. */
  function Merge(w: Buffers, bufs: Buffers, n: nat): Buffers {
    seq(33, i requires 0 <= i < 33 => if i < n then w[i] + bufs[i] else w[i])
  }

  /** The bytes main writes for a run of frames. */
  function Emitted(frames: seq<Buffers>): seq<byte> {
    if frames == [] then []
    else (if OneFrame(frames[0]).Some? then OneFrame(frames[0]).value else []) + Emitted(frames[1..])
  }

  /** All that slot i was given over a run of frames. */
  function Collected(frames: seq<Buffers>, i: nat): seq<byte>
    requires i < SLOTS
  {
    if frames == [] then [] else frames[0][i] + Collected(frames[1..], i)
  }

  lemma EntryHeaderRead(r: Reader<Ctl>, cnt: nat, w: Buffers, id: byte, buf: seq<byte>)
    requires AtEntry(r, cnt, w) && id <= ALL_IN && |buf| < U32
    ensures Feed(Sgo, r, [id] + Le32(|buf|)) ==
            Reader(r.ctl.(phase := StreamData, streamId := id, streamLen := |buf|), [])
  {
    var h := [id] + Le32(|buf|);
    FeedBulk(Sgo, r, h);
    assert [] + h == h;
    assert h[1..] == Le32(|buf|);
    Le32RoundTrip(|buf|);
  }

  lemma EntryRead(r: Reader<Ctl>, cnt: nat, w: Buffers, id: byte, buf: seq<byte>)
    requires AtEntry(r, cnt, w) && id <= ALL_IN && |buf| < U32 && cnt >= 1
    ensures var r' := Feed(Sgo, r, Entry(id, buf));
            var w' := Append(w, id, buf);
            if buf == [] then
              r' == Reader(r.ctl.(phase := StreamData, streamId := id, streamLen := 0), []) && w' == w
            else if cnt == 1 then r'.buf == [] && r'.ctl.phase == SegHeader && r'.ctl.written == w'
            else AtEntry(r', cnt - 1, w')
  {
    var h := [id] + Le32(|buf|);
    FeedConcat(Sgo, r, h, buf);
    EntryHeaderRead(r, cnt, w, id, buf);
    var r1 := Feed(Sgo, r, h);
    if buf != [] {
      FeedBulk(Sgo, r1, buf);
      assert [] + buf == buf;
    } else {
      assert w[id] + buf == w[id];
    }
  }

  lemma SlotRead(r: Reader<Ctl>, cnt: nat, w: Buffers, bufs: Buffers, i: nat)
    requires i < ALL_IN && Encodable(bufs)
    requires AtEntry(r, cnt, Merge(w, bufs, i)) && (bufs[i] != [] ==> cnt >= 2)
    ensures AtEntry(Feed(Sgo, r, Slot(bufs, i)), if bufs[i] != [] then cnt - 1 else cnt, Merge(w, bufs, i + 1))
  {
    var w1 := Merge(w, bufs, i);
    if bufs[i] != [] {
      EntryRead(r, cnt, w1, i, bufs[i]);
      assert Append(w1, i, bufs[i]) == Merge(w, bufs, i + 1);
    } else {
      assert w[i] + bufs[i] == w[i];
      assert Merge(w, bufs, i + 1) == w1;
    }
  }

  /** How many entries are still to come after those of the slots below n, the all-in one included. */
  function EntriesLeft(bufs: Buffers, n: nat): int
    requires n <= ALL_IN
  {
    Viewers(bufs) + 1 - Count(Present(bufs)[..n])
  }

  lemma LeftStep(bufs: Buffers, i: nat)
    requires i < ALL_IN
    ensures EntriesLeft(bufs, i + 1) == EntriesLeft(bufs, i) - (if bufs[i] != [] then 1 else 0) >= 1
  {
    PresentSnoc(bufs, i);
    CountPrefix(Present(bufs), i + 1);
  }

  /** The per-viewer entries, which are never empty, bring the parser from header to header. */
  lemma {:induction false} EntriesRead(r: Reader<Ctl>, w: Buffers, bufs: Buffers, n: nat)
    requires n <= ALL_IN && Encodable(bufs)
    requires AtEntry(r, Viewers(bufs) + 1, w)
    ensures EntriesLeft(bufs, n) >= 1
    ensures AtEntry(Feed(Sgo, r, Entries(bufs, n)), EntriesLeft(bufs, n), Merge(w, bufs, n))
  {
    if n == 0 {
      assert Merge(w, bufs, 0) == w;
    } else {
      EntriesRead(r, w, bufs, n - 1);
      LeftStep(bufs, n - 1);
      FeedConcat(Sgo, r, Entries(bufs, n - 1), Slot(bufs, n - 1));
      SlotRead(Feed(Sgo, r, Entries(bufs, n - 1)), EntriesLeft(bufs, n - 1), w, bufs, n - 1);
    }
  }

  lemma {:induction false} CountPrefix(p: seq<bool>, n: nat)
    requires n <= |p| && |p| == 33 && n <= 32
    ensures Count(p[..n]) <= Count(p[..32])
    decreases 32 - n
  {
    if n < 32 {
      CountPrefix(p, n + 1);
      assert p[..n + 1] == p[..n] + [p[n]];
      MaskSnoc(p[..n], p[n]);
    }
  }

  lemma MagicRead(r: Reader<Ctl>, w: Buffers, more: seq<byte>)
    requires AtBoundary(r, w)
    ensures exists c ::
              Feed(Sgo, r, SGO + more) == Feed(Sgo, Reader(c, []), more) && c.phase == MaskWord && c.written == w
  {
    SgoProgress();
    var r0 := Settle(Sgo, r);
    assert w[ALL_IN] + [] == w[ALL_IN];
    assert Append(w, ALL_IN, []) == w;
    assert r0.ctl.phase == SegHeader && r0.buf == [] && r0.ctl.written == w;
    FeedSettled(Sgo, r, SGO + more);
    FeedConcat(Sgo, r0, SGO, more);
    FeedBulk(Sgo, r0, SGO);
    assert [] + SGO == SGO;
    assert Feed(Sgo, r0, SGO) == Reader(r0.ctl.(phase := MaskWord), []);
  }

  lemma MaskRead(c: Ctl, m: seq<byte>)
    requires c.phase == MaskWord && |m| == 4
    ensures var r := Feed(Sgo, Reader(c, []), m);
            if Bits(FromLe32(m)) <= 30 then AtEntry(r, Bits(FromLe32(m)) + 1, c.written)
            else r.buf == [] && r.ctl.phase == Aborted
  {
    FeedBulk(Sgo, Reader(c, []), m);
    assert [] + m == m;
  }

  lemma MaskCount(bufs: Buffers)
    ensures Bits(FromLe32(Le32(StreamMask(bufs)))) == Viewers(bufs)
  {
    Le32RoundTrip(StreamMask(bufs));
    BitsOfMask(Present(bufs)[..32]);
  }

  /** Magic and mask: the parser then expects one entry per mask bit and one more. */
  lemma HeaderRead(r: Reader<Ctl>, w: Buffers, bufs: Buffers)
    requires AtBoundary(r, w)
    ensures var r' := Feed(Sgo, r, SGO + Le32(StreamMask(bufs)));
            if Viewers(bufs) <= 30 then AtEntry(r', Viewers(bufs) + 1, w) else r'.buf == [] && r'.ctl.phase == Aborted
  {
    var m := Le32(StreamMask(bufs));
    MagicRead(r, w, m);
    var c :| Feed(Sgo, r, SGO + m) == Feed(Sgo, Reader(c, []), m) && c.phase == MaskWord && c.written == w;
    MaskRead(c, m);
    MaskCount(bufs);
  }

  /** One frame with at most 30 viewers is delivered whole; with more, the parser's assert fails. */
  lemma FrameRead(r: Reader<Ctl>, w: Buffers, bufs: Buffers)
    requires AtBoundary(r, w) && Encodable(bufs)
    ensures var r' := Feed(Sgo, r, Serialize(bufs));
            if Viewers(bufs) <= 30 then AtBoundary(r', Merge(w, bufs, SLOTS)) else r'.ctl.phase == Aborted
  {
    var head := SGO + Le32(StreamMask(bufs));
    var es := Entries(bufs, |bufs|);
    FeedConcat(Sgo, r, head, es);
    HeaderRead(r, w, bufs);
    var r1 := Feed(Sgo, r, head);
    if Viewers(bufs) <= 30 {
      EntriesRead(r1, w, bufs, ALL_IN);
      var w1 := Merge(w, bufs, ALL_IN);
      var r2 := Feed(Sgo, r1, Entries(bufs, ALL_IN));
      var last := Entry(ALL_IN, bufs[ALL_IN]);
      assert es == Entries(bufs, ALL_IN) + last;
      FeedConcat(Sgo, r1, Entries(bufs, ALL_IN), last);
      EntryRead(r2, 1, w1, ALL_IN, bufs[ALL_IN]);
      assert Append(w1, ALL_IN, bufs[ALL_IN]) == Merge(w, bufs, SLOTS);
    } else {
      FeedAbsorbed(Sgo, r1.ctl, es);
    }
  }

  ghost predicate Deliverable(frames: seq<Buffers>) {
    forall k :: 0 <= k < |frames| ==> Encodable(frames[k]) && Viewers(frames[k]) <= 30
  }

  lemma {:induction false} FramesRead(r: Reader<Ctl>, w: Buffers, frames: seq<Buffers>)
    requires AtBoundary(r, w)
    requires Deliverable(frames)
    ensures var r' := Feed(Sgo, r, Emitted(frames));
            AtBoundary(r', r'.ctl.written) &&
            forall i :: 0 <= i < SLOTS ==> r'.ctl.written[i] == w[i] + Collected(frames, i)
    decreases |frames|
  {
    if frames == [] {
      assert forall i :: 0 <= i < SLOTS ==> w[i] + [] == w[i];
    } else {
      var bufs, rest := frames[0], frames[1..];
      var first := if OneFrame(bufs).Some? then OneFrame(bufs).value else [];
      FeedConcat(Sgo, r, first, Emitted(rest));
      var w1 := Merge(w, bufs, SLOTS);
      FrameRead(r, w, bufs);
      if first == [] {
        assert OneFrame(bufs).None?;
        assert forall i :: 0 <= i < SLOTS ==> bufs[i] == [];
        assert forall i :: 0 <= i < SLOTS ==> w[i] + bufs[i] == w[i];
        assert w1 == w;
      }
      FramesRead(Feed(Sgo, r, first), w1, rest);
      forall i | 0 <= i < SLOTS
        ensures w[i] + Collected(frames, i) == w1[i] + Collected(rest, i)
      {
        ConcatAssoc(w[i], bufs[i], Collected(rest, i));
      }
    }
  }

  /** Writer i has exactly what slot i was given, and nothing went wrong. */
  ghost predicate Delivered(r: Reader<Ctl>, frames: seq<Buffers>) {
    r.ctl.phase != Aborted && forall i :: 0 <= i < SLOTS ==> r.ctl.written[i] == Collected(frames, i)
  }

  /** However the multiplexed bytes are cut into reads, writer i receives exactly what slot i was given. */
  lemma RoundTrip(frames: seq<Buffers>, chunks: seq<seq<byte>>)
    requires Deliverable(frames) && Flatten(chunks) == Emitted(frames)
    ensures Delivered(FeedAll(Sgo, START, chunks), frames)
  {
    ChunkingIndependence(Sgo, START, chunks);
    FramesRead(START, NO_BUFFERS, frames);
    forall i | 0 <= i < SLOTS
      ensures NO_BUFFERS[i] + Collected(frames, i) == Collected(frames, i)
    {
    }
  }
}
