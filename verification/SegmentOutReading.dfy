/**
 SegOutputParser: takes the SGO byte stream apart again, one writer per slot.
 `Sgo` is its protocol; the class runs the source's copying loop over it.
 */
module SegmentOutReading {
  import opened Bytes
  import opened BitMask
  import opened Chunked
  import opened SegmentWriting

  datatype Phase = SegHeader | MaskWord | StreamHeader | StreamData | Aborted

  /** `written[i]` is what writer i has appended to its file. `Aborted` stands for a failed assert. */
  datatype Ctl = Ctl(phase: Phase, streamId: nat, streamLen: nat, streamCnt: nat, written: Buffers)

  const START: Reader<Ctl> := Reader(Ctl(SegHeader, 0, 0, 0, NO_BUFFERS), [])

  function Need(c: Ctl): nat {
    match c.phase
    case SegHeader => 3
    case MaskWord => 4
    case StreamHeader => 5
    case StreamData => c.streamLen
    case Aborted => 1
  }

  function Append(w: Buffers, id: nat, buf: seq<byte>): (w': Buffers)
    requires id < SLOTS
  {
    w[id := w[id] + buf]
  }

  function Finish(c: Ctl, buf: seq<byte>): Ctl {
    if |buf| != Need(c) then c
    else match c.phase
      case SegHeader => c.(phase := if buf == SGO then MaskWord else Aborted)
      case MaskWord =>
        var numStreams := Bits(FromLe32(buf)) + 1;
        if numStreams < 32 then c.(phase := StreamHeader, streamCnt := numStreams) else c.(phase := Aborted)
      case StreamHeader =>
        if buf[0] <= ALL_IN then c.(phase := StreamData, streamId := buf[0], streamLen := FromLe32(buf[1..]))
        else c.(phase := Aborted)
      case StreamData =>
        var cnt := if c.streamCnt > 0 then c.streamCnt - 1 else U32 - 1;
        c.(phase := if cnt != 0 then StreamHeader else SegHeader, streamCnt := cnt,
           written := if c.streamId < SLOTS then Append(c.written, c.streamId, buf) else c.written)
      case Aborted => c
  }

  const Sgo: Protocol<Ctl> := Protocol(Need, Finish)

  lemma SgoProgress()
    ensures Progress(Sgo)
  {
  }

  lemma AbortedStays(r: Reader<Ctl>, d: seq<byte>)
    requires r.ctl.phase == Aborted && r.buf == []
    ensures Feed(Sgo, r, d) == r
  {
    FeedAbsorbed(Sgo, r.ctl, d);
  }

  class SegOutputParser {
    var parsingState: Phase
    var curBuf: seq<byte>
    var curStreamId: nat
    var curStreamLen: nat
    var curStreamCnt: nat
    var numStreams: nat
    var writer: Buffers

    ghost function State(): Reader<Ctl>
      reads this
    {
      Reader(Ctl(parsingState, curStreamId, curStreamLen, curStreamCnt, writer), curBuf)
    }

    ghost predicate Valid()
      reads this
    {
      curStreamId < SLOTS && (|curBuf| < Need(State().ctl) || curBuf == [])
    }

    constructor ()
      ensures Valid() && State() == START
    {
      parsingState, curBuf := SegHeader, [];
      curStreamId, curStreamLen, curStreamCnt, numStreams := 0, 0, 0, 0;
      writer := NO_BUFFERS;
    }

    method ReadData(data: seq<byte>)
      requires Valid()
      modifies this
      ensures Valid() && State() == Feed(Sgo, old(State()), data)
    {
      ghost var goal := Feed(Sgo, State(), data);
      var pos := 0;
      assert data[0..] == data;
      while pos < |data| && parsingState != Aborted
        invariant pos <= |data| && Valid()
        invariant Feed(Sgo, State(), data[pos..]) == goal
        decreases |data| - pos, if |curBuf| < CurNeed() then 0 else 1
      {
        var rest := data[pos..];
        var n := Turn(rest);
        assert data[pos + n..] == rest[n..];
        pos := pos + n;
      }
      if parsingState == Aborted {
        AbortedStays(State(), data[pos..]);
      } else {
        assert data[pos..] == [];
      }
    }

    /** One turn of the loop. */
    method Turn(rest: seq<byte>) returns (n: nat)
      requires Valid() && parsingState != Aborted && rest != []
      modifies this
      ensures Valid() && n <= |rest| && Feed(Sgo, State(), rest[n..]) == Feed(Sgo, old(State()), rest)
      ensures n > 0 || (old(|curBuf| >= CurNeed()) && |curBuf| < CurNeed())
    {
      ghost var r := State();
      SgoProgress();
      PassSound(Sgo, r, rest);
      n := CopyIn(rest);
      if |curBuf| >= CurNeed() {
        Act();
      }
      assert State() == Pass(Sgo, r, rest);
    }

    /** The number compared with curBuf_.size() in each case of the switch. */
    function CurNeed(): (n: nat)
      reads this
      ensures n == Need(State().ctl)
    {
      match parsingState
      case SegHeader => 3
      case MaskWord => 4
      case StreamHeader => 5
      case StreamData => curStreamLen
      case Aborted => 1
    }

    /** Copies what the current state still lacks, or as much of it as there is. */
    method CopyIn(rest: seq<byte>) returns (cpLen: nat)
      modifies `curBuf
      ensures cpLen == Copied(Sgo, old(State()), rest)
      ensures State() == Reader(old(State().ctl), old(curBuf) + rest[..cpLen])
    {
      cpLen := 0;
      if |curBuf| < CurNeed() {
        cpLen := if |rest| < CurNeed() - |curBuf| then |rest| else CurNeed() - |curBuf|;
        curBuf := curBuf + rest[..cpLen];
      } else {
        assert curBuf + rest[..0] == curBuf;
      }
    }

    /** What the switch does once the buffer is full. */
    method Act()
      requires curStreamId < SLOTS && parsingState != Aborted && |curBuf| == Need(State().ctl)
      modifies this
      ensures State() == Reader(Finish(old(State().ctl), old(curBuf)), [])
      ensures curStreamId < SLOTS
    {
      if parsingState == SegHeader {
        var magic := curBuf[0] == 'S' as int && curBuf[1] == 'G' as int && curBuf[2] == 'O' as int;
        assert magic <==> curBuf == SGO;
        parsingState := if magic then MaskWord else Aborted;
      } else if parsingState == MaskWord {
        var streamMask := FromLe32(curBuf);
        var bits := CountBits(streamMask);
        numStreams := bits + 1;
        if numStreams < 32 {
          curStreamCnt := numStreams;
          parsingState := StreamHeader;
        } else {
          parsingState := Aborted;
        }
      } else if parsingState == StreamHeader {
        if curBuf[0] <= ALL_IN {
          curStreamId := curBuf[0];
          curStreamLen := FromLe32(curBuf[1..]);
          parsingState := StreamData;
        } else {
          parsingState := Aborted;
        }
      } else {
        if curStreamLen != 0 {
          writer := writer[curStreamId := writer[curStreamId] + curBuf];
        } else {
          assert Append(writer, curStreamId, curBuf)[curStreamId] == writer[curStreamId];
          assert Append(writer, curStreamId, curBuf) == writer;
        }
        curStreamCnt := if curStreamCnt > 0 then curStreamCnt - 1 else U32 - 1;
        parsingState := if curStreamCnt != 0 then StreamHeader else SegHeader;
      }
      curBuf := [];
    }
  }
}
