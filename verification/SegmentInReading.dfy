/**
 FLVSegmentParser::readData: the SGI byte stream carries segments of up to 32 publishers'
 FLV streams; each stream's bytes go to its own FLV parser. `Sgi` is the protocol, the
 class runs the source's loop over it.
 */
module SegmentInReading {
  import opened Bytes
  import opened BitMask
  import opened Chunked
  import opened FlvReading

  const SGI: seq<byte> := [0x53, 0x47, 0x49, 0]

  datatype Phase = SegHeader | MaskWord | StreamHeader | StreamData | Aborted

  /** What the rest of the server sees, in order. */
  datatype Event = Masked(mask: nat) | Sourced(id: nat, source: nat) | TagParsed(id: nat, tag: RawTag) | AssertFailed

  /**
   `fed[i]` is everything handed to parser i, `log` everything handed on to the rest of
   the server, `source[i]` the three source bits last seen for stream i.
   */
  datatype Ctl = Ctl(phase: Phase, streamId: nat, streamLen: nat, streamCnt: nat, source: seq<nat>,
                     flv: seq<Reader<TagCtl>>, fed: seq<seq<byte>>, log: seq<Event>)

  const START: Reader<Ctl> :=
    Reader(Ctl(SegHeader, 0, 0, 0, seq(32, _ => 0), seq(32, _ => NO_TAGS), seq(32, _ => []), []), [])

  function Need(c: Ctl): nat {
    match c.phase
    case SegHeader => 4
    case MaskWord => 4
    case StreamHeader => 6
    case StreamData => c.streamLen
    case Aborted => 1
  }

  function TagEvents(id: nat, tags: seq<RawTag>): (es: seq<Event>)
    ensures |es| == |tags|
  {
    seq(|tags|, k requires 0 <= k < |tags| => TagParsed(id, tags[k]))
  }

  /** Hands a stream's share of a segment to its parser. */
  function Deliver(c: Ctl, payload: seq<byte>): Ctl {
    if c.streamId < |c.flv| && c.streamId < |c.fed| then
      var i := c.streamId;
      var before := c.flv[i];
      var after := Feed(Flv, before, payload);
      c.(flv := c.flv[i := after], fed := c.fed[i := c.fed[i] + payload],
         log := c.log + TagEvents(i, NewTags(before, after)))
    else c
  }

  function NewTags(before: Reader<TagCtl>, after: Reader<TagCtl>): seq<RawTag> {
    if |before.ctl.parsed| <= |after.ctl.parsed| then after.ctl.parsed[|before.ctl.parsed|..] else []
  }

  function Fail(c: Ctl): Ctl {
    c.(phase := Aborted, log := c.log + [AssertFailed])
  }

  function Finish(c: Ctl, buf: seq<byte>): Ctl {
    if |buf| != Need(c) then c
    else match c.phase
      case SegHeader => if buf == SGI then c.(phase := MaskWord) else Fail(c)
      case MaskWord =>
        var mask := FromLe32(buf);
        if Bits(mask) < 32 then c.(phase := StreamHeader, streamCnt := Bits(mask), log := c.log + [Masked(mask)])
        else Fail(c)
      case StreamHeader =>
        var id, source := buf[0] / 8, buf[0] % 8;
        if source < 3 && buf[1] == 0 then
          c.(phase := StreamData, streamId := id, streamLen := FromLe32(buf[2..]),
             source := if id < |c.source| then c.source[id := source] else c.source,
             log := c.log + [Sourced(id, source)])
        else Fail(c)
      case StreamData =>
        var cnt := if c.streamCnt > 0 then c.streamCnt - 1 else U32 - 1;
        Deliver(c, buf).(phase := if cnt != 0 then StreamHeader else SegHeader, streamCnt := cnt)
      case Aborted => c
  }

  const Sgi: Protocol<Ctl> := Protocol(Need, Finish)

  lemma SgiProgress()
    ensures Progress(Sgi)
  {
  }

  lemma AbortedStays(r: Reader<Ctl>, d: seq<byte>)
    requires r.ctl.phase == Aborted && r.buf == []
    ensures Feed(Sgi, r, d) == r
  {
    FeedAbsorbed(Sgi, r.ctl, d);
  }

  class SegmentDemux {
    const parser: seq<FlvParser>
    var parsingState: Phase
    var curBuf: seq<byte>
    var curStreamId: nat
    var curStreamLen: nat
    var curStreamCnt: nat
    var numStreams: nat
    var streamSource: seq<nat>
    ghost var fed: seq<seq<byte>>
    var log: seq<Event>   // the calls made on the rest of the server, in order

    ghost function Flvs(): seq<Reader<TagCtl>>
      reads parser
    {
      seq(|parser|, i requires 0 <= i < |parser| reads parser => parser[i].State())
    }

    ghost function State(): Reader<Ctl>
      reads this, parser
    {
      Reader(Ctl(parsingState, curStreamId, curStreamLen, curStreamCnt, streamSource, Flvs(), fed, log), curBuf)
    }

    /** The part of Valid that does not speak of the buffer. */
    ghost predicate Shape()
      reads this, parser
    {
      |parser| == |fed| == |streamSource| == STREAMS &&
      (forall i, j :: 0 <= i < j < STREAMS ==> parser[i] != parser[j]) &&
      (forall i :: 0 <= i < STREAMS ==> parser[i].Valid()) &&
      curStreamId < STREAMS
    }

    ghost predicate Valid()
      reads this, parser
    {
      Shape() && (|curBuf| < Need(State().ctl) || curBuf == [])
    }

    constructor ()
      ensures Valid() && fresh(parser) && State() == START
    {
      var ps: seq<FlvParser> := [];
      for i := 0 to STREAMS
        invariant |ps| == i && fresh(ps)
        invariant forall j, k :: 0 <= j < k < i ==> ps[j] != ps[k]
        invariant forall j :: 0 <= j < i ==> ps[j].Valid() && ps[j].State() == NO_TAGS
      {
        var p := new FlvParser();
        ps := ps + [p];
      }
      parser := ps;
      parsingState, curBuf := SegHeader, [];
      curStreamId, curStreamLen, curStreamCnt, numStreams := 0, 0, 0, 0;
      streamSource := seq(32, _ => 0);
      fed, log := seq(32, _ => []), [];
      new;
      assert Flvs() == seq(32, _ => NO_TAGS);
    }

    method ReadData(data: seq<byte>)
      requires Valid()
      modifies this, parser
      ensures Valid() && State() == Feed(Sgi, old(State()), data)
    {
      ghost var goal := Feed(Sgi, State(), data);
      var pos := 0;
      assert data[0..] == data;
      while pos < |data| && parsingState != Aborted
        invariant pos <= |data| && Valid()
        invariant Feed(Sgi, State(), data[pos..]) == goal
        decreases |data| - pos, if |curBuf| < CurNeed() then 0 else 1
      {
        var rest := data[pos..];
        var n := Turn(rest);
        assert data[pos + n..] == rest[n..];
        pos := pos + n;
      }
      if parsingState == Aborted {
        AbortedStays(State(), data[pos..]);
      } else {
        assert data[pos..] == [];
      }
    }

    /** One turn of the loop: bytes are copied, or a zero-length step is taken. */
    method Turn(rest: seq<byte>) returns (n: nat)
      requires Valid() && parsingState != Aborted && rest != []
      modifies this, parser
      ensures Valid() && n <= |rest| && Feed(Sgi, State(), rest[n..]) == Feed(Sgi, old(State()), rest)
      ensures n > 0 || (old(|curBuf| >= CurNeed()) && |curBuf| < CurNeed())
    {
      ghost var r := State();
      SgiProgress();
      PassSound(Sgi, r, rest);
      n := CopyIn(rest);
      if |curBuf| >= CurNeed() {
        Act();
      }
      assert State() == Pass(Sgi, r, rest);
    }

    function CurNeed(): (n: nat)
      reads this, parser
      ensures n == Need(State().ctl)
    {
      match parsingState
      case SegHeader => 4
      case MaskWord => 4
      case StreamHeader => 6
      case StreamData => curStreamLen
      case Aborted => 1
    }

    method CopyIn(rest: seq<byte>) returns (cpLen: nat)
      modifies `curBuf
      ensures cpLen == Copied(Sgi, old(State()), rest)
      ensures State() == Reader(old(State().ctl), old(curBuf) + rest[..cpLen])
    {
      cpLen := 0;
      if |curBuf| < CurNeed() {
        cpLen := if |rest| < CurNeed() - |curBuf| then |rest| else CurNeed() - |curBuf|;
        curBuf := curBuf + rest[..cpLen];
      } else {
        assert curBuf + rest[..0] == curBuf;
      }
    }

    /** What the switch does once the buffer is full. */
    method Act()
      requires Shape() && parsingState != Aborted && |curBuf| == CurNeed()
      modifies this, parser
      ensures State() == Reader(Finish(old(State().ctl), old(curBuf)), [])
      ensures Shape()
    {
      if parsingState == SegHeader {
        ActOnHeader();
      } else if parsingState == MaskWord {
        ActOnMask();
      } else if parsingState == StreamHeader {
        ActOnStreamHeader();
      } else {
        ActOnData();
      }
      curBuf := [];
    }

    method ActOnHeader()
      requires Shape() && parsingState == SegHeader && |curBuf| == 4
      modifies `parsingState, `log
      ensures State() == Reader(Finish(old(State().ctl), curBuf), curBuf)
      ensures Shape()
    {
      var magic := curBuf[0] == 'S' as int && curBuf[1] == 'G' as int && curBuf[2] == 'I' as int && curBuf[3] == 0;
      assert magic <==> curBuf == SGI;
      if magic {
        parsingState := MaskWord;
      } else {
        FailAssert();
      }
    }

    method ActOnData()
      requires Shape() && parsingState == StreamData && |curBuf| == curStreamLen
      modifies parser, `parsingState, `curStreamCnt, `fed, `log
      ensures State() == Reader(Finish(old(State().ctl), curBuf), curBuf)
      ensures Shape()
    {
      Dispatch();
      curStreamCnt := if curStreamCnt > 0 then curStreamCnt - 1 else U32 - 1;
      parsingState := if curStreamCnt != 0 then StreamHeader else SegHeader;
    }

    method ActOnMask()
      requires Shape() && parsingState == MaskWord && |curBuf| == 4
      modifies `parsingState, `numStreams, `curStreamCnt, `log
      ensures State() == Reader(Finish(old(State().ctl), curBuf), curBuf)
      ensures Shape()
    {
      var streamMask := FromLe32(curBuf);
      numStreams := CountBits(streamMask);
      if numStreams < 32 {
        curStreamCnt := numStreams;
        log := log + [Masked(streamMask)];
        parsingState := StreamHeader;
      } else {
        FailAssert();
      }
    }

    method ActOnStreamHeader()
      requires Shape() && parsingState == StreamHeader && |curBuf| == 6
      modifies `parsingState, `curStreamId, `curStreamLen, `streamSource, `log
      ensures State() == Reader(Finish(old(State().ctl), curBuf), curBuf)
      ensures Shape()
    {
      if curBuf[0] % 8 < 3 && curBuf[1] == 0 {
        curStreamId := curBuf[0] / 8;
        streamSource := streamSource[curStreamId := curBuf[0] % 8];
        curStreamLen := FromLe32(curBuf[2..]);
        log := log + [Sourced(curStreamId, curBuf[0] % 8)];
        parsingState := StreamData;
      } else {
        FailAssert();
      }
    }

    /** A failed assert ends the process. */
    method FailAssert()
      modifies `parsingState, `log
      ensures State() == Reader(Fail(old(State().ctl)), curBuf)
    {
      parsingState := Aborted;
      log := log + [AssertFailed];
    }

    method Dispatch()
      requires Shape()
      modifies parser, `fed, `log
      ensures State() == Reader(Deliver(old(State().ctl), old(curBuf)), curBuf)
      ensures Shape()
    {
      var i := curStreamId;
      var tags := [];
      if curBuf != [] {
        tags := parser[i].ReadData(curBuf);
      }
      fed := fed[i := fed[i] + curBuf];
      log := log + TagEvents(i, tags);
      assert Flvs() == old(Flvs())[i := Feed(Flv, old(Flvs()[i]), curBuf)];
      assert tags == NewTags(old(Flvs()[i]), Flvs()[i]);
    }
  }
}
