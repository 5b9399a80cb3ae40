/**
 The loop shape shared by all three incremental parsers of the server
 (FLVSegmentParser, FLVParser, SegOutputParser): gather bytes in a buffer until the
 current state has the number it needs, then act on the buffer and clear it.

 A protocol says how many bytes a control state needs and what acting on them does.
 `Feed` consumes one byte at a time and is the meaning of a parser; `Pass` is one
 turn of the source's `while( len )` loop, which copies as many bytes as it can.
 */
module Chunked {
  import opened Bytes

  datatype Protocol<!S> = Protocol(need: S -> nat, finish: (S, seq<byte>) -> S)

  datatype Reader<S> = Reader(ctl: S, buf: seq<byte>)

  /** Acts on the buffer if it holds what the state needs. */
  function Settle<S>(p: Protocol<S>, r: Reader<S>): Reader<S> {
    if |r.buf| < p.need(r.ctl) then r else Reader(p.finish(r.ctl, r.buf), [])
  }

  function FeedByte<S>(p: Protocol<S>, r: Reader<S>, b: byte): Reader<S> {
    var r0 := Settle(p, r);
    Settle(p, Reader(r0.ctl, r0.buf + [b]))
  }

  function Feed<S>(p: Protocol<S>, r: Reader<S>, data: seq<byte>): Reader<S>
    decreases |data|
  {
    if data == [] then r else Feed(p, FeedByte(p, r, data[0]), data[1..])
  }

  /** A run of reads, each with its own share of the bytes. */
  function FeedAll<S>(p: Protocol<S>, r: Reader<S>, chunks: seq<seq<byte>>): Reader<S>
    decreases |chunks|
  {
    if chunks == [] then r else FeedAll(p, Feed(p, r, chunks[0]), chunks[1..])
  }

  /** A state that needs nothing is followed by one that needs something. */
  ghost predicate Progress<S(!new)>(p: Protocol<S>) {
    forall c: S :: p.need(c) == 0 ==> p.need(p.finish(c, [])) > 0
  }

  lemma {:induction false} FeedConcat<S>(p: Protocol<S>, r: Reader<S>, a: seq<byte>, b: seq<byte>)
    ensures Feed(p, r, a + b) == Feed(p, Feed(p, r, a), b)
    decreases |a|
  {
    if a == [] {
      assert a + b == b;
    } else {
      assert (a + b)[1..] == a[1..] + b;
      FeedConcat(p, FeedByte(p, r, a[0]), a[1..], b);
    }
  }

  /** However the bytes are split into reads, the state is that of feeding them at once. */
  lemma {:induction false} ChunkingIndependence<S>(p: Protocol<S>, r: Reader<S>, chunks: seq<seq<byte>>)
    ensures FeedAll(p, r, chunks) == Feed(p, r, Flatten(chunks))
    decreases |chunks|
  {
    if chunks != [] {
      ChunkingIndependence(p, Feed(p, r, chunks[0]), chunks[1..]);
      FeedConcat(p, r, chunks[0], Flatten(chunks[1..]));
    }
  }

  /** Bytes that do not overshoot what the state needs can be copied in one go. */
  lemma {:induction false} FeedBulk<S>(p: Protocol<S>, r: Reader<S>, d: seq<byte>)
    requires d != [] && |r.buf| + |d| <= p.need(r.ctl)
    ensures Feed(p, r, d) == Settle(p, Reader(r.ctl, r.buf + d))
    decreases |d|
  {
    var r1 := FeedByte(p, r, d[0]);
    if |d| > 1 {
      assert r1 == Reader(r.ctl, r.buf + [d[0]]);
      FeedBulk(p, r1, d[1..]);
      assert r.buf + [d[0]] + d[1..] == r.buf + d;
    } else {
      assert d == [d[0]];
    }
  }

  /** A pending zero-length step is flushed by the next byte, whenever that comes. */
  lemma FeedSettled<S(!new)>(p: Protocol<S>, r: Reader<S>, d: seq<byte>)
    requires d != [] && Progress(p) && (|r.buf| < p.need(r.ctl) || r.buf == [])
    ensures Feed(p, r, d) == Feed(p, Settle(p, r), d)
  {
    assert Settle(p, Settle(p, r)) == Settle(p, r);
  }

  /** How many bytes one turn of the loop copies. */
  function Copied<S>(p: Protocol<S>, r: Reader<S>, rest: seq<byte>): (n: nat)
    ensures n <= |rest|
  {
    if |r.buf| < p.need(r.ctl) then
      if |rest| < p.need(r.ctl) - |r.buf| then |rest| else p.need(r.ctl) - |r.buf|
    else 0
  }

  /** One turn of the loop: copy, then act if the buffer is full. */
  function Pass<S>(p: Protocol<S>, r: Reader<S>, rest: seq<byte>): Reader<S> {
    Settle(p, Reader(r.ctl, r.buf + rest[..Copied(p, r, rest)]))
  }

  /** A turn of the copying loop means the same as feeding the bytes it copied. */
  lemma PassSound<S(!new)>(p: Protocol<S>, r: Reader<S>, rest: seq<byte>)
    requires rest != [] && Progress(p) && (|r.buf| < p.need(r.ctl) || r.buf == [])
    ensures var n := Copied(p, r, rest);
            Feed(p, r, rest) == Feed(p, Pass(p, r, rest), rest[n..])
    ensures var r' := Pass(p, r, rest); |r'.buf| < p.need(r'.ctl) || r'.buf == []
  {
    var n := Copied(p, r, rest);
    if n > 0 {
      assert rest == rest[..n] + rest[n..];
      FeedConcat(p, r, rest[..n], rest[n..]);
      FeedBulk(p, r, rest[..n]);
    } else {
      assert r.buf + rest[..0] == r.buf;
      assert rest[0..] == rest;
      FeedSettled(p, r, rest);
    }
  }

  /** What every action keeps, every run of bytes keeps. */
  lemma {:induction false} FeedInvariant<S(!new)>(p: Protocol<S>, inv: S -> bool, r: Reader<S>, d: seq<byte>)
    requires inv(r.ctl) && forall c: S, buf: seq<byte> :: inv(c) ==> inv(p.finish(c, buf))
    ensures inv(Feed(p, r, d).ctl)
    decreases |d|
  {
    if d != [] {
      FeedInvariant(p, inv, FeedByte(p, r, d[0]), d[1..]);
    }
  }

  /** A control state that asks for one byte and ignores it swallows everything. */
  lemma {:induction false} FeedAbsorbed<S>(p: Protocol<S>, c: S, d: seq<byte>)
    requires p.need(c) == 1 && forall b: byte :: p.finish(c, [b]) == c
    ensures Feed(p, Reader(c, []), d) == Reader(c, [])
    decreases |d|
  {
    if d != [] {
      assert [] + [d[0]] == [d[0]];
      FeedAbsorbed(p, c, d[1..]);
    }
  }
}
