/** Byte strings, fixed-width integers in both byte orders, and concatenation. */
module Bytes {
  type byte = x: int | 0 <= x < 256

  datatype Option<+T> = None | Some(value: T) {
    function GetOr(default: T): T {
      match this
      case Some(v) => v
      case None => default
    }
  }

  const U32: nat := 0x1_0000_0000

  /** The low 32 bits of n as memcpy stores them on the little-endian hosts this server runs on. */
  function Le32(n: nat): (s: seq<byte>)
    ensures |s| == 4
  {
    [n % 0x100, n / 0x100 % 0x100, n / 0x100 / 0x100 % 0x100, n / 0x100 / 0x100 / 0x100 % 0x100]
  }

  function FromLe32(s: seq<byte>): (n: nat)
    requires |s| == 4
    ensures n < U32
  {
    var a: int, b: int, c: int, d: int := s[0], s[1], s[2], s[3];
    a + 0x100 * b + 0x1_0000 * c + 0x100_0000 * d
  }

  lemma Le32RoundTrip(n: nat)
    requires n < U32
    ensures FromLe32(Le32(n)) == n
  {
  }

  /** The low 24 bits of n, most significant byte first. */
  function Be24(n: nat): (s: seq<byte>)
    ensures |s| == 3
  {
    [n / 0x100 / 0x100 % 0x100, n / 0x100 % 0x100, n % 0x100]
  }

  function FromBe24(s: seq<byte>): (n: nat)
    requires |s| == 3
    ensures n < 0x100_0000
  {
    var a: int, b: int, c: int := s[0], s[1], s[2];
    0x1_0000 * a + 0x100 * b + c
  }

  lemma Be24RoundTrip(n: nat)
    requires n < 0x100_0000
    ensures FromBe24(Be24(n)) == n
  {
  }

  /** The low 32 bits of n, most significant byte first. */
  function Be32(n: nat): (s: seq<byte>)
    ensures |s| == 4
  {
    [n / 0x100 / 0x100 / 0x100 % 0x100] + Be24(n)
  }

  function FromBe32(s: seq<byte>): (n: nat)
    requires |s| == 4
    ensures n < U32
  {
    var a: int := s[0];
    0x100_0000 * a + FromBe24(s[1..])
  }

  lemma Be32RoundTrip(n: nat)
    requires n < U32
    ensures FromBe32(Be32(n)) == n
  {
    assert Be32(n)[1..] == Be24(n);
  }

  /** The low 16 bits of n, most significant byte first. */
  function Be16(n: nat): (s: seq<byte>)
    ensures |s| == 2
  {
    [n / 0x100 % 0x100, n % 0x100]
  }

  lemma ConcatAssoc<T>(a: seq<T>, b: seq<T>, c: seq<T>)
    ensures (a + b) + c == a + (b + c)
  {
  }

  function Flatten<T>(ss: seq<seq<T>>): seq<T> {
    if ss == [] then [] else ss[0] + Flatten(ss[1..])
  }

  lemma {:induction false} FlattenConcat<T>(a: seq<seq<T>>, b: seq<seq<T>>)
    ensures Flatten(a + b) == Flatten(a) + Flatten(b)
  {
    if a == [] {
      assert a + b == b;
    } else {
      assert (a + b)[1..] == a[1..] + b;
      FlattenConcat(a[1..], b);
    }
  }

  lemma FlattenSnoc<T>(a: seq<seq<T>>, x: seq<T>)
    ensures Flatten(a + [x]) == Flatten(a) + x
  {
    FlattenConcat(a, [x]);
    assert Flatten([x]) == x + Flatten([]);
  }

  /** memcpy(dst + off, src, |src|). */
  method Memcpy(dst: array<byte>, off: nat, src: seq<byte>)
    requires off + |src| <= dst.Length
    modifies dst
    ensures forall j :: 0 <= j < dst.Length ==>
              dst[j] == if off <= j < off + |src| then src[j - off] else old(dst[j])
  {
    for k := 0 to |src|
      invariant forall j :: 0 <= j < dst.Length ==>
                  dst[j] == if off <= j < off + k then src[j - off] else old(dst[j])
    {
      dst[off + k] := src[k];
    }
  }
}
