/** Stream masks: one bit per stream, stream 0 in the lowest bit. */
module BitMask {
  /** MAX_XCODING_INSTANCES. */
  const STREAMS: nat := 32

  /** Bitwise and of two naturals. */
  function And(a: nat, b: nat): (r: nat)
    ensures r <= a && r <= b
  {
    if a == 0 || b == 0 then 0
    else 2 * And(a / 2, b / 2) + (if a % 2 == 1 && b % 2 == 1 then 1 else 0)
  }

  /** The number of bits set. */
  function Bits(n: nat): (c: nat)
    ensures c == 0 <==> n == 0
  {
    if n == 0 then 0 else n % 2 + Bits(n / 2)
  }

  lemma {:induction false} AndSelf(n: nat)
    ensures And(n, n) == n
  {
    if n > 0 {
      AndSelf(n / 2);
    }
  }

  /** n & (n - 1) is n without its lowest set bit. */
  lemma {:induction false} ClearLowest(n: nat)
    requires n > 0
    ensures Bits(And(n, n - 1)) == Bits(n) - 1
  {
    var m := n / 2;
    if n % 2 == 1 {
      assert (n - 1) / 2 == m;
      AndSelf(m);
      assert And(n, n - 1) == 2 * m;
    } else {
      assert (n - 1) / 2 == m - 1;
      ClearLowest(m);
      var r := And(m, m - 1);
      assert And(n, n - 1) == 2 * r;
      assert (2 * r) / 2 == r && (2 * r) % 2 == 0;
    }
  }

  /** Kernighan's count: one turn per set bit. */
  method CountBits(mask: nat) returns (c: nat)
    ensures c == Bits(mask)
  {
    var n := mask;
    c := 0;
    while n != 0
      invariant c + Bits(n) == Bits(mask)
      decreases Bits(n)
    {
      ClearLowest(n);
      n := And(n, n - 1);
      c := c + 1;
    }
  }

  function Pow2(k: nat): (r: nat)
    ensures r > 0
  {
    if k == 0 then 1 else 2 * Pow2(k - 1)
  }

  lemma Pow2Of32()
    ensures Pow2(32) == 0x1_0000_0000
  {
    assert Pow2(8) == 0x100;
    assert Pow2(16) == 0x100 * Pow2(8) by { assert Pow2(12) == 0x10 * Pow2(8); }
    assert Pow2(24) == 0x100 * Pow2(16) by { assert Pow2(20) == 0x10 * Pow2(16); }
    assert Pow2(28) == 0x10 * Pow2(24);
  }

  /** The mask with bit i set exactly where present[i]. */
  function MaskOf(present: seq<bool>): (m: nat)
    ensures m < Pow2(|present|)
  {
    if present == [] then 0 else (if present[0] then 1 else 0) + 2 * MaskOf(present[1..])
  }

  function Count(present: seq<bool>): (n: nat)
    ensures n <= |present|
  {
    if present == [] then 0 else (if present[0] then 1 else 0) + Count(present[1..])
  }

  lemma {:induction false} BitsOfMask(present: seq<bool>)
    ensures Bits(MaskOf(present)) == Count(present)
  {
    if present != [] {
      BitsOfMask(present[1..]);
      var m := MaskOf(present[1..]);
      var b := if present[0] then 1 else 0;
      assert (b + 2 * m) / 2 == m && (b + 2 * m) % 2 == b;
    }
  }

  /** Setting the next higher bit appends to what the mask describes. */
  lemma {:induction false} MaskSnoc(present: seq<bool>, b: bool)
    ensures MaskOf(present + [b]) == MaskOf(present) + (if b then Pow2(|present|) else 0)
    ensures Count(present + [b]) == Count(present) + (if b then 1 else 0)
  {
    if present == [] {
      assert present + [b] == [b];
      assert MaskOf([b]) == (if b then 1 else 0) + 2 * MaskOf([b][1..]);
      assert Count([b]) == (if b then 1 else 0) + Count([b][1..]);
    } else {
      assert (present + [b])[1..] == present[1..] + [b];
      MaskSnoc(present[1..], b);
    }
  }

  /** Bit i of a mask, and the mask shifted right by i. */
  function Shift(mask: nat, i: nat): nat {
    if i == 0 then mask else Shift(mask, i - 1) / 2
  }

  predicate Bit(mask: nat, i: nat) {
    Shift(mask, i) % 2 == 1
  }

  /** Reading a mask bit by bit gives back what it was built from. */
  lemma {:induction false} BitOfMask(present: seq<bool>, i: nat)
    requires i <= |present|
    ensures Shift(MaskOf(present), i) == MaskOf(present[i..])
    ensures i < |present| ==> Bit(MaskOf(present), i) == present[i]
  {
    if i == 0 {
      assert present[0..] == present;
    } else {
      BitOfMask(present, i - 1);
      assert present[i - 1..][1..] == present[i..];
    }
    if i < |present| {
      assert present[i..][0] == present[i];
    }
  }
}
