/** Bits of a byte, and byte strings patched in place, as the lottery bitmap and the config lines use them. */
module Bits {
  import opened Prelude

  /** Bit k of b, counting from the right. */
  function Bit(b: nat, k: nat): (r: nat)
    ensures r <= 1
  {
    if k == 0 then b % 2 else Bit(b / 2, k - 1)
  }

  function Pow2(k: nat): (p: nat)
    ensures p > 0
  {
    if k == 0 then 1 else 2 * Pow2(k - 1)
  }

  /** `b & 2^k`: the mask keeps bit k alone. */
  function Masked(b: byte, k: nat): nat {
    Bit(b, k) * Pow2(k)
  }

  lemma MaskedCompare(a: byte, b: byte, k: nat)
    ensures Masked(a, k) > Masked(b, k) <==> Bit(a, k) > Bit(b, k)
    ensures Masked(a, k) == 0 <==> Bit(a, k) == 0
  {
  }

  /** `b | 2^k` */
  function SetBit(b: nat, k: nat): nat {
    if Bit(b, k) == 1 then b else b + Pow2(k)
  }

  lemma {:induction false} SetBitAt(b: nat, k: nat, i: nat)
    ensures Bit(SetBit(b, k), i) == if i == k then 1 else Bit(b, i)
  {
    if k > 0 && i > 0 {
      SetBitAt(b / 2, k - 1, i - 1);
    }
  }

  lemma {:induction false} SetBitInRange(b: nat, k: nat, n: nat)
    requires k < n && b < Pow2(n)
    ensures b <= SetBit(b, k) < Pow2(n)
  {
    assert Pow2(n) == 2 * Pow2(n - 1);
    if k > 0 {
      SetBitInRange(b / 2, k - 1, n - 1);
      SetBitHalves(b, k);
    }
  }

  lemma SetBitHalves(b: nat, k: nat)
    requires k > 0
    ensures SetBit(b, k) == 2 * SetBit(b / 2, k - 1) + b % 2
  {
  }

  /** A byte changes under `| 2^k` exactly when bit k was clear. */
  lemma SetBitByte(b: byte, k: nat)
    requires k < 8
    ensures SetBit(b, k) < 256
    ensures SetBit(b, k) == b <==> Bit(b, k) == 1
  {
    assert Pow2(8) == 256 by {
      assert Pow2(4) == 16;
    }
    SetBitInRange(b, k, 8);
  }

  lemma {:induction false} BitOfZero(k: nat)
    ensures Bit(0, k) == 0
  {
    if k > 0 {
      BitOfZero(k - 1);
    }
  }

  /** The number of set bits among the k lowest bits. */
  function PopLow(b: byte, k: nat): (n: nat)
    ensures n <= k
  {
    if k == 0 then 0 else PopLow(b, k - 1) + Bit(b, k - 1)
  }

  function PopByte(b: byte): nat {
    PopLow(b, 8)
  }

  function PopCount(bytes: seq<byte>): (n: nat)
    ensures n <= 8 * |bytes|
  {
    if |bytes| == 0 then 0 else PopCount(bytes[..|bytes| - 1]) + PopByte(bytes[|bytes| - 1])
  }

  lemma {:induction false} PopCountConcat(a: seq<byte>, b: seq<byte>)
    ensures PopCount(a + b) == PopCount(a) + PopCount(b)
  {
    if b == [] {
      assert a + b == a;
    } else {
      assert (a + b)[..|a + b| - 1] == a + b[..|b| - 1];
      PopCountConcat(a, b[..|b| - 1]);
    }
  }

  /** Bit i of a byte string: byte i / 8, and within it position 7 - i % 8 from the right. */
  predicate BitAt(bytes: seq<byte>, i: nat)
    requires i < 8 * |bytes|
  {
    Bit(bytes[i / 8], 7 - i % 8) == 1
  }

  /** The positions below n that are set. */
  ghost function SetBits(bytes: seq<byte>, n: nat): set<nat>
    requires n <= 8 * |bytes|
  {
    set i: nat | i < n && BitAt(bytes, i)
  }

  lemma SetBitsNext(bytes: seq<byte>, n: nat)
    requires n < 8 * |bytes|
    ensures |SetBits(bytes, n + 1)| == |SetBits(bytes, n)| + (if BitAt(bytes, n) then 1 else 0)
  {
    var before, after := SetBits(bytes, n), SetBits(bytes, n + 1);
    assert n !in before;
    assert after == before + (if BitAt(bytes, n) then {n} else {});
  }

  /** Reading a byte from the left counts the same bits as reading it from the right. */
  lemma {:induction false} SetBitsInByte(bytes: seq<byte>, j: nat, r: nat)
    requires j < |bytes| && r <= 8
    ensures |SetBits(bytes, 8 * j + r)| + PopLow(bytes[j], 8 - r) == |SetBits(bytes, 8 * j)| + PopByte(bytes[j])
  {
    if r > 0 {
      SetBitsInByte(bytes, j, r - 1);
      var n := 8 * j + r - 1;
      SetBitsNext(bytes, n);
      assert n / 8 == j && n % 8 == r - 1;
    }
  }

  /** The population count is the number of set positions. */
  lemma {:induction false} PopCountIsSetBits(bytes: seq<byte>)
    ensures PopCount(bytes) == |SetBits(bytes, 8 * |bytes|)|
  {
    if bytes != [] {
      var j := |bytes| - 1;
      var init := bytes[..j];
      PopCountIsSetBits(init);
      assert SetBits(init, 8 * j) == SetBits(bytes, 8 * j);
      SetBitsInByte(bytes, j, 8);
    }
  }

  // ---------------------------------------------------------------------------
  // Byte strings

  function Zeros(n: nat): (z: seq<byte>)
    ensures |z| == n && forall i :: 0 <= i < n ==> z[i] == 0
  {
    seq(n, _ => 0)
  }

  /** The bytes with a window of them replaced. */
  function Overwrite(bytes: seq<byte>, at: nat, strip: seq<byte>): (r: seq<byte>)
    requires at + |strip| <= |bytes|
    ensures |r| == |bytes|
    ensures forall p :: 0 <= p < |bytes| && !(at <= p < at + |strip|) ==> r[p] == bytes[p]
  {
    bytes[..at] + strip + bytes[at + |strip|..]
  }
}
