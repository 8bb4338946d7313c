/** The Borsh encodings the accounts use: little-endian integers, one-byte tags, a u32 count before a vector. */
module Borsh {
  import opened Prelude
  import opened Division

  function Pow256(n: nat): (p: nat)
    ensures p > 0
  {
    if n == 0 then 1 else 256 * Pow256(n - 1)
  }

  function LittleEndian(x: nat, width: nat): (b: seq<byte>)
    ensures |b| == width
  {
    if width == 0 then [] else [x % 256] + LittleEndian(x / 256, width - 1)
  }

  function FromLittleEndian(b: seq<byte>): nat {
    if b == [] then 0 else b[0] + 256 * FromLittleEndian(b[1..])
  }

  lemma {:induction false} LittleEndianRoundTrip(x: nat, width: nat)
    requires x < Pow256(width)
    ensures FromLittleEndian(LittleEndian(x, width)) == x
  {
    if width > 0 {
      LittleEndianRoundTrip(x / 256, width - 1);
      assert LittleEndian(x, width)[1..] == LittleEndian(x / 256, width - 1);
    }
  }

  lemma Pow256Values()
    ensures Pow256(4) == U32_MAX + 1 && Pow256(8) == U64_MAX + 1
  {
    assert Pow256(2) == 0x1_0000;
    assert Pow256(4) == 0x1_0000_0000;
    assert Pow256(6) == 0x1_0000_0000_0000;
  }

  /** The byte at i counts the 256 to the i. */
  lemma {:induction false} LittleEndianAt(x: nat, width: nat, i: nat)
    requires i < width
    ensures LittleEndian(x, width)[i] == x / Pow256(i) % 256
  {
    if i > 0 {
      LittleEndianAt(x / 256, width - 1, i - 1);
      DivideTwice(x, Pow256(i - 1));
    }
  }

  lemma DivideTwice(x: nat, p: nat)
    requires p > 0
    ensures x / 256 / p == x / (256 * p)
  {
    var q := x / 256 / p;
    assert 256 * (p * q) <= x < 256 * (p * q + p) by {
      assert p * q <= x / 256 < p * q + p;
    }
    assert (256 * p) * q == 256 * (p * q);
    DivUnique(x, 256 * p, q);
  }

  lemma U32RoundTrip(x: u32)
    ensures FromLittleEndian(LittleEndian(x, 4)) == x
  {
    Pow256Values();
    LittleEndianRoundTrip(x, 4);
  }

  lemma U64RoundTrip(x: u64)
    ensures FromLittleEndian(LittleEndian(x, 8)) == x
  {
    Pow256Values();
    LittleEndianRoundTrip(x, 8);
  }

  /** Two's complement. */
  function EncodeI64(t: i64): (b: seq<byte>)
    ensures |b| == 8
  {
    LittleEndian(t % (U64_MAX + 1), 8)
  }

  function EncodeOption(o: Option<seq<byte>>): seq<byte> {
    if o.None? then [0] else [1] + o.value
  }

  /** `array_ref!`: a fixed-length window; None when it does not fit. */
  function Window(data: seq<byte>, at: nat, length: nat): Option<seq<byte>> {
    if at + length <= |data| then Some(data[at..at + length]) else None
  }

  lemma WindowOfMiddle(before: seq<byte>, middle: seq<byte>, after: seq<byte>)
    ensures Window(before + middle + after, |before|, |middle|) == Some(middle)
  {
    assert (before + middle + after)[|before|..|before| + |middle|] == middle;
  }

  /** Past a one-byte option tag and, if it says so, the value behind it. */
  function SkipOption(data: seq<byte>, at: nat, length: nat): Option<nat> {
    if at >= |data| then None else Some(if data[at] == 1 then at + 1 + length else at + 1)
  }

  lemma SkipOptionOfMiddle(before: seq<byte>, o: Option<seq<byte>>, after: seq<byte>, length: nat)
    requires o.Some? ==> |o.value| == length
    ensures SkipOption(before + EncodeOption(o) + after, |before|, length) == Some(|before + EncodeOption(o)|)
  {
    assert (before + EncodeOption(o) + after)[|before|] == EncodeOption(o)[0];
  }
}
