/**
 The lottery bitmap: the account that update_fair_launch_lottery_bitmap
 rewrites strip by strip (rust/fair-launch/src/lib.rs), the lookup of a
 ticket's bit (rust/fair-launch/src/utils.rs), and the packing loop with which
 the command line turns the drawn tickets into strips
 (js/packages/cli/src/fair-launch-cli.ts).
 */
module LotteryBitmap {
  import opened Prelude
  import opened FairLaunchErrors
  import opened Bits

  /** The bitmap payload and the cached number of ones. */
  datatype Lottery = Lottery(bytes: seq<byte>, ones: u64)

  ghost predicate Accurate(l: Lottery) {
    l.ones == PopCount(l.bytes)
  }

  /** Writing one strip: the payload is overwritten and the cached count follows by the difference. */
  function WriteStrip(l: Lottery, index: nat, strip: seq<byte>): Result<Lottery, Error> {
    if strip == [] then Ok(l)
    else
      :- Need(index + |strip| <= |l.bytes|, Aborted);
      var ones := l.ones - PopCount(l.bytes[index..index + |strip|]) + PopCount(strip);
      :- Need(0 <= ones <= U64_MAX, NumericalOverflowError);
      Ok(Lottery(Overwrite(l.bytes, index, strip), ones))
  }

  lemma PopCountOverwrite(bytes: seq<byte>, index: nat, strip: seq<byte>)
    requires index + |strip| <= |bytes|
    ensures PopCount(Overwrite(bytes, index, strip)) ==
      PopCount(bytes) - PopCount(bytes[index..index + |strip|]) + PopCount(strip)
  {
    var head, mid, tail := bytes[..index], bytes[index..index + |strip|], bytes[index + |strip|..];
    assert bytes == head + mid + tail;
    PopCountConcat(head + mid, tail);
    PopCountConcat(head, mid);
    PopCountConcat(head + strip, tail);
    PopCountConcat(head, strip);
  }

  lemma BitAtOverwrite(bytes: seq<byte>, index: nat, strip: seq<byte>, s: nat)
    requires index + |strip| <= |bytes| && s < 8 * |bytes|
    ensures BitAt(Overwrite(bytes, index, strip), s) ==
      if 8 * index <= s < 8 * (index + |strip|) then BitAt(strip, s - 8 * index) else BitAt(bytes, s)
  {
    var i := s / 8;
    if index <= i < index + |strip| {
      assert Overwrite(bytes, index, strip)[i] == strip[i - index];
      assert (s - 8 * index) / 8 == i - index && (s - 8 * index) % 8 == s % 8;
    }
  }

  /** How far the update loop has come after i bytes: the payload so far and the ones gained so far. */
  ghost predicate Written(now: seq<byte>, bytes: seq<byte>, index: nat, strip: seq<byte>, i: nat, gained: int)
    requires i <= |strip|
  {
    if i == 0 then now == bytes && gained == 0
    else
      && index + i <= |bytes|
      && now == Overwrite(bytes, index, strip[..i])
      && gained == PopCount(strip[..i]) - PopCount(bytes[index..index + i])
  }

  lemma WrittenNext(now: seq<byte>, bytes: seq<byte>, index: nat, strip: seq<byte>, i: nat, gained: int)
    requires i < |strip| && index + i < |bytes|
    requires Written(now, bytes, index, strip, i, gained)
    ensures |now| == |bytes|
    ensures Written(now[index + i := strip[i]], bytes, index, strip, i + 1,
                    gained + PopByte(strip[i]) - PopByte(now[index + i]))
  {
    assert now == Overwrite(bytes, index, strip[..i]);
    assert now[index + i] == bytes[index + i];
    assert now[index + i := strip[i]] == Overwrite(bytes, index, strip[..i + 1]);
    assert strip[..i + 1][..i] == strip[..i];
    assert bytes[index..index + i + 1][..i] == bytes[index..index + i];
  }

  lemma WrittenAll(now: seq<byte>, l: Lottery, index: nat, strip: seq<byte>, gained: int)
    requires Written(now, l.bytes, index, strip, |strip|, gained)
    ensures WriteStrip(l, index, strip) ==
      if 0 <= l.ones + gained <= U64_MAX then Ok(Lottery(now, l.ones + gained)) else Err(NumericalOverflowError)
  {
    assert strip[..|strip|] == strip;
  }

  /** The cached count stays the population count, and on an accurate bitmap an in-range write cannot fail. */
  lemma WriteStripAccurate(l: Lottery, index: nat, strip: seq<byte>)
    requires Accurate(l)
    ensures WriteStrip(l, index, strip).Ok? ==>
      Accurate(WriteStrip(l, index, strip).value) && |WriteStrip(l, index, strip).value.bytes| == |l.bytes|
    ensures 8 * |l.bytes| <= U64_MAX ==>
      (WriteStrip(l, index, strip).Ok? <==> strip == [] || index + |strip| <= |l.bytes|)
  {
    if strip != [] && index + |strip| <= |l.bytes| {
      PopCountOverwrite(l.bytes, index, strip);
    }
  }

  /** The byte index and the position from the right of a ticket's bit. */
  function PositionForSeq(ticket: nat): (nat, nat) {
    (ticket / 8, 7 - ticket % 8)
  }

  /** Whether the bit of the given ticket is set; None stands for an index out of bounds. */
  function IsWinner(bytes: seq<byte>, ticket: nat): Option<bool> {
    var (index, fromRight) := PositionForSeq(ticket);
    if index < |bytes| then Some(Masked(bytes[index], fromRight) > 0) else None
  }

  lemma IsWinnerIsBit(bytes: seq<byte>, ticket: nat)
    requires ticket < 8 * |bytes|
    ensures IsWinner(bytes, ticket) == Some(BitAt(bytes, ticket))
  {
  }

  /** The account holding the bitmap, updated in place. */
  class LotteryAccount {
    const bytes: array<byte>
    var ones: u64

    ghost function View(): Lottery
      reads this, bytes
    {
      Lottery(bytes[..], ones)
    }

    /** create_fair_launch_lottery_bitmap: a zeroed account with one bit and some slack for each ticket sold. */
    constructor (sold: u64)
      ensures fresh(bytes)
      ensures View() == Lottery(Zeros(sold / 8 + 1), 0)
    {
      bytes := new byte[sold / 8 + 1](_ => 0);
      ones := 0;
      new;
      assert bytes[..] == Zeros(sold / 8 + 1);
    }

    /** The inner loop of the update: how many ones a byte gains when it is replaced. */
    static method OnesGained(current: byte, replacement: byte, before: int) returns (changed: int)
      ensures changed == before + PopByte(replacement) - PopByte(current)
    {
      changed := before;
      for position := 0 to 8
        invariant changed == before + PopLow(replacement, position) - PopLow(current, position)
      {
        MaskedCompare(current, replacement, position);
        MaskedCompare(replacement, current, position);
        if Masked(current, position) > Masked(replacement, position) {
          changed := changed - 1;
        } else if Masked(current, position) < Masked(replacement, position) {
          changed := changed + 1;
        }
      }
    }

    /** update_fair_launch_lottery_bitmap; a failed transaction is rolled back by the runtime. */
    method Write(index: u32, strip: seq<byte>) returns (r: Result<(), Error>)
      modifies this`ones, bytes
      ensures match WriteStrip(old(View()), index, strip)
              case Ok(l) => r == Ok(()) && View() == l
              case Err(e) => r == Err(e) && View() == old(View())
    {
      var saved := bytes[..];
      var changed := 0;
      for i := 0 to |strip|
        invariant ones == old(ones)
        invariant Written(bytes[..], saved, index, strip, i, changed)
      {
        var position := index + i;
        if position >= bytes.Length {
          Restore(saved);
          return Err(Aborted);
        }
        ghost var current := bytes[..];
        WrittenNext(current, saved, index, strip, i, changed);
        changed := OnesGained(bytes[position], strip[i], changed);
        bytes[position] := strip[i];
        assert bytes[..] == current[position := strip[i]];
      }
      WrittenAll(bytes[..], old(View()), index, strip, changed);
      if ones + changed < 0 || ones + changed > U64_MAX {
        Restore(saved);
        return Err(NumericalOverflowError);
      }
      ones := ones + changed;
      r := Ok(());
    }

    method Restore(saved: seq<byte>)
      requires |saved| == bytes.Length
      modifies bytes
      ensures bytes[..] == saved
    {
      forall i | 0 <= i < bytes.Length {
        bytes[i] := saved[i];
      }
    }
  }

  // ---------------------------------------------------------------------------
  // The packing loop of the command line: 80 tickets, ten bytes, to a strip

  /** The strip's bits are the draw's booleans from `low` up to `high`, padded with zeros. */
  ghost predicate IsPacking(chosen: seq<bool>, low: nat, high: nat, strip: seq<byte>)
    requires low <= high <= |chosen|
  {
    && |strip| == (high - low + 7) / 8
    && forall i: nat :: i < 8 * |strip| ==> (BitAt(strip, i) <==> low + i < high && chosen[low + i])
  }

  /** What the byte under construction holds after n of its bits, the first one leftmost. */
  ghost predicate PartialByte(b: byte, chosen: seq<bool>, first: nat, n: nat)
    requires n <= 8 && first + n <= |chosen|
  {
    forall p: nat :: p < 8 ==> (Bit(b, p) == 1 <==> 7 - p < n && chosen[first + 7 - p])
  }

  lemma EmptyByte(chosen: seq<bool>, first: nat)
    requires first <= |chosen|
    ensures PartialByte(0, chosen, first, 0)
  {
    forall p: nat | p < 8
      ensures Bit(0, p) == 0
    {
      BitOfZero(p);
    }
  }

  lemma PushBit(b: byte, chosen: seq<bool>, first: nat, n: nat)
    requires n < 8 && first + n < |chosen|
    requires PartialByte(b, chosen, first, n)
    ensures SetBit(b, 7 - n) < 256
    ensures PartialByte(if chosen[first + n] then SetBit(b, 7 - n) else b, chosen, first, n + 1)
  {
    SetBitByte(b, 7 - n);
    var next := if chosen[first + n] then SetBit(b, 7 - n) else b;
    forall p: nat | p < 8
      ensures Bit(next, p) == 1 <==> 7 - p < n + 1 && chosen[first + 7 - p]
    {
      SetBitAt(b, 7 - n, p);
      assert Bit(b, p) == 1 <==> 7 - p < n && chosen[first + 7 - p];
    }
  }

  /** Bit i of a string with one more byte. */
  lemma BitAtAppend(strip: seq<byte>, b: byte, i: nat)
    requires i < 8 * |strip + [b]|
    ensures BitAt(strip + [b], i) ==
      if i < 8 * |strip| then BitAt(strip, i) else Bit(b, 7 - (i - 8 * |strip|)) == 1
  {
    if i >= 8 * |strip| {
      assert i / 8 == |strip| && i % 8 == i - 8 * |strip|;
    }
  }

  /** Appending a finished byte keeps the packing. */
  lemma PushByte(strip: seq<byte>, b: byte, chosen: seq<bool>, low: nat, n: nat)
    requires 0 < n <= 8 && low + 8 * |strip| + n <= |chosen|
    requires IsPacking(chosen, low, low + 8 * |strip|, strip)
    requires PartialByte(b, chosen, low + 8 * |strip|, n)
    ensures IsPacking(chosen, low, low + 8 * |strip| + n, strip + [b])
  {
    forall i: nat | i < 8 * |strip + [b]|
      ensures BitAt(strip + [b], i) <==> low + i < low + 8 * |strip| + n && chosen[low + i]
    {
      BitAtAppend(strip, b, i);
    }
  }

  method PackStrip(chosen: seq<bool>, low: nat, high: nat) returns (strip: seq<byte>)
    requires low <= high <= |chosen|
    ensures IsPacking(chosen, low, high, strip)
  {
    strip := [];
    var positionFromRight := 7;
    var currByte: byte := 0;
    EmptyByte(chosen, low);
    for i := low to high
      invariant 0 <= positionFromRight <= 7
      invariant i == low + 8 * |strip| + (7 - positionFromRight)
      invariant IsPacking(chosen, low, low + 8 * |strip|, strip)
      invariant PartialByte(currByte, chosen, low + 8 * |strip|, 7 - positionFromRight)
    {
      PushBit(currByte, chosen, low + 8 * |strip|, 7 - positionFromRight);
      if chosen[i] {
        currByte := SetBit(currByte, positionFromRight);
      }
      positionFromRight := positionFromRight - 1;
      if positionFromRight < 0 {
        PushByte(strip, currByte, chosen, low, 8);
        strip := strip + [currByte];
        currByte := 0;
        positionFromRight := 7;
        EmptyByte(chosen, i + 1);
      }
    }
    if positionFromRight != 7 {
      PushByte(strip, currByte, chosen, low, 7 - positionFromRight);
      strip := strip + [currByte];
    }
  }

  // ---------------------------------------------------------------------------
  // Sending the strips in any order

  function ChunkEnd(chosen: seq<bool>, c: nat): nat
    requires 80 * c <= |chosen|
  {
    if 80 * c + 80 <= |chosen| then 80 * c + 80 else |chosen|
  }

  /** The strip the command line sends for chunk c. */
  ghost predicate IsStripOf(chosen: seq<bool>, c: nat, strip: seq<byte>) {
    80 * c < |chosen| && IsPacking(chosen, 80 * c, ChunkEnd(chosen, c), strip)
  }

  /** The updates the chain executes, in whatever order they arrive. */
  function WriteAll(l: Lottery, chunks: seq<nat>, strips: seq<seq<byte>>): Result<Lottery, Error>
    requires |chunks| == |strips|
  {
    if |chunks| == 0 then Ok(l)
    else
      var last := |chunks| - 1;
      var before :- WriteAll(l, chunks[..last], strips[..last]);
      WriteStrip(before, 10 * chunks[last], strips[last])
  }

  predicate Arrived(chunks: seq<nat>, c: nat) {
    c in chunks
  }

  /** Ticket s's bit is as drawn if its chunk has arrived, and clear otherwise. */
  ghost predicate DrawnSoFar(chosen: seq<bool>, chunks: seq<nat>, bytes: seq<byte>) {
    && |bytes| == |chosen| / 8 + 1
    && forall s: nat :: s < 8 * |bytes| ==> (BitAt(bytes, s) <==> s < |chosen| && Arrived(chunks, s / 80) && chosen[s])
  }

  /** A strip covers exactly its own chunk's tickets. */
  lemma StripCovers(chosen: seq<bool>, c: nat, strip: seq<byte>, s: nat)
    requires IsStripOf(chosen, c, strip)
    ensures s < |chosen| ==> (80 * c <= s < 80 * c + 8 * |strip| <==> s / 80 == c)
    ensures 80 * c <= s < 80 * c + 8 * |strip| && s < |chosen| ==> s < ChunkEnd(chosen, c)
  {
  }

  lemma StripBit(chosen: seq<bool>, bytes: seq<byte>, chunks: seq<nat>, c: nat, strip: seq<byte>, s: nat)
    requires DrawnSoFar(chosen, chunks, bytes) && IsStripOf(chosen, c, strip)
    requires 10 * c + |strip| <= |bytes| && s < 8 * |bytes|
    ensures BitAt(Overwrite(bytes, 10 * c, strip), s) <==>
      s < |chosen| && Arrived(chunks + [c], s / 80) && chosen[s]
  {
    var index := 10 * c;
    var bit := BitAt(Overwrite(bytes, index, strip), s);
    BitAtOverwrite(bytes, index, strip, s);
    StripCovers(chosen, c, strip, s);
    if 80 * c <= s < 80 * c + 8 * |strip| {
      assert bit == BitAt(strip, s - 80 * c);
      assert s < |chosen| ==> Arrived(chunks + [c], s / 80);
    } else {
      assert bit == BitAt(bytes, s);
      assert s < |chosen| ==> Arrived(chunks + [c], s / 80) == Arrived(chunks, s / 80);
    }
  }

  lemma WriteOneStrip(chosen: seq<bool>, l: Lottery, chunks: seq<nat>, c: nat, strip: seq<byte>)
    requires 8 * (|chosen| / 8 + 1) <= U64_MAX
    requires Accurate(l) && DrawnSoFar(chosen, chunks, l.bytes) && IsStripOf(chosen, c, strip)
    ensures WriteStrip(l, 10 * c, strip).Ok?
    ensures Accurate(WriteStrip(l, 10 * c, strip).value)
    ensures DrawnSoFar(chosen, chunks + [c], WriteStrip(l, 10 * c, strip).value.bytes)
  {
    var index := 10 * c;
    WriteStripAccurate(l, index, strip);
    var bytes := Overwrite(l.bytes, index, strip);
    forall s: nat | s < 8 * |bytes|
      ensures BitAt(bytes, s) <==> s < |chosen| && Arrived(chunks + [c], s / 80) && chosen[s]
    {
      StripBit(chosen, l.bytes, chunks, c, strip, s);
    }
  }

  /** Each strip packs its chunk. */
  ghost predicate AllStrips(chosen: seq<bool>, chunks: seq<nat>, strips: seq<seq<byte>>) {
    && |chunks| == |strips|
    && forall i :: 0 <= i < |chunks| ==> IsStripOf(chosen, chunks[i], strips[i])
  }

  /** The bitmap shows what was drawn in the chunks that have arrived. */
  ghost predicate Draws(chosen: seq<bool>, chunks: seq<nat>, r: Result<Lottery, Error>) {
    r.Ok? && Accurate(r.value) && DrawnSoFar(chosen, chunks, r.value.bytes)
  }

  lemma {:induction false} WriteAllDraws(chosen: seq<bool>, l: Lottery, chunks: seq<nat>, strips: seq<seq<byte>>)
    requires AllStrips(chosen, chunks, strips) && 8 * (|chosen| / 8 + 1) <= U64_MAX
    requires l == Lottery(Zeros(|chosen| / 8 + 1), 0)
    ensures Draws(chosen, chunks, WriteAll(l, chunks, strips))
  {
    if |chunks| == 0 {
      NothingDrawn(chosen, l, chunks);
    } else {
      var last := |chunks| - 1;
      WriteAllDraws(chosen, l, chunks[..last], strips[..last]);
      WriteNextStrip(chosen, WriteAll(l, chunks[..last], strips[..last]), chunks[..last], chunks[last], strips[last],
                     chunks);
    }
  }

  lemma NothingDrawn(chosen: seq<bool>, l: Lottery, chunks: seq<nat>)
    requires l == Lottery(Zeros(|chosen| / 8 + 1), 0) && chunks == []
    ensures Draws(chosen, chunks, Ok(l))
  {
    ZeroBitmap(|chosen| / 8 + 1);
  }

  lemma WriteNextStrip(chosen: seq<bool>, before: Result<Lottery, Error>, init: seq<nat>, chunk: nat, strip: seq<byte>,
                       chunks: seq<nat>)
    requires Draws(chosen, init, before) && IsStripOf(chosen, chunk, strip)
    requires 8 * (|chosen| / 8 + 1) <= U64_MAX && chunks == init + [chunk]
    ensures Draws(chosen, chunks, WriteStrip(before.value, 10 * chunk, strip))
  {
    WriteOneStrip(chosen, before.value, init, chunk, strip);
  }

  lemma {:induction false} ZeroBitmap(n: nat)
    ensures PopCount(Zeros(n)) == 0
    ensures forall s: nat :: s < 8 * n ==> !BitAt(Zeros(n), s)
  {
    forall s: nat | s < 8 * n
      ensures !BitAt(Zeros(n), s)
    {
      BitOfZero(7 - s % 8);
    }
    if n > 0 {
      ZeroBitmap(n - 1);
      assert Zeros(n)[..n - 1] == Zeros(n - 1);
      assert PopByte(0) == 0 by {
        forall k: nat ensures Bit(0, k) == 0 { BitOfZero(k); }
      }
    }
  }

  ghost predicate AllArrived(chosen: seq<bool>, chunks: seq<nat>) {
    forall c: nat :: 80 * c < |chosen| ==> Arrived(chunks, c)
  }

  ghost function Drawn(chosen: seq<bool>): set<nat> {
    set s: nat | s < |chosen| && chosen[s]
  }

  lemma DrawnBit(chosen: seq<bool>, chunks: seq<nat>, bytes: seq<byte>, s: nat)
    requires AllArrived(chosen, chunks) && DrawnSoFar(chosen, chunks, bytes)
    requires s < 8 * |bytes|
    ensures BitAt(bytes, s) <==> s in Drawn(chosen)
  {
    assert s < |chosen| ==> 80 * (s / 80) < |chosen|;
  }

  lemma OnesAreDrawn(chosen: seq<bool>, chunks: seq<nat>, l: Lottery)
    requires AllArrived(chosen, chunks) && DrawnSoFar(chosen, chunks, l.bytes) && Accurate(l)
    ensures l.ones == |Drawn(chosen)|
  {
    PopCountIsSetBits(l.bytes);
    forall s: nat | s < 8 * |l.bytes|
      ensures BitAt(l.bytes, s) <==> s in Drawn(chosen)
    {
      DrawnBit(chosen, chunks, l.bytes, s);
    }
    assert SetBits(l.bytes, 8 * |l.bytes|) == Drawn(chosen);
  }

  /**
   Once every chunk has arrived, in any order and even more than once, ticket
   s's bit is set exactly when s was drawn, and the cached count is the number
   of tickets drawn.
   */
  lemma LotteryMatchesDraw(chosen: seq<bool>, chunks: seq<nat>, strips: seq<seq<byte>>)
    requires |chunks| == |strips| && 8 * (|chosen| / 8 + 1) <= U64_MAX
    requires forall i :: 0 <= i < |chunks| ==> IsStripOf(chosen, chunks[i], strips[i])
    requires AllArrived(chosen, chunks)
    ensures var r := WriteAll(Lottery(Zeros(|chosen| / 8 + 1), 0), chunks, strips);
      && r.Ok?
      && (forall s: nat :: s < |chosen| ==> IsWinner(r.value.bytes, s) == Some(s in Drawn(chosen)))
      && r.value.ones == |Drawn(chosen)|
  {
    var zero := Lottery(Zeros(|chosen| / 8 + 1), 0);
    WriteAllDraws(chosen, zero, chunks, strips);
    var l := WriteAll(zero, chunks, strips).value;
    forall s: nat | s < |chosen|
      ensures IsWinner(l.bytes, s) == Some(s in Drawn(chosen))
    {
      IsWinnerIsBit(l.bytes, s);
      DrawnBit(chosen, chunks, l.bytes, s);
    }
    OnesAreDrawn(chosen, chunks, l);
  }
}
