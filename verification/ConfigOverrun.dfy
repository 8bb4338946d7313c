/** What a batch of config lines that ends past the last line does to the lines and marks that can be read back. */
module ConfigOverrun {
  import opened Prelude
  import opened Bits
  import opened Borsh
  import opened ConfigLines

  // ---------------------------------------------------------------------------
  // Decoding is injective

  lemma LowDigit(digit: byte, rest: nat)
    ensures (digit + 256 * rest) % 256 == digit && (digit + 256 * rest) / 256 == rest
  {
  }

  lemma {:induction false} SameLittleEndian(b: seq<byte>, x: nat, width: nat)
    requires x == FromLittleEndian(b) && width == |b|
    ensures LittleEndian(x, width) == b
  {
    if width > 0 {
      var rest := FromLittleEndian(b[1..]);
      LowDigit(b[0], rest);
      SameLittleEndian(b[1..], rest, width - 1);
    }
  }

  lemma DecodedString(b: seq<byte>)
    requires DecodeString(b).Some?
    ensures b == EncodeString(DecodeString(b).value.value) + DecodeString(b).value.rest
  {
    var d := DecodeString(b).value;
    SameLittleEndian(b[..4], |d.value|, 4);
    assert b == b[..4] + d.value + d.rest;
  }

  /** Only its own encoding decodes to a line. */
  lemma DecodesToIff(b: seq<byte>, line: ConfigLine)
    requires |line.name| <= U32_MAX && |line.uri| <= U32_MAX
    ensures DecodeLine(b) == Some(line) <==> b == EncodeLine(line)
  {
    LineRoundTrip(line);
    if DecodeLine(b) == Some(line) {
      DecodedString(b);
      var rest := DecodeString(b).value.rest;
      DecodedString(rest);
      assert DecodeString(rest).value.rest == [];
    }
  }

  // ---------------------------------------------------------------------------
  // Marks

  lemma {:induction false} BitsDetermine(a: nat, b: nat, n: nat)
    requires a < Pow2(n) && b < Pow2(n)
    requires forall k: nat :: k < n ==> Bit(a, k) == Bit(b, k)
    ensures a == b
  {
    if n > 0 {
      assert Bit(a, 0) == Bit(b, 0);
      forall k: nat | k < n - 1
        ensures Bit(a / 2, k) == Bit(b / 2, k)
      {
        assert Bit(a, k + 1) == Bit(b, k + 1);
      }
      BitsDetermine(a / 2, b / 2, n - 1);
    }
  }

  /** Marking lines sets their bits and no other. */
  lemma {:induction false} BitAfterMarks(m: Marked, mask: nat, index: nat, n: nat, i: nat)
    requires MarkLines(m, mask, index, n).Ok? && mask + i / 8 < |m.data|
    ensures |MarkLines(m, mask, index, n).value.data| == |m.data|
    ensures IsMarked(MarkLines(m, mask, index, n).value.data, mask, i) <==>
            index <= i < index + n || IsMarked(m.data, mask, i)
  {
    if n > 0 {
      BitAfterMarks(m, mask, index, n - 1, i);
      BitAfterMark(MarkLines(m, mask, index, n - 1).value, mask, index + n - 1, i);
    }
  }

  lemma BitAfterMark(m: Marked, mask: nat, k: nat, i: nat)
    requires MarkLine(m, mask, k).Ok? && mask + i / 8 < |m.data|
    ensures |MarkLine(m, mask, k).value.data| == |m.data|
    ensures IsMarked(MarkLine(m, mask, k).value.data, mask, i) <==> i == k || IsMarked(m.data, mask, i)
  {
    SetBitAt(m.data[mask + k / 8], 7 - k % 8, 7 - i % 8);
    if i / 8 == k / 8 && i % 8 == k % 8 {
      BitPosition(i, k);
    }
  }

  lemma ByteKept(m: Marked, mask: nat, index: nat, n: nat, p: nat, r: seq<byte>)
    requires MarkLines(m, mask, index, n).Ok? && r == MarkLines(m, mask, index, n).value.data
    requires mask <= p < |m.data|
    requires forall i: nat :: index <= i < index + n && mask + i / 8 == p ==> IsMarked(m.data, mask, i)
    ensures |r| == |m.data| && r[p] == m.data[p]
  {
    BitAfterMarks(m, mask, index, n, 8 * (p - mask));
    forall k: nat | k < 8
      ensures Bit(r[p], k) == Bit(m.data[p], k)
    {
      SameBit(m, mask, index, n, 8 * (p - mask) + 7 - k, r);
    }
    SameByte(r[p], m.data[p]);
  }

  lemma SameByte(a: byte, b: byte)
    requires forall k: nat :: k < 8 ==> Bit(a, k) == Bit(b, k)
    ensures a == b
  {
    BytesBelow();
    BitsDetermine(a, b, 8);
  }

  lemma BytesBelow()
    ensures Pow2(8) == 256
  {
    assert Pow2(4) == 16;
  }

  lemma SameBit(m: Marked, mask: nat, index: nat, n: nat, i: nat, r: seq<byte>)
    requires MarkLines(m, mask, index, n).Ok? && r == MarkLines(m, mask, index, n).value.data
    requires mask + i / 8 < |m.data|
    requires index <= i < index + n ==> IsMarked(m.data, mask, i)
    ensures |r| == |m.data| && Bit(r[mask + i / 8], 7 - i % 8) == Bit(m.data[mask + i / 8], 7 - i % 8)
  {
    BitAfterMarks(m, mask, index, n, i);
  }

  /** Each mark of a batch that falls between lo and hi is set already. */
  ghost predicate AlreadyMarked(data: seq<byte>, mask: nat, index: nat, n: nat, lo: nat, hi: nat)
    requires hi <= |data|
  {
    forall i: nat :: index <= i < index + n && lo <= mask + i / 8 < hi ==> IsMarked(data, mask, i)
  }

  /** Marks leave a part of the buffer alone exactly when each of them that falls there was set before. */
  lemma WindowKeptIff(m: Marked, mask: nat, index: nat, n: nat, lo: nat, hi: nat, r: seq<byte>)
    requires MarkLines(m, mask, index, n).Ok? && r == MarkLines(m, mask, index, n).value.data
    requires mask <= |m.data| && lo <= hi <= |m.data|
    ensures |r| == |m.data|
    ensures r[lo..hi] == m.data[lo..hi] <==> AlreadyMarked(m.data, mask, index, n, lo, hi)
  {
    MarksStayInMask(m, mask, index, n);
    if AlreadyMarked(m.data, mask, index, n, lo, hi) {
      forall p | lo <= p < hi
        ensures r[p] == m.data[p]
      {
        if p < mask {
          assert r[..mask][p] == m.data[..mask][p];
        } else {
          ByteKept(m, mask, index, n, p, r);
        }
      }
    }
    if r[lo..hi] == m.data[lo..hi] {
      forall i: nat | index <= i < index + n && lo <= mask + i / 8 < hi
        ensures IsMarked(m.data, mask, i)
      {
        BitAfterMarks(m, mask, index, n, i);
        assert r[lo..hi][mask + i / 8 - lo] == m.data[lo..hi][mask + i / 8 - lo];
      }
    }
  }

  // ---------------------------------------------------------------------------
  // An accepted batch

  /** The mark of line i lies over a byte of line j. */
  predicate LiesOver(max: nat, i: nat, j: nat) {
    LineAt(j) <= MaskAt(max) + i / 8 < LineAt(j) + CONFIG_LINE_SIZE
  }

  /** Line j's own bytes have the bit set that marks line i. */
  predicate HasMark(line: ConfigLine, max: nat, i: nat, j: nat)
    requires IsPadded(line) && LiesOver(max, i, j)
  {
    Bit(EncodeLine(line)[MaskAt(max) + i / 8 - LineAt(j)], 7 - i % 8) == 1
  }

  /** The marks that a batch sets over line j are set in that line anyway. */
  ghost predicate MarksBlendIn(line: ConfigLine, max: nat, index: nat, n: nat, j: nat)
    requires IsPadded(line)
  {
    forall i: nat :: index <= i < index + n && LiesOver(max, i, j) ==> HasMark(line, max, i, j)
  }

  lemma ReadAsGivenIff(read: Result<ConfigLine, Error>, given: ConfigLine)
    requires Fits(given)
    ensures read.Ok? && Shows(read.value, given) <==> read == Ok(Padded(given))
  {
    if read.Ok? {
      ShowsIff(read.value, given);
    }
  }

  /** The steps of an accepted batch: the lines are laid, marked and counted. */
  lemma BatchSteps(data: seq<byte>, max: u32, index: u32, lines: seq<ConfigLine>, r: seq<byte>, m: Marked)
    requires index < max && AllFit(lines) && lines != []
    requires AddConfigLines(data, max, index, lines) == Ok(r)
    requires m == Marked(Overwrite(data, LineAt(index), EncodeLines(lines)), GetConfigCount(data).value)
    ensures MarkLines(m, MaskAt(max), index, |lines|).Ok? && MaskAt(max) <= |m.data| == |data| == |r|
    ensures LineAt(index) + 240 * |lines| <= |data| && GetConfigCount(r).Ok?
    ensures MarkLines(m, MaskAt(max), index, |lines|).value.data[LineAt(0)..] == r[LineAt(0)..]
  {
    AddIsMarked(data, max, index, lines, m.count);
    MarksCounted(m, MaskAt(max), index, |lines|, r);
  }

  lemma MarksCounted(m: Marked, mask: nat, index: nat, n: nat, r: seq<byte>)
    requires Count(MarkLines(m, mask, index, n)) == Ok(r) && n > 0
    ensures MarkLines(m, mask, index, n).Ok? && mask <= |m.data| == |r| && GetConfigCount(r).Ok?
    ensures MarkLines(m, mask, index, n).value.data[LineAt(0)..] == r[LineAt(0)..]
  {
    MarksReach(m, mask, index, n);
    CountedTail(MarkLines(m, mask, index, n), r);
  }

  lemma CountedTail(marked: Result<Marked, Error>, r: seq<byte>)
    requires Count(marked) == Ok(r)
    ensures marked.Ok? && |r| == |marked.value.data| && GetConfigCount(r).Ok?
    ensures LineAt(0) <= |r| && marked.value.data[LineAt(0)..] == r[LineAt(0)..]
  {
  }

  /** The bytes at line j's place are this line's. */
  predicate Holds(data: seq<byte>, j: nat, line: ConfigLine) {
    && LineAt(j) + CONFIG_LINE_SIZE <= |data|
    && data[LineAt(j)..LineAt(j) + CONFIG_LINE_SIZE] == EncodeLine(line)
  }

  /** Before the marks each line of the batch lies at its place. */
  lemma LineLaid(data: seq<byte>, index: nat, lines: seq<ConfigLine>, laid: seq<byte>, j: nat)
    requires AllFit(lines) && index <= j < index + |lines| && LineAt(index) + 240 * |lines| <= |data|
    requires laid == Overwrite(data, LineAt(index), EncodeLines(lines))
    ensures |laid| == |data| && Holds(laid, j, Padded(lines[j - index]))
  {
    var k := j - index;
    var at := 240 * k;
    EncodeLinesAt(lines, k, at);
    PartLaid(data, LineAt(index), EncodeLines(lines), at, Padded(lines[k]), laid, j);
  }

  lemma PartLaid(data: seq<byte>, from: nat, bytes: seq<byte>, at: nat, line: ConfigLine, laid: seq<byte>, j: nat)
    requires from + |bytes| <= |data| && at + 240 <= |bytes| && LineAt(j) == from + at
    requires bytes[at..at + 240] == EncodeLine(line) && laid == Overwrite(data, from, bytes)
    ensures |laid| == |data| && Holds(laid, j, line)
  {
    WindowLaid(data, from, bytes, at, laid, LineAt(j));
  }

  lemma WindowLaid(data: seq<byte>, from: nat, bytes: seq<byte>, at: nat, laid: seq<byte>, to: nat)
    requires from + |bytes| <= |data| && at + 240 <= |bytes| && laid == Overwrite(data, from, bytes)
    requires to == from + at
    ensures |laid| == |data| && laid[to..to + 240] == bytes[at..at + 240]
  {
    OverwriteHere(data, from, bytes);
    InnerWindow(laid, from, |bytes|, at, at + 240);
  }

  lemma ByteInTail(a: seq<byte>, b: seq<byte>, from: nat, p: nat)
    requires from <= p < |a| == |b| && a[from..] == b[from..]
    ensures a[p] == b[p]
  {
    assert a[from..][p - from] == b[from..][p - from];
  }

  lemma SameTail(a: seq<byte>, b: seq<byte>, from: nat, lo: nat, hi: nat)
    requires from <= lo <= hi <= |a| == |b| && a[from..] == b[from..]
    ensures a[lo..hi] == b[lo..hi]
  {
    forall p | lo <= p < hi
      ensures a[p] == b[p]
    {
      ByteInTail(a, b, from, p);
    }
  }

  /** A line is read from its bytes alone, if the count admits its index. */
  lemma GetReadsIff(r: seq<byte>, j: nat, line: ConfigLine)
    requires IsPadded(line) && LineAt(j) + CONFIG_LINE_SIZE <= |r|
    ensures GetConfigCount(r).Ok?
    ensures GetConfigLine(r, j) == Ok(line) <==> j <= GetConfigCount(r).value && Holds(r, j, line)
  {
    DecodesToIff(r[LineAt(j)..LineAt(j) + CONFIG_LINE_SIZE], line);
  }

  /** Marks over a line, read in the line's bytes. */
  lemma BlendInIff(laid: seq<byte>, line: ConfigLine, max: nat, index: nat, n: nat, j: nat)
    requires IsPadded(line) && Holds(laid, j, line)
    ensures MarksBlendIn(line, max, index, n, j) <==>
            AlreadyMarked(laid, MaskAt(max), index, n, LineAt(j), LineAt(j) + CONFIG_LINE_SIZE)
  {
    forall i: nat | LiesOver(max, i, j)
      ensures HasMark(line, max, i, j) <==> IsMarked(laid, MaskAt(max), i)
    {
      MarkInLine(laid, line, max, i, j);
    }
  }

  lemma MarkInLine(laid: seq<byte>, line: ConfigLine, max: nat, i: nat, j: nat)
    requires IsPadded(line) && Holds(laid, j, line) && LiesOver(max, i, j)
    ensures HasMark(line, max, i, j) <==> IsMarked(laid, MaskAt(max), i)
  {
    assert EncodeLine(line)[MaskAt(max) + i / 8 - LineAt(j)] == laid[MaskAt(max) + i / 8];
  }

  /**
   A line of an accepted batch reads back as it was written exactly when the
   count admits its index and every mark of the batch that lies over it was set
   in its bytes anyway. No mark lies over a line below max.
   */
  lemma BatchReadsBackIff(data: seq<byte>, max: u32, index: u32, lines: seq<ConfigLine>, r: seq<byte>, j: nat)
    requires index < max && AllFit(lines) && index <= j < index + |lines|
    requires AddConfigLines(data, max, index, lines) == Ok(r)
    ensures GetConfigCount(r).Ok?
    ensures GetConfigLine(r, j) == Ok(Padded(lines[j - index])) <==>
            j <= GetConfigCount(r).value && MarksBlendIn(Padded(lines[j - index]), max, index, |lines|, j)
    ensures GetConfigLine(r, j).Ok? && Shows(GetConfigLine(r, j).value, lines[j - index]) <==>
            j <= GetConfigCount(r).value && MarksBlendIn(Padded(lines[j - index]), max, index, |lines|, j)
    ensures j < max ==> MarksBlendIn(Padded(lines[j - index]), max, index, |lines|, j)
  {
    ReadAsGivenIff(GetConfigLine(r, j), lines[j - index]);
    var m := Marked(Overwrite(data, LineAt(index), EncodeLines(lines)), GetConfigCount(data).value);
    BatchSteps(data, max, index, lines, r, m);
    LineLaid(data, index, lines, m.data, j);
    MarkedReadsBackIff(m, max, index, |lines|, MarkLines(m, MaskAt(max), index, |lines|).value.data, r, j,
                       Padded(lines[j - index]));
  }

  lemma MarkedReadsBackIff(m: Marked, max: nat, index: nat, n: nat, marked: seq<byte>, r: seq<byte>, j: nat,
                           line: ConfigLine)
    requires MarkLines(m, MaskAt(max), index, n).Ok? && marked == MarkLines(m, MaskAt(max), index, n).value.data
    requires MaskAt(max) <= |m.data| == |marked| == |r| && marked[LineAt(0)..] == r[LineAt(0)..]
    requires IsPadded(line) && Holds(m.data, j, line)
    ensures GetConfigCount(r).Ok?
    ensures GetConfigLine(r, j) == Ok(line) <==> j <= GetConfigCount(r).value && MarksBlendIn(line, max, index, n, j)
  {
    HoldsAfterMarks(m, MaskAt(max), index, n, marked, j, line);
    HoldsInTail(marked, r, j, line);
    GetReadsIff(r, j, line);
    BlendInIff(m.data, line, max, index, n, j);
  }

  lemma HoldsAfterMarks(m: Marked, mask: nat, index: nat, n: nat, marked: seq<byte>, j: nat, line: ConfigLine)
    requires MarkLines(m, mask, index, n).Ok? && marked == MarkLines(m, mask, index, n).value.data
    requires mask <= |m.data| == |marked| && Holds(m.data, j, line)
    ensures Holds(marked, j, line) <==>
            AlreadyMarked(m.data, mask, index, n, LineAt(j), LineAt(j) + CONFIG_LINE_SIZE)
  {
    WindowKeptIff(m, mask, index, n, LineAt(j), LineAt(j) + CONFIG_LINE_SIZE, marked);
    HoldsIff(marked, m.data, j, line);
  }

  lemma HoldsIff(a: seq<byte>, b: seq<byte>, j: nat, line: ConfigLine)
    requires |a| == |b| && Holds(b, j, line)
    ensures Holds(a, j, line) <==>
            a[LineAt(j)..LineAt(j) + CONFIG_LINE_SIZE] == b[LineAt(j)..LineAt(j) + CONFIG_LINE_SIZE]
  {
  }

  lemma HoldsInTail(a: seq<byte>, b: seq<byte>, j: nat, line: ConfigLine)
    requires LineAt(0) <= |a| == |b| && a[LineAt(0)..] == b[LineAt(0)..]
    ensures Holds(a, j, line) <==> Holds(b, j, line)
  {
    if LineAt(j) + CONFIG_LINE_SIZE <= |a| {
      SameTail(a, b, LineAt(0), LineAt(j), LineAt(j) + CONFIG_LINE_SIZE);
    }
  }

  /** Whether another line is marked afterwards is decided by the bytes of the line laid over its mark. */
  lemma MarkFollowsLine(data: seq<byte>, max: u32, index: u32, lines: seq<ConfigLine>, r: seq<byte>, i: nat, j: nat)
    requires index < max && AllFit(lines) && index <= j < index + |lines|
    requires AddConfigLines(data, max, index, lines) == Ok(r)
    requires LiesOver(max, i, j) && !(index <= i < index + |lines|)
    ensures MaskAt(max) + i / 8 < |r|
    ensures IsMarked(r, MaskAt(max), i) <==> HasMark(Padded(lines[j - index]), max, i, j)
  {
    var m := Marked(Overwrite(data, LineAt(index), EncodeLines(lines)), GetConfigCount(data).value);
    BatchSteps(data, max, index, lines, r, m);
    LineLaid(data, index, lines, m.data, j);
    MarkInLine(m.data, Padded(lines[j - index]), max, i, j);
    BitAfterMarks(m, MaskAt(max), index, |lines|, i);
    var marked := MarkLines(m, MaskAt(max), index, |lines|).value.data;
    ByteInTail(marked, r, LineAt(0), MaskAt(max) + i / 8);
  }

  // ---------------------------------------------------------------------------
  // Names in ASCII

  predicate Ascii(s: seq<byte>) {
    forall k :: 0 <= k < |s| ==> s[k] < 128
  }

  lemma {:induction false} HighBitClear(b: nat, k: nat)
    requires b < Pow2(k)
    ensures Bit(b, k) == 0
  {
    if k > 0 {
      HighBitClear(b / 2, k - 1);
    }
  }

  lemma TopBitClear(b: byte)
    requires b < 128
    ensures Bit(b, 7) == 0
  {
    assert Pow2(7) == 128 by {
      assert Pow2(4) == 16;
    }
    HighBitClear(b, 7);
  }

  /** An ASCII name in line max has no mark for a line whose number is a multiple of eight. */
  lemma AsciiHasNoMark(line: ConfigLine, max: nat, i: nat)
    requires Fits(line) && Ascii(line.name) && i % 8 == 0 && i / 8 < MAX_NAME_LENGTH
    ensures LiesOver(max, i, max) && !HasMark(Padded(line), max, i, max)
  {
    var p := Padded(line);
    assert EncodeLine(p)[4 + i / 8] == p.name[i / 8];
    TopBitClear(p.name[i / 8]);
  }

  /**
   Hence with ASCII names a batch that runs over and holds a line whose number
   is such a multiple garbles line max, and such a line written before it is
   forgotten: it will be counted again.
   */
  lemma OverrunGarbles(data: seq<byte>, max: u32, index: u32, lines: seq<ConfigLine>, r: seq<byte>, i: nat)
    requires index < max < index + |lines| && AllFit(lines) && Ascii(lines[max - index].name)
    requires AddConfigLines(data, max, index, lines) == Ok(r)
    requires i % 8 == 0 && i / 8 < MAX_NAME_LENGTH
    ensures MaskAt(max) + i / 8 < |r|
    ensures index <= i < index + |lines| ==>
              GetConfigLine(r, max).Err? || !Shows(GetConfigLine(r, max).value, lines[max - index])
    ensures !(index <= i < index + |lines|) ==> !IsMarked(r, MaskAt(max), i)
  {
    AsciiHasNoMark(lines[max - index], max, i);
    if index <= i < index + |lines| {
      BatchReadsBackIff(data, max, index, lines, r, max);
      BatchReaches(data, max, index, lines, r);
    } else {
      MarkFollowsLine(data, max, index, lines, r, i, max);
    }
  }

  lemma BatchReaches(data: seq<byte>, max: u32, index: u32, lines: seq<ConfigLine>, r: seq<byte>)
    requires index < max < index + |lines| && AllFit(lines)
    requires AddConfigLines(data, max, index, lines) == Ok(r)
    ensures LineAt(max) + 240 <= |r|
  {
    BatchSteps(data, max, index, lines, r,
               Marked(Overwrite(data, LineAt(index), EncodeLines(lines)), GetConfigCount(data).value));
  }

  /** Of two lines in an account for one both count, and the second reads back as something else. */
  lemma SecondLineGarbled(data: seq<byte>, a: ConfigLine, b: ConfigLine, lines: seq<ConfigLine>, max: u32)
    requires max == 1 && Represents(data, max, map[]) && |data| >= LineAt(2) && lines == [a, b]
    requires Fits(a) && Fits(b) && |b.name| > 0 && b.name[0] == 0x30 && Ascii(b.name)
    ensures AddConfigLines(data, max, 0, lines).Ok?
    ensures GetConfigCount(AddConfigLines(data, max, 0, lines).value) == Ok(2)
    ensures var read := GetConfigLine(AddConfigLines(data, max, 0, lines).value, 1);
      read.Err? || !Shows(read.value, b)
  {
    OverrunCountsTwo(data, a, b, max);
    OverrunGarbles(data, max, 0, lines, AddConfigLines(data, max, 0, lines).value, 0);
  }
}
