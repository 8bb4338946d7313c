/**
 The candy machine's config account (rust/nft-candy-machine/src/lib.rs): a
 count, an array of padded lines and a bit mask of the lines written so far, all
 patched in place in one byte buffer.
 */
module ConfigLines {
  import opened Prelude
  import opened Bits
  import opened Borsh

  datatype Error =
    | IndexGreaterThanLength
    | TooManyCreators
    | ConstraintRaw // the account is too small for its lines
    | BorshIoError // the bytes are not a config line
    | Aborted // the program reads or writes past the account

  const MAX_NAME_LENGTH := 32
  const MAX_URI_LENGTH := 200
  const CONFIG_LINE_SIZE := 240 // two length-prefixed strings of 32 and 200 bytes
  const CONFIG_ARRAY_START := 247 // authority, uuid, symbol, fee, five creators, supply, two flags, max

  datatype ConfigLine = ConfigLine(name: seq<byte>, uri: seq<byte>)

  // ---------------------------------------------------------------------------
  // One line

  predicate Fits(line: ConfigLine) {
    |line.name| <= MAX_NAME_LENGTH && |line.uri| <= MAX_URI_LENGTH
  }

  predicate AllFit(lines: seq<ConfigLine>) {
    forall i :: 0 <= i < |lines| ==> Fits(lines[i])
  }

  predicate IsPadded(line: ConfigLine) {
    |line.name| == MAX_NAME_LENGTH && |line.uri| == MAX_URI_LENGTH
  }

  function Padded(line: ConfigLine): (p: ConfigLine)
    requires Fits(line)
    ensures IsPadded(p)
  {
    ConfigLine(line.name + Zeros(MAX_NAME_LENGTH - |line.name|), line.uri + Zeros(MAX_URI_LENGTH - |line.uri|))
  }

  function EncodeString(s: seq<byte>): seq<byte> {
    LittleEndian(|s|, 4) + s
  }

  function EncodeLine(line: ConfigLine): (b: seq<byte>)
    ensures IsPadded(line) ==> |b| == CONFIG_LINE_SIZE
  {
    EncodeString(line.name) + EncodeString(line.uri)
  }

  datatype Decoded = Decoded(value: seq<byte>, rest: seq<byte>)

  function DecodeString(b: seq<byte>): Option<Decoded> {
    if |b| < 4 then None
    else
      var n := FromLittleEndian(b[..4]);
      if 4 + n > |b| then None else Some(Decoded(b[4..4 + n], b[4 + n..]))
  }

  /** `try_from_slice`: two strings and nothing after them. */
  function DecodeLine(b: seq<byte>): Option<ConfigLine> {
    var name := DecodeString(b);
    if name.None? then None
    else
      var uri := DecodeString(name.value.rest);
      if uri.None? || uri.value.rest != [] then None
      else Some(ConfigLine(name.value.value, uri.value.value))
  }

  lemma DecodeOfEncoded(s: seq<byte>, rest: seq<byte>)
    requires |s| <= U32_MAX
    ensures DecodeString(EncodeString(s) + rest) == Some(Decoded(s, rest))
  {
    var b := EncodeString(s) + rest;
    assert b[..4] == LittleEndian(|s|, 4);
    U32RoundTrip(|s|);
    assert b[4..4 + |s|] == s;
    assert b[4 + |s|..] == rest;
  }

  lemma LineRoundTrip(line: ConfigLine)
    requires |line.name| <= U32_MAX && |line.uri| <= U32_MAX
    ensures DecodeLine(EncodeLine(line)) == Some(line)
  {
    DecodeOfEncoded(line.name, EncodeString(line.uri));
    assert EncodeString(line.uri) == EncodeString(line.uri) + [];
    DecodeOfEncoded(line.uri, []);
  }

  lemma {:induction false} ZeroIsZero(b: seq<byte>)
    requires forall i :: 0 <= i < |b| ==> b[i] == 0
    ensures FromLittleEndian(b) == 0
  {
    if b != [] {
      ZeroIsZero(b[1..]);
    }
  }

  /** The zeroed space of a line that was never written is no line: bytes remain after two empty strings. */
  lemma BlankIsNoLine(n: nat)
    requires n > 8
    ensures DecodeLine(Zeros(n)) == None
  {
    ZeroIsZero(Zeros(n)[..4]);
    assert Zeros(n)[4..4] == [];
    assert DecodeString(Zeros(n)) == Some(Decoded([], Zeros(n)[4..]));
    ZeroIsZero(Zeros(n)[4..][..4]);
  }

  // ---------------------------------------------------------------------------
  // The buffer

  function LineAt(i: nat): nat {
    251 + 240 * i
  }

  /** The mask's bytes follow the lines and the mask's length. */
  function MaskAt(max: nat): nat {
    LineAt(max) + 4
  }

  function GetConfigCount(data: seq<byte>): Result<nat, Error> {
    if |data| < CONFIG_ARRAY_START + 4 then Err(Aborted)
    else
      Ok(FromLittleEndian(data[CONFIG_ARRAY_START..CONFIG_ARRAY_START + 4]))
  }

  /** Reads line i; the bound is off by one, so i may equal the count. */
  function GetConfigLine(data: seq<byte>, i: nat): Result<ConfigLine, Error> {
    var total :- GetConfigCount(data);
    :- Need(i <= total, IndexGreaterThanLength);
    :- Need(LineAt(i) + CONFIG_LINE_SIZE <= |data|, Aborted);
    var line := DecodeLine(data[LineAt(i)..LineAt(i) + CONFIG_LINE_SIZE]);
    if line.Some? then Ok(line.value) else Err(BorshIoError)
  }

  /** initialize_config on a zeroed account: the header, and the length of the mask, rounded down. */
  function InitializeConfig(size: nat, header: seq<byte>, creators: nat, max: u32): Result<seq<byte>, Error> {
    if size < MaskAt(max) + max / 8 then Err(ConstraintRaw)
    else
      :- Need(creators <= 4, TooManyCreators);
      :- Need(|header| <= LineAt(max), Aborted);
      Ok(Overwrite(Overwrite(Zeros(size), 0, header), LineAt(max), LittleEndian(max / 8, 4)))
  }

  function EncodeLines(lines: seq<ConfigLine>): (b: seq<byte>)
    requires AllFit(lines)
    ensures |b| == 240 * |lines|
  {
    if lines == [] then []
    else EncodeLines(lines[..|lines| - 1]) + EncodeLine(Padded(lines[|lines| - 1]))
  }

  datatype Marked = Marked(data: seq<byte>, count: nat)

  /** Marks one line as written; the count grows when its bit was clear. */
  function MarkLine(m: Marked, mask: nat, i: nat): Result<Marked, Error> {
    if mask + i / 8 >= |m.data| then Err(Aborted)
    else
      var former := m.data[mask + i / 8];
      SetBitByte(former, 7 - i % 8);
      var marked: byte := SetBit(former, 7 - i % 8);
      Ok(Marked(m.data[mask + i / 8 := marked], if former != marked then m.count + 1 else m.count))
  }

  function MarkLines(m: Marked, mask: nat, index: nat, n: nat): Result<Marked, Error> {
    if n == 0 then Ok(m)
    else
      var before :- MarkLines(m, mask, index, n - 1);
      MarkLine(before, mask, index + n - 1)
  }

  /** `max - 1` in 32 bits. */
  function LastIndex(max: u32): u32 {
    if max == 0 then U32_MAX else max - 1
  }

  /** The new count, cast to 32 bits, in front of the lines. */
  function Count(marked: Result<Marked, Error>): Result<seq<byte>, Error> {
    var m :- marked;
    :- Need(CONFIG_ARRAY_START + 4 <= |m.data|, Aborted);
    Ok(Overwrite(m.data, CONFIG_ARRAY_START, LittleEndian(m.count, 4)))
  }

  function AddConfigLines(data: seq<byte>, max: u32, index: u32, lines: seq<ConfigLine>): Result<seq<byte>, Error> {
    var current :- GetConfigCount(data);
    :- Need(index <= LastIndex(max), IndexGreaterThanLength);
    :- Need(AllFit(lines), Aborted);
    var bytes := EncodeLines(lines);
    :- Need(LineAt(index) + |bytes| <= |data|, Aborted);
    Count(MarkLines(Marked(Overwrite(data, LineAt(index), bytes), current), MaskAt(max), index, |lines|))
  }

  // ---------------------------------------------------------------------------
  // What the buffer stands for

  /** The lines written so far, padded, by index. */
  type Lines = map<nat, ConfigLine>

  predicate LineStored(data: seq<byte>, i: nat, written: Lines)
    requires LineAt(i) + CONFIG_LINE_SIZE <= |data|
  {
    data[LineAt(i)..LineAt(i) + CONFIG_LINE_SIZE]
    == if i in written then EncodeLine(written[i]) else Zeros(CONFIG_LINE_SIZE)
  }

  ghost predicate LinesStored(data: seq<byte>, max: nat, written: Lines)
    requires LineAt(max) <= |data|
  {
    forall i: nat :: i < max ==> LineStored(data, i, written)
  }

  predicate IsMarked(data: seq<byte>, mask: nat, i: nat)
    requires mask + i / 8 < |data|
  {
    Bit(data[mask + i / 8], 7 - i % 8) == 1
  }

  ghost predicate MaskStored(data: seq<byte>, max: nat, written: Lines)
    requires MaskAt(max) + (max + 7) / 8 <= |data|
  {
    forall i: nat :: i < max ==> (IsMarked(data, MaskAt(max), i) <==> i in written)
  }

  ghost predicate Proper(max: nat, written: Lines) {
    forall i :: i in written ==> i < max && IsPadded(written[i])
  }

  /** The buffer holds exactly these lines: their bytes, their bits and their number. */
  ghost predicate Represents(data: seq<byte>, max: nat, written: Lines) {
    && MaskAt(max) + (max + 7) / 8 <= |data|
    && Proper(max, written)
    && LinesStored(data, max, written)
    && MaskStored(data, max, written)
    && GetConfigCount(data) == Ok(|written|)
  }

  /** The lines after a batch. */
  function WithLines(written: Lines, index: nat, lines: seq<ConfigLine>): Lines
    requires AllFit(lines)
  {
    if lines == [] then written
    else WithLines(written, index, lines[..|lines| - 1])[index + |lines| - 1 := Padded(lines[|lines| - 1])]
  }

  // ---------------------------------------------------------------------------
  // Patches of the buffer

  lemma OverwriteHere(data: seq<byte>, at: nat, bytes: seq<byte>)
    requires at + |bytes| <= |data|
    ensures Overwrite(data, at, bytes)[at..at + |bytes|] == bytes
  {
  }

  lemma SameWindow(a: seq<byte>, b: seq<byte>, low: nat, high: nat)
    requires low <= high <= |a| == |b|
    requires forall p :: low <= p < high ==> a[p] == b[p]
    ensures a[low..high] == b[low..high]
  {
  }

  lemma OverwriteConcat(data: seq<byte>, at: nat, x: seq<byte>, y: seq<byte>)
    requires at + |x| + |y| <= |data|
    ensures Overwrite(data, at, x + y) == Overwrite(Overwrite(data, at, x), at + |x|, y)
  {
    var once := Overwrite(data, at, x);
    assert once[..at + |x|] == data[..at] + x;
    assert once[at + |x| + |y|..] == data[at + |x| + |y|..];
    assert data[..at] + x + y == data[..at] + (x + y);
  }

  /** What lies outside the lines is untouched by writing lines, and vice versa. */
  lemma LinesUntouched(a: seq<byte>, b: seq<byte>, max: nat, written: Lines)
    requires LineAt(max) <= |a| == |b|
    requires LinesStored(a, max, written)
    requires forall p :: LineAt(0) <= p < LineAt(max) ==> a[p] == b[p]
    ensures LinesStored(b, max, written)
  {
    forall i: nat | i < max
      ensures LineStored(b, i, written)
    {
      assert LineStored(a, i, written);
      SameWindow(a, b, LineAt(i), LineAt(i) + CONFIG_LINE_SIZE);
    }
  }

  lemma MaskUntouched(a: seq<byte>, b: seq<byte>, max: nat, written: Lines)
    requires MaskAt(max) + (max + 7) / 8 <= |a| == |b|
    requires MaskStored(a, max, written)
    requires forall p :: MaskAt(max) <= p < |a| ==> a[p] == b[p]
    ensures MaskStored(b, max, written)
  {
    forall i: nat | i < max
      ensures IsMarked(b, MaskAt(max), i) <==> i in written
    {
      assert IsMarked(a, MaskAt(max), i) <==> i in written;
    }
  }

  lemma LineWritten(data: seq<byte>, max: nat, written: Lines, k: nat, line: ConfigLine, r: seq<byte>, after: Lines)
    requires LineAt(max) <= |data| && k < max && IsPadded(line)
    requires LinesStored(data, max, written)
    requires r == Overwrite(data, LineAt(k), EncodeLine(line)) && after == written[k := line]
    ensures LinesStored(r, max, after)
  {
    forall i: nat | i < max
      ensures LineStored(r, i, after)
    {
      assert LineStored(data, i, written);
      if i == k {
        OverwriteHere(data, LineAt(k), EncodeLine(line));
      } else {
        SameWindow(data, r, LineAt(i), LineAt(i) + CONFIG_LINE_SIZE);
      }
    }
  }

  lemma LinesLaidNext(data: seq<byte>, index: nat, lines: seq<ConfigLine>, n: nat)
    requires AllFit(lines) && |lines| == n > 0 && LineAt(index + n) <= |data|
    ensures Overwrite(data, LineAt(index), EncodeLines(lines))
         == Overwrite(Overwrite(data, LineAt(index), EncodeLines(lines[..n - 1])),
                      LineAt(index + n - 1), EncodeLine(Padded(lines[n - 1])))
  {
    OverwriteConcat(data, LineAt(index), EncodeLines(lines[..n - 1]), EncodeLine(Padded(lines[n - 1])));
  }

  lemma WithLinesNext(written: Lines, index: nat, lines: seq<ConfigLine>, n: nat)
    requires AllFit(lines) && |lines| == n > 0
    ensures WithLines(written, index, lines)
         == WithLines(written, index, lines[..n - 1])[index + n - 1 := Padded(lines[n - 1])]
  {
  }

  lemma {:induction false} LinesWritten(data: seq<byte>, max: nat, written: Lines, index: nat, lines: seq<ConfigLine>,
                                        n: nat, r: seq<byte>, after: Lines)
    requires LineAt(max) <= |data| && index + n <= max
    requires AllFit(lines) && |lines| == n
    requires LinesStored(data, max, written)
    requires r == Overwrite(data, LineAt(index), EncodeLines(lines)) && after == WithLines(written, index, lines)
    ensures LinesStored(r, max, after)
  {
    if n == 0 {
      assert r == data;
    } else {
      var laid := Overwrite(data, LineAt(index), EncodeLines(lines[..n - 1]));
      var earlier := WithLines(written, index, lines[..n - 1]);
      LinesWritten(data, max, written, index, lines[..n - 1], n - 1, laid, earlier);
      LinesLaidNext(data, index, lines, n);
      WithLinesNext(written, index, lines, n);
      LineWritten(laid, max, earlier, index + n - 1, Padded(lines[n - 1]), r, after);
    }
  }

  // ---------------------------------------------------------------------------
  // The mask

  lemma BitPosition(i: nat, k: nat)
    requires i / 8 == k / 8 && i % 8 == k % 8
    ensures i == k
  {
  }

  /** r marks the lines of `after` on m: their bits, their number, and nothing before the mask. */
  ghost predicate Marks(m: Marked, r: Result<Marked, Error>, max: nat, after: Lines)
    requires MaskAt(max) + (max + 7) / 8 <= |m.data|
  {
    && r.Ok?
    && |r.value.data| == |m.data|
    && (forall p :: 0 <= p < MaskAt(max) ==> r.value.data[p] == m.data[p])
    && MaskStored(r.value.data, max, after)
    && r.value.count == |after|
  }

  /** Marking a line sets its bit, no other, and counts it if it is new. */
  lemma LineMarked(m: Marked, max: nat, written: Lines, k: nat, line: ConfigLine)
    requires MaskAt(max) + (max + 7) / 8 <= |m.data| && k < max
    requires MaskStored(m.data, max, written) && m.count == |written|
    ensures Marks(m, MarkLine(m, MaskAt(max), k), max, written[k := line])
  {
    var mask := MaskAt(max);
    var former := m.data[mask + k / 8];
    var r := MarkLine(m, mask, k).value;
    var after := written[k := line];
    SetBitByte(former, 7 - k % 8);
    assert IsMarked(m.data, mask, k) <==> k in written;
    forall i: nat | i < max
      ensures IsMarked(r.data, mask, i) <==> i in after
    {
      assert IsMarked(m.data, mask, i) <==> i in written;
      SetBitAt(former, 7 - k % 8, 7 - i % 8);
      if i / 8 == k / 8 && i % 8 == k % 8 {
        BitPosition(i, k);
      }
    }
  }

  lemma MarksNext(m: Marked, before: Marked, max: nat, written: Lines, k: nat, line: ConfigLine,
                  r: Result<Marked, Error>, after: Lines)
    requires MaskAt(max) + (max + 7) / 8 <= |m.data| && k < max
    requires Marks(m, Ok(before), max, written)
    requires r == MarkLine(before, MaskAt(max), k) && after == written[k := line]
    ensures Marks(m, r, max, after)
  {
    LineMarked(before, max, written, k, line);
    MarksChain(m, before, r, max, after);
  }

  lemma MarksChain(m: Marked, between: Marked, r: Result<Marked, Error>, max: nat, after: Lines)
    requires MaskAt(max) + (max + 7) / 8 <= |m.data| == |between.data|
    requires forall p :: 0 <= p < MaskAt(max) ==> between.data[p] == m.data[p]
    requires Marks(between, r, max, after)
    ensures Marks(m, r, max, after)
  {
  }

  lemma {:induction false} LinesMarked(m: Marked, max: nat, written: Lines, index: nat, lines: seq<ConfigLine>, n: nat,
                                       r: Result<Marked, Error>, after: Lines)
    requires MaskAt(max) + (max + 7) / 8 <= |m.data| && index + |lines| <= max
    requires AllFit(lines) && |lines| == n
    requires MaskStored(m.data, max, written) && m.count == |written|
    requires r == MarkLines(m, MaskAt(max), index, n) && after == WithLines(written, index, lines)
    ensures Marks(m, r, max, after)
  {
    if n > 0 {
      var before := MarkLines(m, MaskAt(max), index, n - 1);
      var earlier := WithLines(written, index, lines[..n - 1]);
      LinesMarked(m, max, written, index, lines[..n - 1], n - 1, before, earlier);
      WithLinesNext(written, index, lines, n);
      OneMoreMarked(m, before, max, earlier, index, n, Padded(lines[n - 1]), r, after);
    }
  }

  lemma OneMoreMarked(m: Marked, before: Result<Marked, Error>, max: nat, written: Lines, index: nat, n: nat,
                      line: ConfigLine, r: Result<Marked, Error>, after: Lines)
    requires MaskAt(max) + (max + 7) / 8 <= |m.data| && 0 < n && index + n <= max
    requires Marks(m, before, max, written)
    requires before == MarkLines(m, MaskAt(max), index, n - 1) && r == MarkLines(m, MaskAt(max), index, n)
    requires after == written[index + n - 1 := line]
    ensures Marks(m, r, max, after)
  {
    MarksNext(m, before.value, max, written, index + n - 1, line, r, after);
  }

  // ---------------------------------------------------------------------------
  // The store

  lemma {:induction false} WithLinesProper(max: nat, written: Lines, index: nat, lines: seq<ConfigLine>)
    requires AllFit(lines)
    requires Proper(max, written) && index + |lines| <= max
    ensures Proper(max, WithLines(written, index, lines))
  {
    if lines != [] {
      WithLinesProper(max, written, index, lines[..|lines| - 1]);
    }
  }

  /** What a batch leaves at each index: its own line where it reaches, the former one elsewhere. */
  lemma {:induction false} WithLinesAt(written: Lines, index: nat, lines: seq<ConfigLine>, i: nat)
    requires AllFit(lines)
    ensures i in WithLines(written, index, lines) <==> i in written || index <= i < index + |lines|
    ensures index <= i < index + |lines| ==> WithLines(written, index, lines)[i] == Padded(lines[i - index])
    ensures i in written && !(index <= i < index + |lines|) ==> WithLines(written, index, lines)[i] == written[i]
  {
    if lines != [] {
      WithLinesAt(written, index, lines[..|lines| - 1], i);
    }
  }

  lemma {:induction false} NumbersBelow(max: nat, numbers: set<nat>)
    requires forall i :: i in numbers ==> i < max
    ensures |numbers| <= max
  {
    if max == 0 {
      assert numbers == {};
    } else {
      var last: nat := max - 1;
      NumbersBelow(last, numbers - {last});
    }
  }

  lemma CountWritten(data: seq<byte>, max: nat, written: Lines)
    requires MaskAt(max) + (max + 7) / 8 <= |data|
    requires Proper(max, written) && LinesStored(data, max, written) && MaskStored(data, max, written)
    requires |written| <= U32_MAX
    ensures Represents(Overwrite(data, CONFIG_ARRAY_START, LittleEndian(|written|, 4)), max, written)
  {
    var r := Overwrite(data, CONFIG_ARRAY_START, LittleEndian(|written|, 4));
    OverwriteHere(data, CONFIG_ARRAY_START, LittleEndian(|written|, 4));
    U32RoundTrip(|written|);
    LinesUntouched(data, r, max, written);
    MaskUntouched(data, r, max, written);
  }

  /** First the lines are laid down; the mask still speaks of the former ones. */
  lemma LinesLaid(data: seq<byte>, max: u32, written: Lines, index: u32, lines: seq<ConfigLine>)
    requires Represents(data, max, written) && index + |lines| <= max
    requires AllFit(lines)
    ensures var laid := Overwrite(data, LineAt(index), EncodeLines(lines));
      LinesStored(laid, max, WithLines(written, index, lines)) && MaskStored(laid, max, written)
  {
    LinesWritten(data, max, written, index, lines, |lines|, Overwrite(data, LineAt(index), EncodeLines(lines)),
                 WithLines(written, index, lines));
    MaskUntouched(data, Overwrite(data, LineAt(index), EncodeLines(lines)), max, written);
  }

  /** Then they are marked and counted. */
  lemma LaidLinesCounted(laid: seq<byte>, max: u32, marked: Result<Marked, Error>, after: Lines, m: Marked)
    requires MaskAt(max) + (max + 7) / 8 <= |laid| && Proper(max, after)
    requires LinesStored(laid, max, after)
    requires m.data == laid && Marks(m, marked, max, after)
    ensures Count(marked).Ok? && Represents(Count(marked).value, max, after)
  {
    LinesUntouched(laid, marked.value.data, max, after);
    NumbersBelow(max, after.Keys);
    CountWritten(marked.value.data, max, after);
  }

  lemma AddIsMarked(data: seq<byte>, max: u32, index: u32, lines: seq<ConfigLine>, current: nat)
    requires GetConfigCount(data) == Ok(current)
    requires index < max && AllFit(lines) && LineAt(index) + |EncodeLines(lines)| <= |data|
    ensures AddConfigLines(data, max, index, lines) ==
            Count(MarkLines(Marked(Overwrite(data, LineAt(index), EncodeLines(lines)), current),
                            MaskAt(max), index, |lines|))
  {
  }

  /**
   A batch that fits succeeds, and the buffer then holds the former lines with
   the batch laid over them; rewriting a line does not count it twice.
   */
  lemma AddKeepsStore(data: seq<byte>, max: u32, written: Lines, index: u32, lines: seq<ConfigLine>)
    requires Represents(data, max, written)
    requires index < max && index + |lines| <= max
    requires AllFit(lines)
    ensures AddConfigLines(data, max, index, lines).Ok?
    ensures Represents(AddConfigLines(data, max, index, lines).value, max, WithLines(written, index, lines))
  {
    var after := WithLines(written, index, lines);
    var m := Marked(Overwrite(data, LineAt(index), EncodeLines(lines)), |written|);
    var marked := MarkLines(m, MaskAt(max), index, |lines|);
    AddIsMarked(data, max, index, lines, |written|);
    LinesLaid(data, max, written, index, lines);
    LinesMarked(m, max, written, index, lines, |lines|, marked, after);
    WithLinesProper(max, written, index, lines);
    LaidLinesCounted(m.data, max, marked, after, m);
  }

  /** Only the first index is checked; an accepted batch is stored faithfully exactly when its last index fits too. */
  lemma AddFaithfulIff(data: seq<byte>, max: u32, written: Lines, index: u32, lines: seq<ConfigLine>)
    requires Represents(data, max, written)
    requires index < max && AllFit(lines)
    requires AddConfigLines(data, max, index, lines).Ok?
    ensures Represents(AddConfigLines(data, max, index, lines).value, max, WithLines(written, index, lines))
            <==> index + |lines| <= max
  {
    if index + |lines| <= max {
      AddKeepsStore(data, max, written, index, lines);
    } else {
      WithLinesAt(written, index, lines, index + |lines| - 1);
      assert index + |lines| - 1 in WithLines(written, index, lines);
    }
  }

  /** A window of a window. */
  lemma InnerWindow(b: seq<byte>, at: nat, length: nat, from: nat, to: nat)
    requires from <= to <= length && at + length <= |b|
    ensures b[at..at + length][from..to] == b[at + from..at + to]
  {
    var window := b[at..at + length];
    forall i | 0 <= i < to - from
      ensures window[from..to][i] == b[at + from..at + to][i]
    {
      assert window[from + i] == b[at + from + i];
    }
  }

  lemma {:induction false} EncodeLinesAt(lines: seq<ConfigLine>, j: nat, at: nat)
    requires AllFit(lines) && j < |lines| && at == 240 * j
    ensures EncodeLines(lines)[at..at + 240] == EncodeLine(Padded(lines[j]))
  {
    var n := |lines| - 1;
    var front, back := EncodeLines(lines[..n]), EncodeLine(Padded(lines[n]));
    assert EncodeLines(lines) == front + back;
    if j < n {
      EncodeLinesAt(lines[..n], j, at);
      LineInFront(front, back, at);
    } else {
      LineAtTheEnd(front, back, at);
    }
  }

  lemma LineInFront(front: seq<byte>, back: seq<byte>, at: nat)
    requires at + 240 <= |front|
    ensures (front + back)[at..at + 240] == front[at..at + 240]
  {
  }

  lemma LineAtTheEnd(front: seq<byte>, back: seq<byte>, at: nat)
    requires at == |front| && |back| == 240
    ensures (front + back)[at..at + 240] == back
  {
  }

  lemma StringStart(s: seq<byte>, rest: seq<byte>)
    ensures (EncodeString(s) + rest)[..4] == LittleEndian(|s|, 4)
  {
  }

  /** Every line starts with the length of its padded name. */
  lemma LineStart(lines: seq<ConfigLine>, j: nat, at: nat, length: nat)
    requires AllFit(lines) && j < |lines| && at == 240 * j && length == MAX_NAME_LENGTH
    ensures EncodeLines(lines)[at..at + 4] == LittleEndian(length, 4)
  {
    EncodeLinesAt(lines, j, at);
    var line := Padded(lines[j]);
    StringStart(line.name, EncodeString(line.uri));
    InnerWindow(EncodeLines(lines), at, 240, 0, 4);
  }

  /** Marking lines writes nothing before the mask, however many there are. */
  lemma {:induction false} MarksStayInMask(m: Marked, mask: nat, index: nat, n: nat)
    requires MarkLines(m, mask, index, n).Ok? && mask <= |m.data|
    ensures |MarkLines(m, mask, index, n).value.data| == |m.data|
    ensures MarkLines(m, mask, index, n).value.data[..mask] == m.data[..mask]
  {
    if n > 0 {
      MarksStayInMask(m, mask, index, n - 1);
    }
  }

  /** What lies where the mask's length is stored once the lines have been laid down. */
  lemma MaskLengthLaid(data: seq<byte>, max: u32, index: u32, lines: seq<ConfigLine>, laid: seq<byte>, length: nat)
    requires MaskAt(max) <= |data| && index < max < index + |lines| && AllFit(lines)
    requires LineAt(index + |lines|) <= |data|
    requires laid == Overwrite(data, LineAt(index), EncodeLines(lines)) && length == MAX_NAME_LENGTH
    ensures laid[LineAt(max)..LineAt(max) + 4] == LittleEndian(length, 4)
  {
    var j := max - index;
    LineStart(lines, j, 240 * j, length);
    OverwriteHere(data, LineAt(index), EncodeLines(lines));
    InnerWindow(laid, LineAt(index), 240 * |lines|, 240 * j, 240 * j + 4);
  }

  /** After the lines nothing touches the mask's length again. */
  lemma MaskLengthStays(data: seq<byte>, max: u32, index: u32, lines: seq<ConfigLine>, laid: seq<byte>, r: seq<byte>)
    requires MaskAt(max) <= |data| && index < max && AllFit(lines) && LineAt(index + |lines|) <= |data|
    requires laid == Overwrite(data, LineAt(index), EncodeLines(lines))
    requires AddConfigLines(data, max, index, lines) == Ok(r)
    ensures |r| == |data| && r[LineAt(max)..LineAt(max) + 4] == laid[LineAt(max)..LineAt(max) + 4]
  {
    var current := GetConfigCount(data).value;
    AddIsMarked(data, max, index, lines, current);
    MarksStayInMask(Marked(laid, current), MaskAt(max), index, |lines|);
    MaskLengthCounted(MarkLines(Marked(laid, current), MaskAt(max), index, |lines|), laid, max, r);
  }

  lemma MaskLengthCounted(marked: Result<Marked, Error>, laid: seq<byte>, max: nat, r: seq<byte>)
    requires marked.Ok? && |marked.value.data| == |laid| && MaskAt(max) <= |laid|
    requires marked.value.data[..MaskAt(max)] == laid[..MaskAt(max)]
    requires Count(marked) == Ok(r)
    ensures |r| == |laid| && r[LineAt(max)..LineAt(max) + 4] == laid[LineAt(max)..LineAt(max) + 4]
  {
    SameWindow(marked.value.data, r, LineAt(max), LineAt(max) + 4);
    InnerWindow(laid, 0, MaskAt(max), LineAt(max), LineAt(max) + 4);
    InnerWindow(marked.value.data, 0, MaskAt(max), LineAt(max), LineAt(max) + 4);
  }

  /**
   An accepted batch leaves the stored length of the mask alone exactly when it
   ends within the lines, or the length happens to be that of a name: a batch
   that runs over writes its line's first bytes there.
   */
  lemma MaskLengthKeptIff(data: seq<byte>, max: u32, index: u32, lines: seq<ConfigLine>, r: seq<byte>, length: u32)
    requires MaskAt(max) <= |data| && length == MAX_NAME_LENGTH
    requires data[LineAt(max)..LineAt(max) + 4] == LittleEndian(max / 8, 4)
    requires index < max && AllFit(lines) && AddConfigLines(data, max, index, lines) == Ok(r)
    ensures LineAt(max) + 4 <= |r|
    ensures index + |lines| > max ==> r[LineAt(max)..LineAt(max) + 4] == LittleEndian(length, 4)
    ensures r[LineAt(max)..LineAt(max) + 4] == LittleEndian(max / 8, 4) <==> index + |lines| <= max || max / 8 == length
  {
    var laid := Overwrite(data, LineAt(index), EncodeLines(lines));
    MaskLengthStays(data, max, index, lines, laid, r);
    if index + |lines| <= max {
      SameWindow(data, laid, LineAt(max), LineAt(max) + 4);
    } else {
      MaskLengthLaid(data, max, index, lines, laid, length);
      U32RoundTrip(max / 8);
      U32RoundTrip(length);
    }
  }

  /** Two lines in an account for one: the second lies over the mask; with a zero digit leading its name, both count. */
  lemma OverrunCountsTwo(data: seq<byte>, a: ConfigLine, b: ConfigLine, max: u32)
    requires max == 1 && Represents(data, max, map[]) && |data| >= LineAt(2)
    requires Fits(a) && Fits(b) && |b.name| > 0 && b.name[0] == 0x30
    ensures AddConfigLines(data, max, 0, [a, b]).Ok?
    ensures GetConfigCount(AddConfigLines(data, max, 0, [a, b]).value) == Ok(2)
  {
    var lines := [a, b];
    var bytes := EncodeLines(lines);
    var laid := Overwrite(data, LineAt(0), bytes);
    var mask := MaskAt(1);
    SecondLineOnMask(data, a, b);
    AddIsMarked(data, max, 0, lines, 0);
    var m := Marked(laid, 0);
    assert MarkLines(m, mask, 0, 1) == MarkLine(m, mask, 0);
    var one := MarkLines(m, mask, 0, 1).value;
    FirstBits();
    assert one.count == 1 && one.data[mask] == 0xB0;
    assert MarkLines(m, mask, 0, 2) == MarkLine(one, mask, 1);
    var two := MarkLines(m, mask, 0, 2).value;
    assert two.count == 2;
    OverwriteHere(two.data, CONFIG_ARRAY_START, LittleEndian(two.count, 4));
    U32RoundTrip(two.count);
  }

  lemma FirstBits()
    ensures Bit(0x30, 7) == 0 && Bit(0xB0, 6) == 0 && Pow2(7) == 128
  {
    assert Bit(0x30, 7) == Bit(6, 4) == Bit(0, 0);
    assert Bit(0xB0, 6) == Bit(22, 3) == Bit(2, 0);
    assert Pow2(7) == 8 * Pow2(4);
  }

  lemma SecondLineOnMask(data: seq<byte>, a: ConfigLine, b: ConfigLine)
    requires |data| >= LineAt(2)
    requires Fits(a) && Fits(b) && |b.name| > 0
    ensures |EncodeLines([a, b])| == 480
    ensures Overwrite(data, LineAt(0), EncodeLines([a, b]))[MaskAt(1)] == b.name[0]
  {
    var lines := [a, b];
    assert lines[..1] == [a] && [a][..0] == [];
    assert EncodeLines(lines) == EncodeLines([a]) + EncodeLine(Padded(b));
    assert EncodeLine(Padded(b))[4] == b.name[0];
  }

  /** Reading an index up to the count gives the last line written there, padded, and fails if there is none. */
  lemma GetGivesWritten(data: seq<byte>, max: nat, written: Lines, i: nat)
    requires Represents(data, max, written)
    requires i < max && i <= |written|
    ensures GetConfigLine(data, i) == if i in written then Ok(written[i]) else Err(BorshIoError)
  {
    assert LineStored(data, i, written);
    if i in written {
      LineRoundTrip(written[i]);
    } else {
      BlankIsNoLine(CONFIG_LINE_SIZE);
    }
  }

  /** The given string, and zeros up to the length of a field. */
  predicate FieldOf(field: seq<byte>, given: seq<byte>, length: nat) {
    && |given| <= |field| == length
    && field[..|given|] == given
    && forall k :: |given| <= k < |field| ==> field[k] == 0
  }

  /** The line shows the given name in 32 bytes and the given uri in 200. */
  predicate Shows(line: ConfigLine, given: ConfigLine) {
    FieldOf(line.name, given.name, 32) && FieldOf(line.uri, given.uri, 200)
  }

  lemma PaddedShows(line: ConfigLine)
    requires Fits(line)
    ensures Shows(Padded(line), line)
  {
  }

  lemma SameField(a: seq<byte>, b: seq<byte>, given: seq<byte>, length: nat)
    requires FieldOf(a, given, length) && FieldOf(b, given, length)
    ensures a == b
  {
    assert a == a[..|given|] + a[|given|..];
    assert b == b[..|given|] + b[|given|..];
  }

  /** And no other line does. */
  lemma ShowsIff(line: ConfigLine, given: ConfigLine)
    requires Fits(given)
    ensures Shows(line, given) <==> line == Padded(given)
  {
    PaddedShows(given);
    if Shows(line, given) {
      SameField(line.name, Padded(given).name, given.name, 32);
      SameField(line.uri, Padded(given).uri, given.uri, 200);
    }
  }

  /** A line that a batch within max has written reads back as it was given, with zeros behind. */
  lemma WrittenReadsBack(data: seq<byte>, max: u32, written: Lines, index: u32, lines: seq<ConfigLine>, i: nat,
                         r: seq<byte>)
    requires Represents(data, max, written)
    requires AllFit(lines) && index + |lines| <= max && index <= i < index + |lines|
    requires AddConfigLines(data, max, index, lines) == Ok(r)
    ensures GetConfigCount(r).Ok?
    ensures GetConfigLine(r, i).Ok? <==> i <= GetConfigCount(r).value
    ensures GetConfigLine(r, i).Ok? ==> Shows(GetConfigLine(r, i).value, lines[i - index])
  {
    AddKeepsStore(data, max, written, index, lines);
    WithLinesAt(written, index, lines, i);
    PaddedShows(lines[i - index]);
    if i <= GetConfigCount(r).value {
      GetGivesWritten(r, max, WithLines(written, index, lines), i);
    }
  }

  /** A header with at most four creators ends before the count. */
  function HeaderSize(creators: nat): nat {
    8 + 32 + (4 + 6) + (4 + 10) + 2 + (4 + 34 * creators) + 8 + 1 + 1 + 4
  }

  /** The count and the lines follow the fields of a config with five creators; the account's own tag is not counted. */
  lemma ArrayFollowsFields(data: seq<byte>, start: nat)
    requires start == 32 + (4 + 6) + (4 + 10) + 2 + (1 + 4 + 5 * 34) + 8 + 1 + 1 + 4 && |data| >= start + 4
    ensures GetConfigCount(data) == Ok(FromLittleEndian(data[start..start + 4]))
    ensures forall i: nat :: LineAt(i) == start + 4 + i * (4 + 32 + 4 + 200)
  {
  }

  /** A new account with a byte for every eight lines, rounded up, holds no lines. */
  lemma InitialStore(size: nat, header: seq<byte>, creators: nat, max: u32)
    requires |header| == HeaderSize(creators) && creators <= 4
    requires size >= MaskAt(max) + (max + 7) / 8
    ensures InitializeConfig(size, header, creators, max).Ok?
    ensures Represents(InitializeConfig(size, header, creators, max).value, max, map[])
  {
    var data := InitializeConfig(size, header, creators, max).value;
    forall i: nat | i < max
      ensures LineStored(data, i, map[])
    {
      SameWindow(Zeros(size), data, LineAt(i), LineAt(i) + CONFIG_LINE_SIZE);
      assert Zeros(size)[LineAt(i)..LineAt(i) + CONFIG_LINE_SIZE] == Zeros(CONFIG_LINE_SIZE);
    }
    forall i: nat | i < max
      ensures !IsMarked(data, MaskAt(max), i)
    {
      BitOfZero(7 - i % 8);
    }
    ZeroIsZero(data[CONFIG_ARRAY_START..CONFIG_ARRAY_START + 4]);
  }

  /** A config account is accepted with room for its lines and a byte for every eight, rounded down. */
  lemma InitializeSucceedsIff(size: nat, header: seq<byte>, creators: nat, max: u32)
    requires |header| == HeaderSize(creators)
    ensures InitializeConfig(size, header, creators, max).Ok? <==>
            creators <= 4 && size >= 251 + 240 * max + 4 + max / 8
  {
  }

  lemma MarksOneMore(m: Marked, mask: nat, index: nat, n: nat, before: Marked)
    requires MarkLines(m, mask, index, n) == Ok(before)
    ensures MarkLines(m, mask, index, n + 1) == MarkLine(before, mask, index + n)
  {
  }

  lemma {:induction false} MarksReach(m: Marked, mask: nat, index: nat, n: nat)
    ensures MarkLines(m, mask, index, n).Ok? <==> n == 0 || mask + (index + n - 1) / 8 < |m.data|
    ensures MarkLines(m, mask, index, n).Ok? ==> |MarkLines(m, mask, index, n).value.data| == |m.data|
  {
    if n > 0 {
      MarksReach(m, mask, index, n - 1);
    }
  }

  /**
   The account need only have max / 8 mask bytes, rounded down. A batch within
   the lines then succeeds exactly when the mask reaches its last line, so the
   last max % 8 lines may have no bit to set.
   */
  lemma AddSucceedsIff(data: seq<byte>, max: u32, index: u32, lines: seq<ConfigLine>)
    requires |data| >= MaskAt(max) + max / 8
    requires index < max && index + |lines| <= max
    requires AllFit(lines)
    ensures AddConfigLines(data, max, index, lines).Ok? <==>
            lines == [] || MaskAt(max) + (index + |lines| - 1) / 8 < |data|
  {
    var current := GetConfigCount(data).value;
    AddIsMarked(data, max, index, lines, current);
    MarksReach(Marked(Overwrite(data, LineAt(index), EncodeLines(lines)), current), MaskAt(max), index, |lines|);
  }

  /**
   In any account, a batch is accepted exactly when its first index is a line,
   its strings fit, its lines end within the account and so do its marks.
   */
  lemma AddAcceptedIff(data: seq<byte>, max: u32, index: u32, lines: seq<ConfigLine>)
    requires |data| >= 251 && max > 0
    ensures AddConfigLines(data, max, index, lines).Ok? <==>
            && index < max
            && (forall i :: 0 <= i < |lines| ==> |lines[i].name| <= 32 && |lines[i].uri| <= 200)
            && 251 + 240 * (index + |lines|) <= |data|
            && (lines == [] || 251 + 240 * max + 4 + (index + |lines| - 1) / 8 < |data|)
  {
    if index < max && AllFit(lines) && LineAt(index) + |EncodeLines(lines)| <= |data| {
      var current := GetConfigCount(data).value;
      AddIsMarked(data, max, index, lines, current);
      MarksReach(Marked(Overwrite(data, LineAt(index), EncodeLines(lines)), current), MaskAt(max), index, |lines|);
    }
  }

  /** With the smallest account that passes, the last of nine lines cannot be added. */
  lemma NinthLineAborts(data: seq<byte>, line: ConfigLine)
    requires |data| == MaskAt(9) + 9 / 8 && Fits(line)
    ensures AddConfigLines(data, 9, 8, [line]) == Err(Aborted)
  {
    assert EncodeLines([line]) == EncodeLines([line][..0]) + EncodeLine(Padded(line));
    var laid := Overwrite(data, LineAt(8), EncodeLines([line]));
    var m := Marked(laid, GetConfigCount(data).value);
    assert MarkLines(m, MaskAt(9), 8, 0) == Ok(m);
    assert MarkLines(m, MaskAt(9), 8, 1) == MarkLine(m, MaskAt(9), 8);
  }

  // ---------------------------------------------------------------------------
  // The account, patched in place

  class ConfigAccount {
    const data: array<byte>
    const max: u32

    /** A new account is all zeros. */
    constructor (size: nat, max: u32)
      ensures this.max == max && data[..] == Zeros(size) && fresh(data)
    {
      this.max := max;
      data := new byte[size](_ => 0);
    }

    /** `copy_from_slice` into a window of the account. */
    method Put(at: nat, bytes: seq<byte>)
      requires at + |bytes| <= data.Length
      modifies data
      ensures data[..] == Overwrite(old(data[..]), at, bytes)
    {
      forall i | 0 <= i < |bytes| {
        data[at + i] := bytes[i];
      }
    }

    /** initialize_config */
    method Initialize(header: seq<byte>, creators: nat) returns (r: Result<(), Error>)
      requires data[..] == Zeros(data.Length)
      modifies data
      ensures match InitializeConfig(data.Length, header, creators, max)
              case Ok(bytes) => r == Ok(()) && data[..] == bytes
              case Err(e) => r == Err(e) && data[..] == old(data[..])
    {
      if data.Length < MaskAt(max) + max / 8 {
        return Err(ConstraintRaw);
      }
      if creators > 4 {
        return Err(TooManyCreators);
      }
      if |header| > LineAt(max) {
        return Err(Aborted);
      }
      Put(0, header);
      Put(LineAt(max), LittleEndian(max / 8, 4));
      r := Ok(());
    }

    /** Zeros are pushed until the string has its full length. */
    static method Pad(s: seq<byte>, length: nat) returns (padded: seq<byte>)
      requires |s| <= length
      ensures padded == s + Zeros(length - |s|)
    {
      var zeros: seq<byte> := [];
      while |zeros| < length - |s|
        invariant |zeros| <= length - |s|
        invariant zeros == Zeros(|zeros|)
      {
        zeros := zeros + [0];
      }
      padded := s + zeros;
    }

    static method PadLine(line: ConfigLine) returns (r: Result<ConfigLine, Error>)
      ensures r == if Fits(line) then Ok(Padded(line)) else Err(Aborted)
    {
      if |line.name| > MAX_NAME_LENGTH || |line.uri| > MAX_URI_LENGTH {
        return Err(Aborted);
      }
      var name := Pad(line.name, MAX_NAME_LENGTH);
      var uri := Pad(line.uri, MAX_URI_LENGTH);
      r := Ok(ConfigLine(name, uri));
    }

    static method Serialize(lines: seq<ConfigLine>) returns (r: Result<seq<byte>, Error>)
      ensures match r
              case Ok(bytes) => AllFit(lines) && bytes == EncodeLines(lines)
              case Err(e) => e == Aborted && !AllFit(lines)
    {
      var bytes := [];
      for i := 0 to |lines|
        invariant AllFit(lines[..i])
        invariant bytes == EncodeLines(lines[..i])
      {
        var line := PadLine(lines[i]);
        if line.Err? {
          assert !Fits(lines[i]);
          return Err(line.error);
        }
        EncodeLinesNext(lines, i);
        bytes := bytes + EncodeLine(line.value);
      }
      assert lines[..|lines|] == lines;
      r := Ok(bytes);
    }

    /** One turn of the loop over the mask. */
    method MarkOne(position: nat, current: nat) returns (r: Result<nat, Error>)
      modifies data
      ensures match MarkLine(Marked(old(data[..]), current), MaskAt(max), position)
              case Ok(m) => r == Ok(m.count) && data[..] == m.data
              case Err(e) => r == Err(e)
    {
      var at := MaskAt(max) + position / 8;
      if at >= data.Length {
        return Err(Aborted);
      }
      var former := data[at];
      SetBitByte(former, 7 - position % 8);
      data[at] := SetBit(former, 7 - position % 8);
      assert data[..] == old(data[..])[at := data[at]];
      r := Ok(if former != data[at] then current + 1 else current);
    }

    /** The loop over the mask; it stops where the account ends. */
    method Mark(index: u32, n: nat, current: nat) returns (r: Result<nat, Error>)
      modifies data
      ensures match MarkLines(Marked(old(data[..]), current), MaskAt(max), index, n)
              case Ok(m) => r == Ok(m.count) && data[..] == m.data
              case Err(e) => r == Err(e)
    {
      var count := current;
      ghost var start := Marked(old(data[..]), current);
      for i := 0 to n
        invariant MarkLines(start, MaskAt(max), index, i) == Ok(Marked(data[..], count))
      {
        ghost var before := Marked(data[..], count);
        MarksOneMore(start, MaskAt(max), index, i, before);
        var marked := MarkOne(index + i, count);
        if marked.Err? {
          MarksStop(start, MaskAt(max), index, i + 1, n);
          return marked;
        }
        count := marked.value;
        assert MarkLine(before, MaskAt(max), index + i) == Ok(Marked(data[..], count));
      }
      r := Ok(count);
    }

    /** add_config_lines; a failed transaction is rolled back by the runtime. */
    method Add(index: u32, lines: seq<ConfigLine>) returns (r: Result<(), Error>)
      modifies data
      ensures match AddConfigLines(old(data[..]), max, index, lines)
              case Ok(bytes) => r == Ok(()) && data[..] == bytes
              case Err(e) => r == Err(e) && data[..] == old(data[..])
    {
      var saved := data[..];
      var current := Count();
      if current.Err? {
        return Err(current.error);
      }
      if index > LastIndex(max) {
        return Err(IndexGreaterThanLength);
      }
      var serialized := Serialize(lines);
      if serialized.Err? {
        return Err(serialized.error);
      }
      if LineAt(index) + |serialized.value| > data.Length {
        return Err(Aborted);
      }
      Put(LineAt(index), serialized.value);
      var count := Mark(index, |lines|, current.value);
      if count.Err? {
        Restore(saved);
        return Err(count.error);
      }
      Put(CONFIG_ARRAY_START, LittleEndian(count.value, 4));
      r := Ok(());
    }

    method Restore(saved: seq<byte>)
      requires |saved| == data.Length
      modifies data
      ensures data[..] == saved
    {
      forall i | 0 <= i < data.Length {
        data[i] := saved[i];
      }
    }

    method Count() returns (r: Result<nat, Error>)
      ensures r == GetConfigCount(data[..])
    {
      if data.Length < CONFIG_ARRAY_START + 4 {
        return Err(Aborted);
      }
      assert data[CONFIG_ARRAY_START..CONFIG_ARRAY_START + 4] == data[..][CONFIG_ARRAY_START..CONFIG_ARRAY_START + 4];
      var count: nat := FromLittleEndian(data[CONFIG_ARRAY_START..CONFIG_ARRAY_START + 4]);
      r := Ok(count);
    }

    method Get(i: nat) returns (r: Result<ConfigLine, Error>)
      ensures r == GetConfigLine(data[..], i)
    {
      var total := Count();
      if total.Err? {
        return Err(total.error);
      }
      if i > total.value {
        return Err(IndexGreaterThanLength);
      }
      if LineAt(i) + CONFIG_LINE_SIZE > data.Length {
        return Err(Aborted);
      }
      assert data[LineAt(i)..LineAt(i) + CONFIG_LINE_SIZE] == data[..][LineAt(i)..LineAt(i) + CONFIG_LINE_SIZE];
      var line := DecodeLine(data[LineAt(i)..LineAt(i) + CONFIG_LINE_SIZE]);
      r := if line.Some? then Ok(line.value) else Err(BorshIoError);
    }
  }

  lemma EncodeLinesNext(lines: seq<ConfigLine>, i: nat)
    requires i < |lines| && AllFit(lines[..i]) && Fits(lines[i])
    ensures AllFit(lines[..i + 1])
    ensures EncodeLines(lines[..i + 1]) == EncodeLines(lines[..i]) + EncodeLine(Padded(lines[i]))
  {
    assert lines[..i + 1][..i] == lines[..i];
  }

  /** Once a mark falls off the account the rest cannot be made. */
  lemma {:induction false} MarksStop(m: Marked, mask: nat, index: nat, i: nat, n: nat)
    requires i <= n && MarkLines(m, mask, index, i).Err?
    ensures MarkLines(m, mask, index, n) == MarkLines(m, mask, index, i)
  {
    if i < n {
      MarksStop(m, mask, index, i, n - 1);
    }
  }
}
