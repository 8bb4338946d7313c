/**
 The cheap readers of an auction account (rust/auction/program/src/processor.rs):
 they pick single fields out of the stored bytes by walking offsets, and must
 agree with the fully decoded auction.
 */
module AuctionReaders {
  import opened Prelude
  import opened Borsh
  import opened BidBook
  import opened BidRuns

  // ---------------------------------------------------------------------------
  // The decoded auction and its encoding

  type Hash = h: seq<byte> | |h| == 32 witness seq(32, _ => 0)

  datatype PriceFloor =
    | NoFloor(filler: Hash)
    | MinimumPrice(first: u64, rest: (u64, u64, u64))
    | BlindedPrice(hash: Hash)

  datatype BidKind = EnglishAuction | OpenEdition

  type BidList = s: seq<Bid> | |s| <= U32_MAX

  datatype AuctionData = AuctionData(
    authority: Pubkey,
    tokenMint: Pubkey,
    lastBid: Option<i64>,
    endedAt: Option<i64>,
    endAuctionAt: Option<i64>,
    endAuctionGap: Option<i64>,
    priceFloor: PriceFloor,
    state: AuctionState,
    kind: BidKind,
    bids: BidList,
    max: u64
  )

  function EncodeTime(t: Option<i64>): seq<byte> {
    EncodeOption(if t.None? then None else Some(EncodeI64(t.value)))
  }

  function EncodeFloor(f: PriceFloor): (b: seq<byte>)
    ensures |b| == 33
  {
    match f
    case NoFloor(filler) => [0] + filler
    case MinimumPrice(first, rest) =>
      [1] + LittleEndian(first, 8) + LittleEndian(rest.0, 8) + LittleEndian(rest.1, 8) + LittleEndian(rest.2, 8)
    case BlindedPrice(hash) => [2] + hash
  }

  function StateTag(s: AuctionState): byte {
    match s
    case Created => 0
    case Started => 1
    case Ended => 2
  }

  function EncodeBid(b: Bid): (r: seq<byte>)
    ensures |r| == 40
  {
    b.key + LittleEndian(b.amount, 8)
  }

  function EncodeBids(bids: seq<Bid>): (r: seq<byte>)
    ensures |r| == 40 * |bids|
  {
    if bids == [] then [] else EncodeBids(bids[..|bids| - 1]) + EncodeBid(bids[|bids| - 1])
  }

  /** Everything before the timestamps, the timestamps, and the rest up to the first bid. */
  function EncodeKeys(a: AuctionData): (r: seq<byte>)
    ensures |r| == 64
  {
    a.authority + a.tokenMint
  }

  function EncodeTimes(a: AuctionData): seq<byte> {
    EncodeTime(a.lastBid) + EncodeTime(a.endedAt) + EncodeTime(a.endAuctionAt) + EncodeTime(a.endAuctionGap)
  }

  function EncodeMiddle(a: AuctionData): (r: seq<byte>)
    ensures |r| == 39
  {
    EncodeFloor(a.priceFloor) + [StateTag(a.state)] + [if a.kind.EnglishAuction? then 0 else 1]
      + LittleEndian(|a.bids|, 4)
  }

  function Serialize(a: AuctionData): seq<byte> {
    EncodeKeys(a) + EncodeTimes(a) + EncodeMiddle(a) + EncodeBids(a.bids) + LittleEndian(a.max, 8)
  }

  // ---------------------------------------------------------------------------
  // Reading the decoded auction

  function MinimumOf(a: AuctionData): u64 {
    if a.priceFloor.MinimumPrice? then a.priceFloor.first else 0
  }

  function DecodedNumWinners(a: AuctionData): nat {
    if a.kind.EnglishAuction? then NumWinners(a.bids, a.max) else 0
  }

  function DecodedWinnerAt(a: AuctionData, index: nat): Option<Pubkey> {
    if a.kind.EnglishAuction? then WinnerAt(a.bids, a.max, index) else None
  }

  function DecodedIsWinner(a: AuctionData, key: Pubkey): Option<nat> {
    if a.kind.EnglishAuction? then IsWinner(a.bids, a.max, key, MinimumOf(a)) else None
  }

  // ---------------------------------------------------------------------------
  // The byte readers; an out-of-bounds access aborts

  datatype ReadError = InvalidAccountData | OutOfBounds

  function SkipTimes(data: seq<byte>, at: nat, n: nat): Option<nat> {
    if n == 0 then Some(at)
    else
      var before := SkipTimes(data, at, n - 1);
      if before.None? then None else SkipOption(data, before.value, 8)
  }

  /** find_bid_state_beginning: the position of the first bid. */
  function BidsBeginning(data: seq<byte>): (r: Option<nat>)
    ensures r.Some? ==> r.value >= 39
  {
    var times := SkipTimes(data, 64, 4);
    if times.None? then None else Some(times.value + 39)
  }

  method FindBidStateBeginning(data: seq<byte>) returns (r: Option<nat>)
    ensures r == BidsBeginning(data)
  {
    var at := 32 + 32;
    for i := 0 to 4
      invariant SkipTimes(data, 64, i) == Some(at)
    {
      if at >= |data| {
        assert SkipTimes(data, 64, i + 1) == None;
        TimesFailed(data, i + 1, 4);
        return None;
      }
      if data[at] == 1 {
        at := at + 9;
      } else {
        at := at + 1;
      }
    }
    r := Some(at + 1 + 32 + 1 + 4 + 1);
  }

  lemma {:induction false} TimesFailed(data: seq<byte>, i: nat, n: nat)
    requires i <= n && SkipTimes(data, 64, i) == None
    ensures SkipTimes(data, 64, n) == None
    decreases n
  {
    if i < n {
      TimesFailed(data, i, n - 1);
    }
  }

  function GetState(data: seq<byte>): Result<AuctionState, ReadError> {
    var first := BidsBeginning(data);
    :- Need(first.Some? && first.value - 6 < |data|, OutOfBounds);
    match data[first.value - 6]
    case 0 => Ok(Created)
    case 1 => Ok(Started)
    case 2 => Ok(Ended)
    case _ => Err(InvalidAccountData)
  }

  datatype VecInfo = VecInfo(first: nat, count: nat, max: nat)

  /** get_vec_info */
  function GetVecInfo(data: seq<byte>): Result<VecInfo, ReadError> {
    var first := BidsBeginning(data);
    :- Need(first.Some?, OutOfBounds);
    var countBytes := Window(data, first.value - 4, 4);
    :- Need(countBytes.Some?, OutOfBounds);
    var count := FromLittleEndian(countBytes.value);
    var maxBytes := Window(data, first.value + 40 * count, 8);
    :- Need(maxBytes.Some?, OutOfBounds);
    Ok(VecInfo(first.value, count, FromLittleEndian(maxBytes.value)))
  }

  function GetNumWinners(data: seq<byte>): Result<nat, ReadError> {
    var info :- GetVecInfo(data);
    Ok(if info.count <= info.max then info.count else info.max)
  }

  function WinnerKey(data: seq<byte>, info: VecInfo, index: nat): Result<Option<seq<byte>>, ReadError> {
    if index + 1 > info.count || index + 1 > info.max then Ok(None)
    else
      var key := Window(data, info.first + (info.count - index - 1) * 40, 32);
      :- Need(key.Some?, OutOfBounds);
      Ok(Some(key.value))
  }

  function GetWinnerAt(data: seq<byte>, index: nat): Result<Option<seq<byte>>, ReadError> {
    var info :- GetVecInfo(data);
    WinnerKey(data, info, index)
  }

  function GetWinnerBidAmountAt(data: seq<byte>, index: nat): Result<Option<nat>, ReadError> {
    var info :- GetVecInfo(data);
    WinnerAmount(data, info, index)
  }

  function WinnerAmount(data: seq<byte>, info: VecInfo, index: nat): Result<Option<nat>, ReadError> {
    if index + 1 > info.count || index + 1 > info.max then Ok(None)
    else
      var amount := Window(data, info.first + (info.count - index - 1) * 40 + 32, 8);
      :- Need(amount.Some?, OutOfBounds);
      Ok(Some(FromLittleEndian(amount.value)))
  }

  /** get_is_winner from a given place on. */
  function ScanWinners(data: seq<byte>, info: VecInfo, key: Pubkey, index: nat): Result<Option<nat>, ReadError>
    decreases info.count - index
  {
    if index >= info.count || index >= info.max then Ok(None)
    else
      var winner :- WinnerKey(data, info, index);
      if winner == Some(key) then Ok(Some(index)) else ScanWinners(data, info, key, index + 1)
  }

  /** Byte by byte, stopping at the first difference. */
  method KeysMatch(a: seq<byte>, b: seq<byte>) returns (matching: bool)
    requires |a| == |b|
    ensures matching <==> a == b
  {
    matching := true;
    for i := 0 to |a|
      invariant matching && forall j :: 0 <= j < i ==> a[j] == b[j]
    {
      if a[i] != b[i] {
        matching := false;
        break;
      }
    }
  }

  method GetIsWinner(data: seq<byte>, key: Pubkey) returns (r: Result<Option<nat>, ReadError>)
    ensures r == (var info := GetVecInfo(data);
                  if info.Err? then Err(info.error) else ScanWinners(data, info.value, key, 0))
  {
    var read := GetVecInfo(data);
    if read.Err? {
      return Err(read.error);
    }
    var info := read.value;
    var winners := if info.count <= info.max then info.count else info.max;
    for index := 0 to winners
      invariant ScanWinners(data, info, key, 0) == ScanWinners(data, info, key, index)
    {
      var winner := WinnerKey(data, info, index);
      if winner.Err? {
        return Err(winner.error);
      }
      if winner.value.None? {
        return Ok(None);
      }
      var matching := KeysMatch(winner.value.value, key);
      if matching {
        return Ok(Some(index));
      }
    }
    r := Ok(None);
  }

  // ---------------------------------------------------------------------------
  // Agreement on every encoded auction, whatever padding follows

  ghost predicate Stores(data: seq<byte>, a: AuctionData) {
    Serialize(a) <= data
  }

  lemma Regroup(k: seq<byte>, a: seq<byte>, b: seq<byte>, c: seq<byte>, d: seq<byte>, r: seq<byte>)
    ensures k + (a + b + c + d) + r == k + a + (b + c + d + r)
    ensures k + (a + b + c + d) + r == k + a + b + (c + d + r)
    ensures k + (a + b + c + d) + r == k + a + b + c + (d + r)
    ensures k + (a + b + c + d) + r == k + a + b + c + d + r
  {
  }

  lemma SkipsFourTimes(keys: seq<byte>, a: AuctionData, rest: seq<byte>)
    requires |keys| == 64
    ensures SkipTimes(keys + EncodeTimes(a) + rest, 64, 4) == Some(64 + |EncodeTimes(a)|)
  {
    var data := keys + EncodeTimes(a) + rest;
    var e1, e2 := EncodeTime(a.lastBid), EncodeTime(a.endedAt);
    var e3, e4 := EncodeTime(a.endAuctionAt), EncodeTime(a.endAuctionGap);
    Regroup(keys, e1, e2, e3, e4, rest);
    assert SkipOption(data, 64, 8) == Some(|keys + e1|) by {
      SkipsTime(data, keys, a.lastBid, e2 + e3 + e4 + rest);
    }
    assert SkipOption(data, |keys + e1|, 8) == Some(|keys + e1 + e2|) by {
      SkipsTime(data, keys + e1, a.endedAt, e3 + e4 + rest);
    }
    assert SkipOption(data, |keys + e1 + e2|, 8) == Some(|keys + e1 + e2 + e3|) by {
      SkipsTime(data, keys + e1 + e2, a.endAuctionAt, e4 + rest);
    }
    assert SkipOption(data, |keys + e1 + e2 + e3|, 8) == Some(|keys + e1 + e2 + e3 + e4|) by {
      SkipsTime(data, keys + e1 + e2 + e3, a.endAuctionGap, rest);
    }
    FourSkips(data, |keys + e1|, |keys + e1 + e2|, |keys + e1 + e2 + e3|, |keys + e1 + e2 + e3 + e4|);
  }

  lemma FourSkips(data: seq<byte>, p1: nat, p2: nat, p3: nat, p4: nat)
    requires SkipOption(data, 64, 8) == Some(p1) && SkipOption(data, p1, 8) == Some(p2)
    requires SkipOption(data, p2, 8) == Some(p3) && SkipOption(data, p3, 8) == Some(p4)
    ensures SkipTimes(data, 64, 4) == Some(p4)
  {
    assert SkipTimes(data, 64, 0) == Some(64);
    assert SkipTimes(data, 64, 1) == Some(p1);
    assert SkipTimes(data, 64, 2) == Some(p2);
    assert SkipTimes(data, 64, 3) == Some(p3);
  }

  lemma SkipsTime(data: seq<byte>, before: seq<byte>, t: Option<i64>, after: seq<byte>)
    requires data == before + EncodeTime(t) + after
    ensures SkipOption(data, |before|, 8) == Some(|before + EncodeTime(t)|)
  {
    SkipOptionOfMiddle(before, if t.None? then None else Some(EncodeI64(t.value)), after, 8);
  }

  /** The stored bytes around the bids: what comes before them, and what comes after. */
  function Head(a: AuctionData): seq<byte> {
    EncodeKeys(a) + EncodeTimes(a) + EncodeMiddle(a)
  }

  lemma BidsBegin(data: seq<byte>, a: AuctionData)
    requires Stores(data, a)
    ensures BidsBeginning(data) == Some(|Head(a)|)
  {
    var rest := EncodeMiddle(a) + EncodeBids(a.bids) + LittleEndian(a.max, 8) + data[|Serialize(a)|..];
    assert data == EncodeKeys(a) + EncodeTimes(a) + rest;
    SkipsFourTimes(EncodeKeys(a), a, rest);
  }

  lemma MiddleBytes(data: seq<byte>, a: AuctionData)
    requires Stores(data, a)
    ensures |Head(a)| >= 39 + 64 && |data| >= |Head(a)| + 40 * |a.bids| + 8
    ensures data[|Head(a)| - 6] == StateTag(a.state)
    ensures data[|Head(a)| - 4..|Head(a)|] == LittleEndian(|a.bids|, 4)
  {
    var m := |EncodeKeys(a)| + |EncodeTimes(a)|;
    assert data[m..m + 39] == EncodeMiddle(a);
    assert EncodeMiddle(a)[33] == StateTag(a.state);
    assert EncodeMiddle(a)[35..] == LittleEndian(|a.bids|, 4);
    assert data[m + 35..m + 39] == data[m..m + 39][35..];
  }

  /** A timestamp takes nine bytes, its absence one. */
  function TimeSize(t: Option<i64>): nat {
    if t.Some? then 9 else 1
  }

  /** Where the fields of a stored auction lie. */
  lemma LayoutInFigures(data: seq<byte>, a: AuctionData, first: nat)
    requires Stores(data, a)
    requires first == 64 + TimeSize(a.lastBid) + TimeSize(a.endedAt) + TimeSize(a.endAuctionAt)
                      + TimeSize(a.endAuctionGap) + 33 + 1 + 1 + 4
    ensures BidsBeginning(data) == Some(first) && |data| >= first + 40 * |a.bids| + 8
    ensures data[..32] == a.authority && data[32..64] == a.tokenMint
    ensures data[first - 6] == (match a.state case Created => 0 case Started => 1 case Ended => 2)
    ensures data[first - 5] == (if a.kind.EnglishAuction? then 0 else 1)
    ensures data[first - 4..first] == LittleEndian(|a.bids|, 4)
  {
    BidsBegin(data, a);
    MiddleBytes(data, a);
    KeyBytes(data, a);
    TimesLength(a);
    var m := |EncodeKeys(a)| + |EncodeTimes(a)|;
    assert data[m..m + 39] == EncodeMiddle(a);
    assert EncodeMiddle(a)[34] == (if a.kind.EnglishAuction? then 0 else 1);
    assert data[m + 34] == data[m..m + 39][34];
  }

  lemma KeyBytes(data: seq<byte>, a: AuctionData)
    requires Stores(data, a)
    ensures |data| >= 64 && data[..32] == a.authority && data[32..64] == a.tokenMint
  {
    var keys := EncodeKeys(a);
    assert Serialize(a) == keys + (EncodeTimes(a) + EncodeMiddle(a) + EncodeBids(a.bids) + LittleEndian(a.max, 8));
    assert data[..64] == keys;
    assert data[..32] == keys[..32] && data[32..64] == keys[32..];
  }

  lemma TimesLength(a: AuctionData)
    ensures |EncodeTimes(a)| == TimeSize(a.lastBid) + TimeSize(a.endedAt) + TimeSize(a.endAuctionAt)
                                + TimeSize(a.endAuctionGap)
  {
  }

  lemma TailBytes(data: seq<byte>, a: AuctionData)
    requires Stores(data, a)
    ensures |data| >= |Head(a)| + 40 * |a.bids| + 8
    ensures data[|Head(a)|..|Head(a)| + 40 * |a.bids|] == EncodeBids(a.bids)
    ensures data[|Head(a)| + 40 * |a.bids|..|Head(a)| + 40 * |a.bids| + 8] == LittleEndian(a.max, 8)
  {
    assert Serialize(a) == Head(a) + EncodeBids(a.bids) + LittleEndian(a.max, 8);
  }

  lemma {:induction false} BidBytes(bids: seq<Bid>, i: nat)
    requires i < |bids|
    ensures EncodeBids(bids)[40 * i..40 * i + 40] == EncodeBid(bids[i])
  {
    var last := |bids| - 1;
    var front := EncodeBids(bids[..last]);
    assert EncodeBids(bids) == front + EncodeBid(bids[last]);
    if i < last {
      BidBytes(bids[..last], i);
      InFront(front, EncodeBid(bids[last]), 40 * i, 40 * i + 40);
    }
  }

  lemma InFront(front: seq<byte>, back: seq<byte>, lo: nat, hi: nat)
    requires lo <= hi <= |front|
    ensures (front + back)[lo..hi] == front[lo..hi]
  {
  }

  /** The i-th stored bid's key and amount. */
  lemma StoredBid(data: seq<byte>, a: AuctionData, i: nat)
    requires Stores(data, a) && i < |a.bids|
    ensures Window(data, |Head(a)| + i * 40, 32) == Some(a.bids[i].key)
    ensures Window(data, |Head(a)| + i * 40 + 32, 8) == Some(LittleEndian(a.bids[i].amount, 8))
  {
    TailBytes(data, a);
    BidBytes(a.bids, i);
    EntryBytes(data, |Head(a)|, EncodeBids(a.bids), 40 * i, a.bids[i].key, LittleEndian(a.bids[i].amount, 8));
  }

  /** A key and an amount within a part of the data. */
  lemma EntryBytes(data: seq<byte>, first: nat, part: seq<byte>, at: nat, key: Pubkey, amount: seq<byte>)
    requires first + |part| <= |data| && data[first..first + |part|] == part
    requires |amount| == 8 && at + 40 <= |part| && part[at..at + 40] == key + amount
    ensures Window(data, first + at, 32) == Some(key) && Window(data, first + at + 32, 8) == Some(amount)
  {
    SliceOfSlice(data, first, first + |part|, at, at + 40);
    TwoParts(data, first + at, key, amount);
  }

  lemma SliceOfSlice(data: seq<byte>, from: nat, to: nat, lo: nat, hi: nat)
    requires from <= to <= |data| && lo <= hi <= to - from
    ensures data[from..to][lo..hi] == data[from + lo..from + hi]
  {
    forall k | 0 <= k < hi - lo
      ensures data[from..to][lo..hi][k] == data[from + lo..from + hi][k]
    {
      assert data[from..to][lo + k] == data[from + lo + k];
    }
  }

  lemma TwoParts(data: seq<byte>, at: nat, key: Pubkey, amount: seq<byte>)
    requires |amount| == 8 && at + 40 <= |data| && data[at..at + 40] == key + amount
    ensures data[at..at + 32] == key && data[at + 32..at + 40] == amount
  {
    assert data[at..at + 32] == (key + amount)[..32] == key;
    assert data[at + 32..at + 40] == (key + amount)[32..] == amount;
  }

  lemma StoredAmount(data: seq<byte>, a: AuctionData, info: VecInfo, index: nat)
    requires Stores(data, a) && info == VecInfo(|Head(a)|, |a.bids|, a.max)
    ensures WinnerAmount(data, info, index) ==
            Ok(if index < |a.bids| && index < a.max then Some(AmountAt(a.bids, index)) else None)
  {
    if index < |a.bids| && index < a.max {
      var i := |a.bids| - index - 1;
      var amount := AmountBytes(data, a, i);
      AmountBehind(data, info, index, amount, a.bids[i].amount);
    }
  }

  lemma AmountBytes(data: seq<byte>, a: AuctionData, i: nat) returns (amount: seq<byte>)
    requires Stores(data, a) && i < |a.bids|
    ensures Window(data, |Head(a)| + i * 40 + 32, 8) == Some(amount) && FromLittleEndian(amount) == a.bids[i].amount
  {
    StoredBid(data, a, i);
    amount := LittleEndian(a.bids[i].amount, 8);
    U64RoundTrip(a.bids[i].amount);
  }

  lemma AmountBehind(data: seq<byte>, info: VecInfo, index: nat, amount: seq<byte>, x: nat)
    requires index < info.count && index < info.max
    requires Window(data, info.first + (info.count - index - 1) * 40 + 32, 8) == Some(amount)
    requires FromLittleEndian(amount) == x
    ensures WinnerAmount(data, info, index) == Ok(Some(x))
  {
  }

  /** The key at a winner's place, as the bytes show it. */
  lemma StoredKey(data: seq<byte>, a: AuctionData, info: VecInfo, index: nat)
    requires Stores(data, a) && info == VecInfo(|Head(a)|, |a.bids|, a.max)
    ensures WinnerKey(data, info, index) == Ok(WinnerAt(a.bids, a.max, index))
  {
    if index < |a.bids| && index < a.max {
      var i := |a.bids| - index - 1;
      StoredBid(data, a, i);
      assert Window(data, info.first + (info.count - index - 1) * 40, 32) == Some(a.bids[i].key);
    }
  }

  lemma ReadsVecInfo(data: seq<byte>, a: AuctionData)
    requires Stores(data, a)
    ensures GetVecInfo(data) == Ok(VecInfo(|Head(a)|, |a.bids|, a.max))
  {
    BidsBegin(data, a);
    assert Window(data, |Head(a)| - 4, 4) == Some(LittleEndian(|a.bids|, 4)) by { MiddleBytes(data, a); }
    assert Window(data, |Head(a)| + 40 * |a.bids|, 8) == Some(LittleEndian(a.max, 8)) by { TailBytes(data, a); }
    U32RoundTrip(|a.bids|);
    U64RoundTrip(a.max);
    VecInfoFrom(data, VecInfo(|Head(a)|, |a.bids|, a.max), LittleEndian(|a.bids|, 4), LittleEndian(a.max, 8));
  }

  lemma VecInfoFrom(data: seq<byte>, info: VecInfo, count: seq<byte>, max: seq<byte>)
    requires BidsBeginning(data) == Some(info.first) && info.first >= 4
    requires Window(data, info.first - 4, 4) == Some(count) && FromLittleEndian(count) == info.count
    requires Window(data, info.first + 40 * info.count, 8) == Some(max) && FromLittleEndian(max) == info.max
    ensures GetVecInfo(data) == Ok(info)
  {
  }

  /** get_state reads the stored state. */
  lemma StateAgrees(data: seq<byte>, a: AuctionData)
    requires Stores(data, a)
    ensures GetState(data) == Ok(a.state)
  {
    BidsBegin(data, a);
    MiddleBytes(data, a);
  }

  /** An English auction, or one that can have no winner by its bytes either. */
  predicate ReadsAsEnglish(a: AuctionData) {
    a.kind.EnglishAuction? || a.bids == [] || a.max == 0
  }

  /** The byte reader counts the winners as the decoded auction does exactly when it reads as an English auction. */
  lemma NumWinnersAgrees(data: seq<byte>, a: AuctionData)
    requires Stores(data, a)
    ensures GetNumWinners(data) == Ok(DecodedNumWinners(a)) <==> ReadsAsEnglish(a)
  {
    ReadsVecInfo(data, a);
  }

  /** The reader agrees on a place exactly when the auction reads as an English one or its bytes show no such place. */
  lemma WinnerAtAgrees(data: seq<byte>, a: AuctionData, index: nat)
    requires Stores(data, a)
    ensures GetWinnerAt(data, index) == Ok(DecodedWinnerAt(a, index)) <==>
            ReadsAsEnglish(a) || index >= NumWinners(a.bids, a.max)
  {
    ReadsVecInfo(data, a);
    StoredKey(data, a, VecInfo(|Head(a)|, |a.bids|, a.max), index);
  }

  function DecodedAmountAt(a: AuctionData, index: nat): Option<nat> {
    if index < DecodedNumWinners(a) then Some(AmountAt(a.bids, index)) else None
  }

  lemma WinnerAmountAgrees(data: seq<byte>, a: AuctionData, index: nat)
    requires Stores(data, a)
    ensures GetWinnerBidAmountAt(data, index) == Ok(DecodedAmountAt(a, index)) <==>
            ReadsAsEnglish(a) || index >= NumWinners(a.bids, a.max)
  {
    ReadsVecInfo(data, a);
    StoredAmount(data, a, VecInfo(|Head(a)|, |a.bids|, a.max), index);
  }

  /** r is a place of the key from index on, or there is none. */
  ghost predicate Finds(bids: seq<Bid>, max: nat, key: Pubkey, index: nat, r: Option<nat>) {
    if r.Some? then index <= r.value && WinnerAt(bids, max, r.value) == Some(key)
    else forall place: nat :: index <= place ==> WinnerAt(bids, max, place) != Some(key)
  }

  /** The bytes show the winners of these bids. */
  ghost predicate ShowsWinners(data: seq<byte>, info: VecInfo, bids: seq<Bid>) {
    && info.count == |bids|
    && forall place: nat :: WinnerKey(data, info, place) == Ok(WinnerAt(bids, info.max, place))
  }

  /** The scan finds the best place that holds the key. */
  lemma {:induction false} ScanFinds(data: seq<byte>, info: VecInfo, bids: seq<Bid>, key: Pubkey, index: nat)
    requires ShowsWinners(data, info, bids) && index <= |bids|
    ensures var r := ScanWinners(data, info, key, index);
      r.Ok? && Finds(bids, info.max, key, index, r.value)
    decreases |bids| - index
  {
    if index < |bids| && index < info.max {
      assert WinnerKey(data, info, index) == Ok(WinnerAt(bids, info.max, index));
      ScanFinds(data, info, bids, key, index + 1);
    }
  }

  lemma ReadsWinners(data: seq<byte>, a: AuctionData, info: VecInfo)
    requires Stores(data, a) && info == VecInfo(|Head(a)|, |a.bids|, a.max)
    ensures ShowsWinners(data, info, a.bids)
  {
    forall place: nat
      ensures WinnerKey(data, info, place) == Ok(WinnerAt(a.bids, info.max, place))
    {
      StoredKey(data, a, info, place);
    }
  }

  /**
   With distinct keys and every bid at the minimum or above, get_is_winner
   agrees with is_winner exactly when the auction is an English one or the key
   wins nothing by its bytes.
   */
  lemma IsWinnerAgrees(data: seq<byte>, a: AuctionData, key: Pubkey)
    requires Stores(data, a) && KeysDistinct(a.bids)
    requires forall i :: 0 <= i < |a.bids| ==> a.bids[i].amount >= MinimumOf(a)
    ensures GetVecInfo(data).Ok?
    ensures ScanWinners(data, GetVecInfo(data).value, key, 0) == Ok(DecodedIsWinner(a, key)) <==>
            a.kind.EnglishAuction? || forall place: nat :: WinnerAt(a.bids, a.max, place) != Some(key)
  {
    ReadsVecInfo(data, a);
    ReadsWinners(data, a, GetVecInfo(data).value);
    ScanFinds(data, GetVecInfo(data).value, a.bids, key, 0);
    var r := ScanWinners(data, GetVecInfo(data).value, key, 0).value;
    if a.kind.EnglishAuction? {
      WinnerPlace(a, key, r);
    }
  }

  lemma WinnerPlace(a: AuctionData, key: Pubkey, r: Option<nat>)
    requires a.kind.EnglishAuction? && KeysDistinct(a.bids)
    requires forall i :: 0 <= i < |a.bids| ==> a.bids[i].amount >= MinimumOf(a)
    requires r.Some? ==> WinnerAt(a.bids, a.max, r.value) == Some(key)
    requires r.None? ==> forall place: nat :: WinnerAt(a.bids, a.max, place) != Some(key)
    ensures DecodedIsWinner(a, key) == r
  {
    var p := PositionOf(a.bids, key, MinimumOf(a), 0);
    if r.Some? {
      assert a.bids[|a.bids| - r.value - 1].key == key;
      assert p.Some? && p.value == |a.bids| - r.value - 1;
    } else if p.Some? {
      assert WinnerAt(a.bids, a.max, |a.bids| - p.value - 1) != Some(key);
    }
  }

  // ---------------------------------------------------------------------------
  // Every auction that is ever stored reads as an English one

  /** The winner limit an auction is created with: a number of prizes, or none at all. */
  function KindOf(limit: Option<u64>): BidKind {
    if limit.Some? then EnglishAuction else OpenEdition
  }

  function MaxOf(limit: Option<u64>): u64 {
    if limit.Some? then limit.value else 0
  }

  /** Placing and cancelling bids do nothing to an open edition. */
  function BidStateStep(kind: BidKind, b: Book, max: nat, floor: u64, op: Op): Book {
    if kind.OpenEdition? then b else Step(b, max, floor, op)
  }

  function BidStateRun(kind: BidKind, max: nat, floor: u64, ops: seq<Op>): Book {
    if ops == [] then Book([], [], 0)
    else BidStateStep(kind, BidStateRun(kind, max, floor, ops[..|ops| - 1]), max, floor, ops[|ops| - 1])
  }

  lemma {:induction false} OpenEditionIsEmpty(max: nat, floor: u64, ops: seq<Op>)
    ensures BidStateRun(OpenEdition, max, floor, ops) == Book([], [], 0)
  {
    if ops != [] {
      OpenEditionIsEmpty(max, floor, ops[..|ops| - 1]);
    }
  }

  /** So on whatever bids an auction comes to store the readers agree with the decoded auction. */
  lemma StoredReadsAsEnglish(a: AuctionData, limit: Option<u64>, floor: u64, ops: seq<Op>)
    requires a.kind == KindOf(limit) && a.max == MaxOf(limit)
    requires a.bids == BidStateRun(a.kind, a.max, floor, ops).bids
    ensures ReadsAsEnglish(a)
    ensures a.kind.EnglishAuction? || forall key: Pubkey, place: nat :: WinnerAt(a.bids, a.max, place) != Some(key)
  {
    OpenEditionIsEmpty(a.max, floor, ops);
  }

  // ---------------------------------------------------------------------------
  // The extended auction data

  type Name = n: seq<byte> | |n| == 32 witness seq(32, _ => 0)

  datatype AuctionDataExtended = AuctionDataExtended(
    totalUncancelledBids: u64,
    tickSize: Option<u64>,
    gapTickSizePercentage: Option<u8>,
    instantSalePrice: Option<u64>,
    name: Option<Name>
  )

  function EncodeU64Option(o: Option<u64>): seq<byte> {
    EncodeOption(if o.None? then None else Some(LittleEndian(o.value, 8)))
  }

  function EncodeU8Option(o: Option<u8>): seq<byte> {
    EncodeOption(if o.None? then None else Some([o.value]))
  }

  function SerializeExtended(x: AuctionDataExtended): seq<byte> {
    LittleEndian(x.totalUncancelledBids, 8) + EncodeU64Option(x.tickSize) + EncodeU8Option(x.gapTickSizePercentage)
      + EncodeU64Option(x.instantSalePrice) + EncodeOption(if x.name.None? then None else Some(x.name.value))
  }

  /** find_instant_sale_beginning: past the counter, then past each of the two options by its own gap. */
  method FindInstantSaleBeginning(data: seq<byte>) returns (r: Result<Option<nat>, ReadError>)
    ensures r == InstantSaleBeginning(data)
  {
    var at := 8;
    var gaps := [9, 2];
    for i := 0 to |gaps|
      invariant 8 <= at
      invariant i == 0 ==> at == 8
      invariant i == 1 ==> SkipOption(data, 8, 8) == Some(at)
      invariant i == 2 ==> SkipOption(data, 8, 8).Some? && SkipOption(data, SkipOption(data, 8, 8).value, 1) == Some(at)
    {
      if at >= |data| {
        return Err(OutOfBounds);
      }
      at := at + if data[at] == 1 then gaps[i] else 1;
    }
    if at >= |data| {
      return Err(OutOfBounds);
    }
    r := Ok(if data[at] == 1 then Some(at + 1) else None);
  }

  function InstantSaleBeginning(data: seq<byte>): Result<Option<nat>, ReadError> {
    var tick := SkipOption(data, 8, 8);
    :- Need(tick.Some?, OutOfBounds);
    var gap := SkipOption(data, tick.value, 1);
    :- Need(gap.Some? && gap.value < |data|, OutOfBounds);
    Ok(if data[gap.value] == 1 then Some(gap.value + 1) else None)
  }

  function GetInstantSalePrice(data: seq<byte>): Result<Option<nat>, ReadError> {
    var at :- InstantSaleBeginning(data);
    if at.None? then Ok(None)
    else
      var price := Window(data, at.value, 8);
      :- Need(price.Some?, OutOfBounds);
      Ok(Some(FromLittleEndian(price.value)))
  }

  lemma RegroupThree(k: seq<byte>, a: seq<byte>, b: seq<byte>, c: seq<byte>, r: seq<byte>)
    ensures k + a + b + c + r == k + a + (b + c + r)
    ensures k + a + b + c + r == (k + a) + b + (c + r)
  {
  }

  /** Reading the price behind the counter and two encoded options. */
  lemma PriceBehind(data: seq<byte>, count: seq<byte>, tick: Option<seq<byte>>, gap: Option<seq<byte>>,
                    price: Option<seq<byte>>, rest: seq<byte>)
    requires |count| == 8 && (tick.Some? ==> |tick.value| == 8) && (gap.Some? ==> |gap.value| == 1)
    requires data == count + EncodeOption(tick) + EncodeOption(gap) + EncodeOption(price) + rest
    ensures var at := |count + EncodeOption(tick) + EncodeOption(gap)|;
      InstantSaleBeginning(data) == Ok(if price.Some? then Some(at + 1) else None)
  {
    var e1, e2, e3 := EncodeOption(tick), EncodeOption(gap), EncodeOption(price);
    RegroupThree(count, e1, e2, e3, rest);
    assert SkipOption(data, 8, 8) == Some(|count + e1|) by {
      SkipOptionOfMiddle(count, tick, e2 + e3 + rest, 8);
    }
    assert SkipOption(data, |count + e1|, 1) == Some(|count + e1 + e2|) by {
      SkipOptionOfMiddle(count + e1, gap, e3 + rest, 1);
    }
    assert data[|count + e1 + e2|] == e3[0];
  }

  lemma PriceWindow(data: seq<byte>, before: seq<byte>, price: seq<byte>, rest: seq<byte>)
    requires |price| == 8 && data == before + EncodeOption(Some(price)) + rest
    ensures Window(data, |before| + 1, 8) == Some(price)
  {
    assert data == (before + [1]) + price + rest;
    WindowOfMiddle(before + [1], price, rest);
  }

  lemma PriceRead(data: seq<byte>, before: seq<byte>, price: seq<byte>, rest: seq<byte>, x: nat)
    requires |price| == 8 && data == before + EncodeOption(Some(price)) + rest
    requires InstantSaleBeginning(data) == Ok(Some(|before| + 1)) && FromLittleEndian(price) == x
    ensures GetInstantSalePrice(data) == Ok(Some(x))
  {
    PriceWindow(data, before, price, rest);
  }

  /** get_instant_sale_price reads the stored price. */
  lemma InstantSalePriceAgrees(data: seq<byte>, x: AuctionDataExtended)
    requires SerializeExtended(x) <= data
    ensures GetInstantSalePrice(data) == Ok(x.instantSalePrice)
  {
    var count := LittleEndian(x.totalUncancelledBids, 8);
    var tick := if x.tickSize.None? then None else Some(LittleEndian(x.tickSize.value, 8));
    var gap := if x.gapTickSizePercentage.None? then None else Some([x.gapTickSizePercentage.value]);
    var price := if x.instantSalePrice.None? then None else Some(LittleEndian(x.instantSalePrice.value, 8));
    var rest := EncodeOption(if x.name.None? then None else Some(x.name.value)) + data[|SerializeExtended(x)|..];
    assert data == SerializeExtended(x) + data[|SerializeExtended(x)|..];
    PriceBehind(data, count, tick, gap, price, rest);
    if x.instantSalePrice.Some? {
      U64RoundTrip(x.instantSalePrice.value);
      PriceRead(data, count + EncodeOption(tick) + EncodeOption(gap), price.value, rest, x.instantSalePrice.value);
    }
  }
}
