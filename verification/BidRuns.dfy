/** Whole auctions: the stored list against the log of all live bids, evicted ones included. */
module BidRuns {
  import opened Prelude
  import opened BidBook
  import opened BidRanking
  import opened BidEviction

  datatype Op =
    | PlaceOp(bid: Bid, tickSize: Option<u64>, gapTick: Option<u8>)
    | CancelOp(key: Pubkey)

  /**
   The stored bids, the log of live bids in order of placement, and how many
   cancellations have taken a stored bid away.
   */
  datatype Book = Book(bids: seq<Bid>, log: seq<Bid>, removed: nat)

  function Step(b: Book, max: nat, floor: u64, op: Op): Book {
    match op
    case PlaceOp(bid, tickSize, gapTick) =>
      var r := PlaceBidSpec(b.bids, max, bid, tickSize, gapTick, floor);
      if r.Ok? then b.(bids := r.value, log := b.log + [bid]) else b
    case CancelOp(key) =>
      Book(Without(b.bids, key), Without(b.log, key),
           if |Without(b.bids, key)| < |b.bids| then b.removed + 1 else b.removed)
  }

  function Run(max: nat, floor: u64, ops: seq<Op>): Book {
    if ops == [] then Book([], [], 0) else Step(Run(max, floor, ops[..|ops| - 1]), max, floor, ops[|ops| - 1])
  }

  /** A bidder with a live bid may not place another. */
  ghost predicate OneBidPerKey(max: nat, floor: u64, ops: seq<Op>) {
    ops != [] ==>
      && OneBidPerKey(max, floor, ops[..|ops| - 1])
      && (ops[|ops| - 1].PlaceOp? ==> !HasKey(Run(max, floor, ops[..|ops| - 1]).log, ops[|ops| - 1].bid.key))
  }

  /** Every stored bid is live. */
  ghost predicate StoredIn(bids: seq<Bid>, log: seq<Bid>) {
    forall key: Pubkey :: HasKey(bids, key) ==> HasKey(log, key)
  }

  /** The stored list agrees with the ranking of all live bids down to as many places as removals have left. */
  ghost predicate Agrees(b: Book, max: nat, floor: u64) {
    && BookOk(b.bids, max, floor)
    && KeysDistinct(b.log)
    && StoredIn(b.bids, b.log)
    && TopAgrees(b.bids, b.log, MaxArraySizeFor(max) - b.removed)
  }

  /** The stored list and the ranking agree on the n highest bids. */
  ghost predicate TopAgrees(bids: seq<Bid>, log: seq<Bid>, n: int) {
    n >= 0 ==> Top(bids, n) == Top(Ranked(log), n)
  }

  lemma AppendKeepsDistinct(log: seq<Bid>, bid: Bid)
    requires KeysDistinct(log) && !HasKey(log, bid.key)
    ensures KeysDistinct(log + [bid])
  {
  }

  lemma HasKeyTrim(bids: seq<Bid>, size: nat, key: Pubkey)
    ensures HasKey(Trim(bids, size), key) ==> HasKey(bids, key)
  {
    if HasKey(Trim(bids, size), key) {
      var i :| 0 <= i < |Trim(bids, size)| && Trim(bids, size)[i].key == key;
      assert bids[if |bids| > size then i + 1 else i].key == key;
    }
  }

  lemma HasKeyWithout(bids: seq<Bid>, key: Pubkey, other: Pubkey)
    ensures HasKey(Without(bids, key), other) <==> HasKey(bids, other) && other != key
    decreases |bids|
  {
    if bids != [] {
      var last := |bids| - 1;
      HasKeyWithout(bids[..last], key, other);
      assert bids == bids[..last] + [bids[last]];
      HasKeyAppend(bids[..last], bids[last], other);
      HasKeyAppend(Without(bids[..last], key), bids[last], other);
    }
  }

  lemma PlaceKeepsStored(bids: seq<Bid>, log: seq<Bid>, bid: Bid, size: nat, placed: seq<Bid>)
    requires StoredIn(bids, log)
    requires placed == Trim(Insert(bids, bid), size)
    ensures StoredIn(placed, log + [bid])
  {
    forall key: Pubkey | HasKey(placed, key)
      ensures HasKey(log + [bid], key)
    {
      HasKeyTrim(Insert(bids, bid), size, key);
      HasKeyInsert(bids, bid, key);
      HasKeyAppend(log, bid, key);
    }
  }

  /** An insertion agrees wherever the lists before it did, and trimming below that does not show. */
  lemma PlaceKeepsTop(bids: seq<Bid>, ranked: seq<Bid>, bid: Bid, size: nat, n: nat, top: seq<Bid>, placed: seq<Bid>)
    requires n <= size && |bids| <= size && Top(bids, n) == top == Top(ranked, n)
    requires placed == Trim(Insert(bids, bid), size)
    ensures Top(placed, n) == Top(Insert(ranked, bid), n)
  {
    calc {
      Top(placed, n);
    == { TrimTop(Insert(bids, bid), size, n); }
      Top(Insert(bids, bid), n);
    == { InsertTop(bids, bid, n); }
      Top(Insert(top, bid), n);
    == { InsertTop(ranked, bid, n); }
      Top(Insert(ranked, bid), n);
    }
  }

  lemma PlacedTop(b: Book, size: nat, bid: Bid, r: Book)
    requires TopAgrees(b.bids, b.log, size - b.removed) && |b.bids| <= size
    requires r.bids == Trim(Insert(b.bids, bid), size) && r.log == b.log + [bid] && r.removed == b.removed
    ensures TopAgrees(r.bids, r.log, size - r.removed)
  {
    var n := size - r.removed;
    if n >= 0 {
      PlaceKeepsTop(b.bids, Ranked(b.log), bid, size, n, Top(b.bids, n), r.bids);
      RankedSnoc(b.log, bid);
    }
  }

  lemma PlacedAgrees(b: Book, max: nat, floor: u64, bid: Bid, r: Book)
    requires Agrees(b, max, floor) && !HasKey(b.log, bid.key)
    requires r.bids == Trim(Insert(b.bids, bid), MaxArraySizeFor(max)) && BookOk(r.bids, max, floor)
    requires r.log == b.log + [bid] && r.removed == b.removed
    ensures Agrees(r, max, floor)
  {
    PlacedParts(b, MaxArraySizeFor(max), bid, r);
  }

  lemma PlacedParts(b: Book, size: nat, bid: Bid, r: Book)
    requires KeysDistinct(b.log) && StoredIn(b.bids, b.log) && TopAgrees(b.bids, b.log, size - b.removed)
    requires |b.bids| <= size && !HasKey(b.log, bid.key)
    requires r.bids == Trim(Insert(b.bids, bid), size) && r.log == b.log + [bid] && r.removed == b.removed
    ensures KeysDistinct(r.log) && StoredIn(r.bids, r.log) && TopAgrees(r.bids, r.log, size - r.removed)
  {
    assert KeysDistinct(r.log) by { AppendKeepsDistinct(b.log, bid); }
    assert StoredIn(r.bids, r.log) by { PlaceKeepsStored(b.bids, b.log, bid, size, r.bids); }
    PlacedTop(b, size, bid, r);
  }

  lemma PlaceKeepsAgreement(b: Book, max: nat, floor: u64, bid: Bid, tickSize: Option<u64>, gapTick: Option<u8>)
    requires Agrees(b, max, floor) && !HasKey(b.log, bid.key)
    ensures Agrees(Step(b, max, floor, PlaceOp(bid, tickSize, gapTick)), max, floor)
  {
    var r := PlaceBidSpec(b.bids, max, bid, tickSize, gapTick, floor);
    if r.Ok? {
      NotStored(b, bid.key);
      PlaceKeepsBook(b.bids, max, floor, bid, tickSize, gapTick);
      PlacedAgrees(b, max, floor, bid, Book(r.value, b.log + [bid], b.removed));
    }
  }

  /** The lists after a cancellation agree one place less far if the bid was stored, and as far if not. */
  lemma CancelAgrees(bids: seq<Bid>, ranked: seq<Bid>, key: Pubkey, n: nat)
    requires KeysDistinct(bids) && KeysDistinct(ranked)
    requires Top(bids, n) == Top(ranked, n)
    ensures HasKey(bids, key) && n > 0 ==> Top(Without(bids, key), n - 1) == Top(Without(ranked, key), n - 1)
    ensures !HasKey(bids, key) ==> Top(Without(bids, key), n) == Top(Without(ranked, key), n)
  {
    if HasKey(Top(bids, n), key) {
      WithoutWithin(bids, key, n);
      WithoutWithin(ranked, key, n);
      TopHasKey(bids, key, n);
    } else {
      WithoutBelow(bids, key, n);
      WithoutBelow(ranked, key, n);
      if n > 0 {
        TopOfTop(Without(bids, key), n - 1, n);
        TopOfTop(Without(ranked, key), n - 1, n);
      }
    }
  }

  lemma TopHasKey(bids: seq<Bid>, key: Pubkey, n: nat)
    requires HasKey(Top(bids, n), key)
    ensures HasKey(bids, key)
  {
    if n < |bids| {
      HasKeyTop(bids, key, n);
    }
  }

  lemma StoredShrinks(bids: seq<Bid>, key: Pubkey)
    requires KeysDistinct(bids)
    ensures |Without(bids, key)| < |bids| <==> HasKey(bids, key)
  {
    if HasKey(bids, key) {
      WithoutOne(bids, key);
    } else {
      WithoutAbsent(bids, key);
    }
  }

  /** Stored bids stay among the live ones. */
  lemma CancelKeepsStored(bids: seq<Bid>, log: seq<Bid>, key: Pubkey)
    requires StoredIn(bids, log)
    ensures StoredIn(Without(bids, key), Without(log, key))
  {
    forall other: Pubkey | HasKey(Without(bids, key), other)
      ensures HasKey(Without(log, key), other)
    {
      HasKeyWithout(bids, key, other);
      HasKeyWithout(log, key, other);
    }
  }

  lemma CancelKeepsTop(bids: seq<Bid>, ranked: seq<Bid>, key: Pubkey, n: nat, m: nat)
    requires KeysDistinct(bids) && KeysDistinct(ranked) && Top(bids, n) == Top(ranked, n)
    requires m == if HasKey(bids, key) then n - 1 else n
    ensures Top(Without(bids, key), m) == Top(Without(ranked, key), m)
  {
    CancelAgrees(bids, ranked, key, n);
  }

  lemma CancelKeepsAgreement(b: Book, max: nat, floor: u64, key: Pubkey)
    requires Agrees(b, max, floor)
    ensures Agrees(Step(b, max, floor, CancelOp(key)), max, floor)
  {
    CancelKeepsBook(b.bids, max, floor, key);
    WithoutKeeps(b.log, key);
    StoredShrinks(b.bids, key);
    CancelKeepsStored(b.bids, b.log, key);
    CancelParts(b, max, floor, key, Step(b, max, floor, CancelOp(key)));
  }

  lemma CancelParts(b: Book, max: nat, floor: u64, key: Pubkey, r: Book)
    requires KeysDistinct(b.bids) && KeysDistinct(b.log)
    requires TopAgrees(b.bids, b.log, MaxArraySizeFor(max) - b.removed)
    requires BookOk(r.bids, max, floor) && KeysDistinct(r.log) && StoredIn(r.bids, r.log)
    requires r.bids == Without(b.bids, key) && r.log == Without(b.log, key)
    requires r.removed == if HasKey(b.bids, key) then b.removed + 1 else b.removed
    ensures Agrees(r, max, floor)
  {
    var size := MaxArraySizeFor(max);
    CancelledTop(b.bids, b.log, key, size - b.removed, size - r.removed, r.bids, r.log);
  }

  lemma CancelledTop(bids: seq<Bid>, log: seq<Bid>, key: Pubkey, n: int, m: int, left: seq<Bid>, leftLog: seq<Bid>)
    requires KeysDistinct(bids) && KeysDistinct(log) && TopAgrees(bids, log, n)
    requires m == if HasKey(bids, key) then n - 1 else n
    requires left == Without(bids, key) && leftLog == Without(log, key)
    ensures TopAgrees(left, leftLog, m)
  {
    if m >= 0 {
      RankedDistinct(log);
      RankedWithout(log, key);
      CancelKeepsTop(bids, Ranked(log), key, n, m);
    }
  }

  lemma {:induction false} RunAgrees(max: nat, floor: u64, ops: seq<Op>)
    requires OneBidPerKey(max, floor, ops)
    ensures Agrees(Run(max, floor, ops), max, floor)
  {
    if ops != [] {
      var last := |ops| - 1;
      RunAgrees(max, floor, ops[..last]);
      match ops[last]
      case PlaceOp(bid, tickSize, gapTick) =>
        PlaceKeepsAgreement(Run(max, floor, ops[..last]), max, floor, bid, tickSize, gapTick);
      case CancelOp(key) => CancelKeepsAgreement(Run(max, floor, ops[..last]), max, floor, key);
    }
  }

  // ---------------------------------------------------------------------------
  // The stored list is the ranking without the evicted bids

  /** The live bids that are not stored. */
  ghost function Missing(b: Book): set<Pubkey> {
    set bid | bid in b.log && !HasKey(b.bids, bid.key) :: bid.key
  }

  lemma WithoutFirst(bids: seq<Bid>)
    requires KeysDistinct(bids) && bids != []
    ensures Without(bids, bids[0].key) == bids[1..]
  {
    var rest := bids[1..];
    assert bids == [bids[0]] + rest;
    WithoutConcat([bids[0]], rest, bids[0].key);
    assert [bids[0]][..0] == [];
    WithoutAbsent(rest, bids[0].key);
  }

  /** What a placement leaves, with the bid that it evicts. */
  lemma PlaceEvicts(ranked: seq<Bid>, bids: seq<Bid>, gone: set<Pubkey>, bid: Bid, size: nat, placed: seq<Bid>)
    returns (after: set<Pubkey>)
    requires Sorted(ranked) && bids == Except(ranked, gone) && bid.key !in gone
    requires placed == Insert(bids, bid) && KeysDistinct(placed)
    ensures Trim(placed, size) == Except(Insert(ranked, bid), after)
    ensures forall key :: key in after ==> key in gone || HasKey(placed, key)
  {
    assert placed == Except(Insert(ranked, bid), gone) by { InsertExcept(ranked, bid, gone); }
    if |placed| > size {
      after := gone + {placed[0].key};
      ExceptMore(Insert(ranked, bid), gone, placed[0].key);
      WithoutFirst(placed);
    } else {
      after := gone;
    }
  }

  ghost predicate Leaves(b: Book, gone: set<Pubkey>) {
    b.bids == Except(Ranked(b.log), gone) && forall key :: key in gone ==> HasKey(b.log, key)
  }

  lemma PlaceLeaves(b: Book, max: nat, floor: u64, bid: Bid, gone: set<Pubkey>) returns (after: set<Pubkey>)
    requires BookOk(b.bids, max, floor) && Leaves(b, gone) && !HasKey(b.log, bid.key) && !HasKey(b.bids, bid.key)
    requires StoredIn(b.bids, b.log)
    ensures Leaves(b.(bids := Trim(Insert(b.bids, bid), MaxArraySizeFor(max)), log := b.log + [bid]), after)
  {
    RankedSorted(b.log);
    InsertKeepsDistinct(b.bids, bid);
    after := PlaceEvicts(Ranked(b.log), b.bids, gone, bid, MaxArraySizeFor(max), Insert(b.bids, bid));
    RankedSnoc(b.log, bid);
    forall key | key in after
      ensures HasKey(b.log + [bid], key)
    {
      HasKeyInsert(b.bids, bid, key);
      HasKeyAppend(b.log, bid, key);
    }
  }

  lemma CancelLeaves(b: Book, key: Pubkey, gone: set<Pubkey>)
    requires KeysDistinct(b.log) && Leaves(b, gone)
    ensures Leaves(b.(bids := Without(b.bids, key), log := Without(b.log, key)), gone - {key})
  {
    RankedWithout(b.log, key);
    ExceptCancel(Ranked(b.log), gone, key);
    forall other | other in gone - {key}
      ensures HasKey(Without(b.log, key), other)
    {
      HasKeyWithout(b.log, key, other);
    }
  }

  lemma NotStored(b: Book, key: Pubkey)
    requires StoredIn(b.bids, b.log)
    requires !HasKey(b.log, key)
    ensures !HasKey(b.bids, key)
  {
  }

  lemma {:induction false} RunLeaves(max: nat, floor: u64, ops: seq<Op>) returns (gone: set<Pubkey>)
    requires OneBidPerKey(max, floor, ops)
    ensures Leaves(Run(max, floor, ops), gone)
  {
    if ops == [] {
      gone := {};
    } else {
      var last := |ops| - 1;
      var b := Run(max, floor, ops[..last]);
      gone := RunLeaves(max, floor, ops[..last]);
      RunAgrees(max, floor, ops[..last]);
      match ops[last]
      case PlaceOp(bid, tickSize, gapTick) =>
        if PlaceBidSpec(b.bids, max, bid, tickSize, gapTick, floor).Ok? {
          NotStored(b, bid.key);
          gone := PlaceLeaves(b, max, floor, bid, gone);
        }
      case CancelOp(key) =>
        CancelLeaves(b, key, gone);
        gone := gone - {key};
    }
  }

  lemma GoneIsMissing(b: Book, gone: set<Pubkey>)
    requires KeysDistinct(b.log) && Leaves(b, gone)
    ensures gone == Missing(b)
  {
    forall key: Pubkey
      ensures key in gone <==> key in Missing(b)
    {
      RankedWithout(b.log, key);
      ExceptHasKey(Ranked(b.log), gone, key);
      if key in gone {
        var i :| 0 <= i < |b.log| && b.log[i].key == key;
        assert b.log[i] in b.log;
      }
    }
  }

  /** After any run the stored list is the ranking of all live bids, evicted ones left out. */
  lemma StoredIsRanking(max: nat, floor: u64, ops: seq<Op>)
    requires OneBidPerKey(max, floor, ops)
    ensures KeysDistinct(Run(max, floor, ops).log)
    ensures Run(max, floor, ops).bids == Except(Ranked(Run(max, floor, ops).log), Missing(Run(max, floor, ops)))
  {
    RunAgrees(max, floor, ops);
    var gone := RunLeaves(max, floor, ops);
    GoneIsMissing(Run(max, floor, ops), gone);
  }

  // ---------------------------------------------------------------------------
  // When the winners are the best live bids

  /**
   After any run the reported winners are the top `max` of all live bids exactly
   when each live bid that is not stored has at least `max` stored bids that
   rank before it, being higher, or as high and placed earlier.
   */
  lemma WinnersAreRankedIff(max: nat, floor: u64, ops: seq<Op>)
    requires OneBidPerKey(max, floor, ops)
    ensures var b := Run(max, floor, ops);
      SameWinners(b.bids, Ranked(b.log), max) <==> AllCovered(b.log, Missing(b), max)
  {
    StoredIsRanking(max, floor, ops);
    var b := Run(max, floor, ops);
    SameIffCovered(Ranked(b.log), Missing(b), max);
    CoveredIff(b.log, Missing(b), max, Ranked(b.log));
  }

  /** It is enough that the run has cancelled no more stored bids than the list has room to spare. */
  lemma RoomToSpareCovers(max: nat, floor: u64, ops: seq<Op>)
    requires OneBidPerKey(max, floor, ops) && Run(max, floor, ops).removed <= MaxArraySizeFor(max) - max
    ensures AllCovered(Run(max, floor, ops).log, Missing(Run(max, floor, ops)), max)
  {
    RunAgrees(max, floor, ops);
    var b := Run(max, floor, ops);
    SameTop(b.bids, Ranked(b.log), MaxArraySizeFor(max) - b.removed, max);
    WinnersAreRankedIff(max, floor, ops);
  }

  lemma SameTop(bids: seq<Bid>, ranked: seq<Bid>, n: nat, max: nat)
    requires max <= n && Top(bids, n) == Top(ranked, n)
    ensures SameWinners(bids, ranked, max)
  {
    forall place: nat
      ensures WinnerAt(bids, max, place) == WinnerAt(ranked, max, place)
    {
      TopReads(bids, ranked, n, max, place);
    }
  }

  /**
   Under the exact condition a bid wins a place exactly when that many live
   bids, evicted ones included, rank before it and the place is one of the
   first `max`.
   */
  lemma WinnersAreTheBest(max: nat, floor: u64, ops: seq<Op>, before: seq<Bid>, bid: Bid, after: seq<Bid>, place: nat)
    requires OneBidPerKey(max, floor, ops)
    requires AllCovered(Run(max, floor, ops).log, Missing(Run(max, floor, ops)), max)
    requires Run(max, floor, ops).log == before + [bid] + after
    ensures NumWinners(Run(max, floor, ops).bids, max) == NumWinners(Run(max, floor, ops).log, max)
    ensures WinnerAt(Run(max, floor, ops).bids, max, place) == Some(bid.key) <==>
            place == Better(before, after, bid.amount) && place < max
  {
    StoredIsRanking(max, floor, ops);
    WinnersAreRankedIff(max, floor, ops);
    var b := Run(max, floor, ops);
    var ranked := Ranked(b.log);
    assert WinnerAt(b.bids, max, place) == WinnerAt(ranked, max, place);
    SameNumber(b.bids, ranked, max);
    RankedDistinct(b.log);
    RankedAt(before, bid, after, b.log, ranked);
    DistinctPlaces(ranked, bid, max, place, Better(before, after, bid.amount));
  }

  lemma SameNumber(bids: seq<Bid>, ranked: seq<Bid>, max: nat)
    requires SameWinners(bids, ranked, max)
    ensures NumWinners(bids, max) == NumWinners(ranked, max)
  {
    var n := if |bids| <= |ranked| then NumWinners(bids, max) else NumWinners(ranked, max);
    assert WinnerAt(bids, max, n) == WinnerAt(ranked, max, n);
  }

  lemma DistinctPlaces(ranked: seq<Bid>, bid: Bid, max: nat, place: nat, better: nat)
    requires KeysDistinct(ranked) && StandsAt(ranked, bid, better)
    ensures WinnerAt(ranked, max, place) == Some(bid.key) <==> place == better && place < max
  {
  }

  /** Lists with the same top n give the same winners. */
  lemma TopReads(bids: seq<Bid>, ranked: seq<Bid>, n: nat, max: nat, place: nat)
    requires max <= n && Top(bids, n) == Top(ranked, n)
    ensures NumWinners(bids, max) == NumWinners(ranked, max)
    ensures WinnerAt(bids, max, place) == WinnerAt(ranked, max, place)
  {
    TopRead(bids, n, place);
    TopRead(ranked, n, place);
  }

  lemma TopRead(bids: seq<Bid>, n: nat, place: nat)
    ensures NumWinners(bids, n) == |Top(bids, n)|
    ensures WinnerAt(bids, n, place) ==
      if place < |Top(bids, n)| then Some(Top(bids, n)[|Top(bids, n)| - place - 1].key) else None
  {
  }

  /**
   The list never holds more than eight bids, or from eight prizes on twice as
   many as there are prizes; and as long as no stored bid has been cancelled it
   holds that many, or all live bids if they are fewer.
   */
  lemma CapacityInNumbers(max: nat, floor: u64, ops: seq<Op>, size: nat)
    requires OneBidPerKey(max, floor, ops) && size == if max < 8 then 8 else 2 * max
    ensures var b := Run(max, floor, ops);
      && |b.bids| <= size
      && (b.removed == 0 ==> |b.bids| == if |b.log| <= size then |b.log| else size)
  {
    RunAgrees(max, floor, ops);
    BookLength(Run(max, floor, ops), max, floor, size);
  }

  lemma BookLength(b: Book, max: nat, floor: u64, size: nat)
    requires Agrees(b, max, floor) && size == if max < 8 then 8 else 2 * max
    ensures |b.bids| <= size
    ensures b.removed == 0 ==> |b.bids| == if |b.log| <= size then |b.log| else size
  {
    if b.removed == 0 {
      SameTopLength(b.bids, Ranked(b.log), size);
    }
  }

  lemma SameTopLength(bids: seq<Bid>, ranked: seq<Bid>, n: nat)
    requires Top(bids, n) == Top(ranked, n) && |bids| <= n
    ensures |bids| == if |ranked| <= n then |ranked| else n
  {
    TopLength(bids, n);
    TopLength(ranked, n);
  }

  lemma TopLength(bids: seq<Bid>, n: nat)
    ensures |Top(bids, n)| == if |bids| <= n then |bids| else n
  {
  }

  /** r is b without the stored bids of these keys. */
  ghost predicate Cancelled(b: Book, keys: seq<Pubkey>, r: Book) {
    && |r.bids| == |b.bids| - |keys|
    && |r.log| == |b.log| - |keys|
    && r.removed == b.removed + |keys|
    && KeysDistinct(r.bids) && KeysDistinct(r.log)
    && (forall key: Pubkey :: HasKey(r.bids, key) <==> HasKey(b.bids, key) && key !in keys)
    && StoredIn(r.bids, r.log)
  }

  /** What cancelling a series of stored bids leaves. */
  lemma {:induction false} CancelSeries(b: Book, max: nat, floor: u64, keys: seq<Pubkey>)
    requires KeysDistinct(b.bids) && KeysDistinct(b.log)
    requires StoredIn(b.bids, b.log)
    requires forall i :: 0 <= i < |keys| ==> HasKey(b.bids, keys[i])
    requires forall i, j :: 0 <= i < j < |keys| ==> keys[i] != keys[j]
    ensures Cancelled(b, keys, CancelAll(b, max, floor, keys))
    decreases |keys|
  {
    if keys != [] {
      var last := |keys| - 1;
      CancelSeries(b, max, floor, keys[..last]);
      var r := CancelAll(b, max, floor, keys[..last]);
      assert keys[last] !in keys[..last];
      CancelledToo(b, max, floor, keys[..last], r, keys[last], keys, Step(r, max, floor, CancelOp(keys[last])));
    }
  }

  lemma CancelledToo(b: Book, max: nat, floor: u64, init: seq<Pubkey>, r: Book, key: Pubkey, keys: seq<Pubkey>,
                     next: Book)
    requires Cancelled(b, init, r) && next == Step(r, max, floor, CancelOp(key))
    requires HasKey(b.bids, key) && key !in init && keys == init + [key]
    ensures Cancelled(b, keys, next)
  {
    CancelledOne(r, key, next);
    CancelledNext(b, init, r, key, keys, next);
  }

  /** One stored bid cancelled. */
  ghost predicate OneCancelled(b: Book, key: Pubkey, r: Book) {
    && |r.bids| == |b.bids| - 1 && |r.log| == |b.log| - 1 && r.removed == b.removed + 1
    && KeysDistinct(r.bids) && KeysDistinct(r.log)
    && (forall other: Pubkey :: HasKey(r.bids, other) <==> HasKey(b.bids, other) && other != key)
    && (forall other: Pubkey :: HasKey(r.log, other) <==> HasKey(b.log, other) && other != key)
  }

  lemma CancelledOne(b: Book, key: Pubkey, r: Book)
    requires KeysDistinct(b.bids) && KeysDistinct(b.log) && HasKey(b.bids, key) && HasKey(b.log, key)
    requires r.bids == Without(b.bids, key) && r.log == Without(b.log, key)
    requires r.removed == if |r.bids| < |b.bids| then b.removed + 1 else b.removed
    ensures OneCancelled(b, key, r)
  {
    WithoutKeeps(b.bids, key);
    WithoutKeeps(b.log, key);
    WithoutOne(b.bids, key);
    WithoutOne(b.log, key);
    forall other: Pubkey
      ensures HasKey(r.bids, other) <==> HasKey(b.bids, other) && other != key
      ensures HasKey(r.log, other) <==> HasKey(b.log, other) && other != key
    {
      HasKeyWithout(b.bids, key, other);
      HasKeyWithout(b.log, key, other);
    }
  }

  lemma CancelledNext(b: Book, init: seq<Pubkey>, r: Book, key: Pubkey, keys: seq<Pubkey>, next: Book)
    requires Cancelled(b, init, r) && OneCancelled(r, key, next)
    requires keys == init + [key]
    ensures Cancelled(b, keys, next)
  {
  }

  function CancelAll(b: Book, max: nat, floor: u64, keys: seq<Pubkey>): Book {
    if keys == [] then b
    else Step(CancelAll(b, max, floor, keys[..|keys| - 1]), max, floor, CancelOp(keys[|keys| - 1]))
  }

  /** The run leads to the book, and nobody bid twice. */
  ghost predicate Reaches(max: nat, floor: u64, ops: seq<Op>, b: Book) {
    OneBidPerKey(max, floor, ops) && Run(max, floor, ops) == b
  }

  lemma RunNext(max: nat, floor: u64, ops: seq<Op>, b: Book, op: Op, all: seq<Op>)
    requires Reaches(max, floor, ops, b) && all == ops + [op]
    requires op.PlaceOp? ==> !HasKey(b.log, op.bid.key)
    ensures Reaches(max, floor, all, Step(b, max, floor, op))
  {
    assert all[..|all| - 1] == ops;
  }

  function Cancels(keys: seq<Pubkey>): seq<Op> {
    if keys == [] then [] else Cancels(keys[..|keys| - 1]) + [CancelOp(keys[|keys| - 1])]
  }

  lemma CancelsLast(ops: seq<Op>, keys: seq<Pubkey>, init: seq<Pubkey>, key: Pubkey)
    requires keys != [] && init == keys[..|keys| - 1] && key == keys[|keys| - 1]
    ensures ops + Cancels(keys) == ops + Cancels(init) + [CancelOp(key)]
  {
  }

  lemma {:induction false} RunCancels(max: nat, floor: u64, ops: seq<Op>, b: Book, keys: seq<Pubkey>, r: Book)
    requires Reaches(max, floor, ops, b) && r == CancelAll(b, max, floor, keys)
    ensures Reaches(max, floor, ops + Cancels(keys), r)
    decreases |keys|
  {
    if keys == [] {
      assert ops + Cancels(keys) == ops;
    } else {
      var init, key := keys[..|keys| - 1], keys[|keys| - 1];
      var before := CancelAll(b, max, floor, init);
      RunCancels(max, floor, ops, b, init, before);
      CancelsLast(ops, keys, init, key);
      RunNext(max, floor, ops + Cancels(init), before, CancelOp(key), ops + Cancels(keys));
    }
  }

  /**
   When a run has filled the list and a live bid has been evicted, cancelling
   one stored bid more than there is room to spare leaves a place empty that a
   live bid should have.
   */
  lemma OneCancellationTooMany(max: nat, floor: u64, ops: seq<Op>, b: Book, keys: seq<Pubkey>, r: Book)
    requires Reaches(max, floor, ops, b) && max > 0
    requires |b.bids| == MaxArraySizeFor(max) < |b.log|
    requires |keys| == MaxArraySizeFor(max) - max + 1
    requires forall i :: 0 <= i < |keys| ==> HasKey(b.bids, keys[i])
    requires forall i, j :: 0 <= i < j < |keys| ==> keys[i] != keys[j]
    requires r == CancelAll(b, max, floor, keys)
    ensures Reaches(max, floor, ops + Cancels(keys), r)
    ensures NumWinners(r.bids, max) == max - 1 && NumWinners(r.log, max) == max
    ensures !SameWinners(r.bids, Ranked(r.log), max)
  {
    RunAgrees(max, floor, ops);
    CancelSeries(b, max, floor, keys);
    RunCancels(max, floor, ops, b, keys, r);
    if SameWinners(r.bids, Ranked(r.log), max) {
      SameNumber(r.bids, Ranked(r.log), max);
    }
  }
}
