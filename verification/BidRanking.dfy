/**
 The bid list against its meaning: rank all live bids by amount, earlier
 placement first among equals, and take the top `max`.
 */
module BidRanking {
  import opened Prelude
  import opened BidBook

  // ---------------------------------------------------------------------------
  // What each operation keeps

  lemma InsertKeepsSorted(bids: seq<Bid>, bid: Bid)
    requires Sorted(bids)
    ensures Sorted(Insert(bids, bid))
  {
    var p := Place(bids, bid.amount);
    assert forall i :: 0 <= i < p ==> bids[i].amount <= bids[p - 1].amount;
  }

  lemma InsertKeepsDistinct(bids: seq<Bid>, bid: Bid)
    requires KeysDistinct(bids) && !HasKey(bids, bid.key)
    ensures KeysDistinct(Insert(bids, bid))
  {
  }

  lemma TrimKeeps(bids: seq<Bid>, size: nat)
    ensures Sorted(bids) ==> Sorted(Trim(bids, size))
    ensures KeysDistinct(bids) ==> KeysDistinct(Trim(bids, size))
  {
  }

  /** Cancelling keeps the others, in order. */
  lemma {:induction false} WithoutTakes(bids: seq<Bid>, key: Pubkey)
    ensures |Without(bids, key)| <= |bids|
    ensures forall i :: 0 <= i < |Without(bids, key)| ==>
              Without(bids, key)[i] in bids && Without(bids, key)[i].key != key
  {
    if bids != [] {
      WithoutTakes(bids[..|bids| - 1], key);
    }
  }

  lemma {:induction false} WithoutKeeps(bids: seq<Bid>, key: Pubkey)
    ensures |Without(bids, key)| <= |bids|
    ensures forall i :: 0 <= i < |Without(bids, key)| ==>
              Without(bids, key)[i] in bids && Without(bids, key)[i].key != key
    ensures Sorted(bids) ==> Sorted(Without(bids, key))
    ensures KeysDistinct(bids) ==> KeysDistinct(Without(bids, key))
  {
    WithoutTakes(bids, key);
    if bids != [] {
      var init := bids[..|bids| - 1];
      WithoutKeeps(init, key);
      WithoutTakes(init, key);
    }
  }

  lemma AbsentPrefix(bids: seq<Bid>, key: Pubkey)
    requires !HasKey(bids, key) && bids != []
    ensures !HasKey(bids[..|bids| - 1], key)
  {
    var init := bids[..|bids| - 1];
    forall i | 0 <= i < |init| ensures init[i].key != key {
      assert bids[i].key != key;
    }
  }

  lemma {:induction false} WithoutAbsent(bids: seq<Bid>, key: Pubkey)
    requires !HasKey(bids, key)
    ensures Without(bids, key) == bids
  {
    if bids != [] {
      var last := |bids| - 1;
      assert bids[last].key != key;
      AbsentPrefix(bids, key);
      WithoutAbsent(bids[..last], key);
    }
  }

  lemma {:induction false} WithoutConcat(a: seq<Bid>, b: seq<Bid>, key: Pubkey)
    ensures Without(a + b, key) == Without(a, key) + Without(b, key)
  {
    if b == [] {
      assert a + b == a;
    } else {
      var last := |b| - 1;
      assert (a + b)[..|a + b| - 1] == a + b[..last];
      WithoutConcat(a, b[..last], key);
    }
  }

  /** What the book promises between calls. */
  ghost predicate BookOk(bids: seq<Bid>, max: nat, floor: u64) {
    && Sorted(bids)
    && KeysDistinct(bids)
    && |bids| <= MaxArraySizeFor(max)
    && AboveFloor(bids, floor)
  }

  ghost predicate AboveFloor(bids: seq<Bid>, floor: u64) {
    forall i :: 0 <= i < |bids| ==> bids[i].amount >= floor
  }

  lemma PlaceKeepsBook(bids: seq<Bid>, max: nat, floor: u64, bid: Bid, tickSize: Option<u64>, gapTick: Option<u8>)
    requires BookOk(bids, max, floor) && !HasKey(bids, bid.key)
    requires PlaceBidSpec(bids, max, bid, tickSize, gapTick, floor).Ok?
    ensures BookOk(PlaceBidSpec(bids, max, bid, tickSize, gapTick, floor).value, max, floor)
  {
    var inserted := Insert(bids, bid);
    assert Sorted(inserted) by { InsertKeepsSorted(bids, bid); }
    assert KeysDistinct(inserted) by { InsertKeepsDistinct(bids, bid); }
    assert AboveFloor(inserted, floor) by { InsertKeepsFloor(bids, bid, floor); }
    TrimKeepsBook(inserted, max, floor, PlaceBidSpec(bids, max, bid, tickSize, gapTick, floor).value);
  }

  lemma InsertKeepsFloor(bids: seq<Bid>, bid: Bid, floor: u64)
    requires AboveFloor(bids, floor) && bid.amount >= floor
    ensures AboveFloor(Insert(bids, bid), floor)
  {
  }

  lemma TrimKeepsBook(bids: seq<Bid>, max: nat, floor: u64, r: seq<Bid>)
    requires Sorted(bids) && KeysDistinct(bids) && AboveFloor(bids, floor) && |bids| <= MaxArraySizeFor(max) + 1
    requires r == Trim(bids, MaxArraySizeFor(max))
    ensures BookOk(r, max, floor)
  {
    assert Sorted(r) && KeysDistinct(r) by { TrimKeeps(bids, MaxArraySizeFor(max)); }
    assert AboveFloor(r, floor);
  }

  lemma CancelKeepsBook(bids: seq<Bid>, max: nat, floor: u64, key: Pubkey)
    requires BookOk(bids, max, floor)
    ensures BookOk(Without(bids, key), max, floor) && !HasKey(Without(bids, key), key)
  {
    WithoutKeeps(bids, key);
  }

  /** Cancelling undoes a placement that evicted nobody. */
  lemma CancelUndoesPlace(bids: seq<Bid>, max: nat, floor: u64, bid: Bid, tickSize: Option<u64>, gapTick: Option<u8>)
    requires BookOk(bids, max, floor) && !HasKey(bids, bid.key) && |bids| < MaxArraySizeFor(max)
    requires PlaceBidSpec(bids, max, bid, tickSize, gapTick, floor).Ok?
    ensures Without(PlaceBidSpec(bids, max, bid, tickSize, gapTick, floor).value, bid.key) == bids
  {
    WithoutInserted(bids, bid);
  }

  lemma WithoutInserted(bids: seq<Bid>, bid: Bid)
    requires !HasKey(bids, bid.key)
    ensures Without(Insert(bids, bid), bid.key) == bids
  {
    var p := Place(bids, bid.amount);
    WithoutBetween(bids[..p], bid, bids[p..]);
    assert bids[..p] + bids[p..] == bids;
  }

  lemma WithoutBetween(a: seq<Bid>, bid: Bid, b: seq<Bid>)
    requires !HasKey(a, bid.key) && !HasKey(b, bid.key)
    ensures Without(a + [bid] + b, bid.key) == a + b
  {
    WithoutConcat(a + [bid], b, bid.key);
    WithoutConcat(a, [bid], bid.key);
    assert Without([bid], bid.key) == [] by { assert [bid][..0] == []; }
    WithoutAbsent(a, bid.key);
    WithoutAbsent(b, bid.key);
  }

  /** Winners and their places determine each other. */
  lemma WinnersInvert(bids: seq<Bid>, max: nat, floor: u64, key: Pubkey, place: nat)
    requires BookOk(bids, max, floor)
    ensures IsWinner(bids, max, key, floor) == Some(place) <==> WinnerAt(bids, max, place) == Some(key)
  {
    if WinnerAt(bids, max, place) == Some(key) {
      var p := PositionOf(bids, key, floor, 0);
      var i := |bids| - place - 1;
      assert bids[i].key == key && bids[i].amount >= floor;
      assert p.Some?;
      assert p.value == i;
    }
  }

  /** The instant-sale test: every prize is taken by a bid at the price or above. */
  lemma InstantSaleExactly(bids: seq<Bid>, max: nat, floor: u64, price: u64)
    requires BookOk(bids, max, floor) && max > 0
    ensures LowestWinningBidIsInstantPrice(bids, max, price) == Some(true) <==>
      |bids| >= max && forall place: nat :: place < max ==> AmountAt(bids, place) >= price
    ensures SoldOut(bids, max, Some(price)) <==>
      |bids| >= max && forall place: nat :: place < max ==> AmountAt(bids, place) >= price
    ensures !SoldOut(bids, max, None)
  {
    if |bids| >= max {
      assert AmountAt(bids, max - 1) == bids[|bids| - max].amount;
      forall place: nat | place < max
        ensures AmountAt(bids, place) >= bids[|bids| - max].amount
      {
        assert bids[|bids| - max].amount <= bids[|bids| - place - 1].amount;
      }
    }
  }

  // ---------------------------------------------------------------------------
  // The top of a list

  function Top(bids: seq<Bid>, n: nat): seq<Bid> {
    if |bids| <= n then bids else bids[|bids| - n..]
  }

  /** Where a bid lands in the tail decides where it lands in the whole. */
  lemma PlaceConcat(a: seq<Bid>, b: seq<Bid>, amount: u64)
    ensures Place(a + b, amount) == if Place(b, amount) > 0 then |a| + Place(b, amount) else Place(a, amount)
  {
    PlaceUnique(a + b, amount, if Place(b, amount) > 0 then |a| + Place(b, amount) else Place(a, amount));
  }

  /** An insertion into the tail is an insertion into the whole. */
  lemma InsertIntoTail(a: seq<Bid>, b: seq<Bid>, bid: Bid)
    requires Place(b, bid.amount) > 0
    ensures Insert(a + b, bid) == a + Insert(b, bid)
  {
    PlaceConcat(a, b, bid.amount);
    SpliceTail(a, b, bid, Place(b, bid.amount));
  }

  lemma SpliceTail(a: seq<Bid>, b: seq<Bid>, bid: Bid, p: nat)
    requires p <= |b|
    ensures Splice(a + b, |a| + p, bid) == a + Splice(b, p, bid)
  {
    assert (a + b)[..|a| + p] == a + b[..p];
    assert (a + b)[|a| + p..] == b[p..];
  }

  lemma SpliceHead(a: seq<Bid>, b: seq<Bid>, bid: Bid, p: nat)
    requires p <= |a|
    ensures Splice(a + b, p, bid) == Splice(a, p, bid) + b
  {
    assert (a + b)[..p] == a[..p];
    assert (a + b)[p..] == a[p..] + b;
  }

  /** A bid that does not beat the tail goes below it. */
  lemma InsertBelowTail(a: seq<Bid>, b: seq<Bid>, bid: Bid)
    requires Place(b, bid.amount) == 0
    ensures Insert(a + b, bid) == Insert(a, bid) + b
    ensures Insert(b, bid) == [bid] + b
  {
    PlaceConcat(a, b, bid.amount);
    SpliceHead(a, b, bid, Place(a, bid.amount));
  }

  lemma TopOfConcat(a: seq<Bid>, b: seq<Bid>, n: nat)
    requires n <= |b|
    ensures Top(a + b, n) == Top(b, n)
  {
  }

  /** The top n after an insertion depend only on the top n before it. */
  lemma InsertTop(bids: seq<Bid>, bid: Bid, n: nat)
    ensures Top(Insert(bids, bid), n) == Top(Insert(Top(bids, n), bid), n)
  {
    if |bids| > n {
      var a, b := bids[..|bids| - n], Top(bids, n);
      assert bids == a + b;
      if Place(b, bid.amount) > 0 {
        InsertIntoTail(a, b, bid);
        TopOfConcat(a, Insert(b, bid), n);
      } else {
        InsertBelowTail(a, b, bid);
        TopOfConcat(Insert(a, bid), b, n);
        TopOfConcat([bid], b, n);
      }
    }
  }

  lemma TrimTop(bids: seq<Bid>, size: nat, n: nat)
    requires n <= size && |bids| <= size + 1
    ensures Top(Trim(bids, size), n) == Top(bids, n)
  {
  }

  lemma TopOfTop(bids: seq<Bid>, m: nat, n: nat)
    requires m <= n
    ensures Top(Top(bids, n), m) == Top(bids, m)
  {
  }

  lemma HasKeyTop(bids: seq<Bid>, key: Pubkey, n: nat)
    requires n < |bids|
    ensures HasKey(bids, key) <==> HasKey(bids[..|bids| - n], key) || HasKey(Top(bids, n), key)
  {
    var m := |bids| - n;
    if HasKey(bids, key) {
      var i :| 0 <= i < |bids| && bids[i].key == key;
      if i < m {
        assert bids[..m][i].key == key;
      } else {
        assert Top(bids, n)[i - m].key == key;
      }
    }
    if HasKey(bids[..m], key) {
      var i :| 0 <= i < m && bids[..m][i].key == key;
      assert bids[i].key == key;
    }
    if HasKey(Top(bids, n), key) {
      var i :| 0 <= i < n && Top(bids, n)[i].key == key;
      assert bids[m + i].key == key;
    }
  }

  /** Cancelling a bid below the top n leaves them alone. */
  lemma WithoutBelow(bids: seq<Bid>, key: Pubkey, n: nat)
    requires !HasKey(Top(bids, n), key)
    ensures Top(Without(bids, key), n) == Top(bids, n)
  {
    WithoutAbsent(Top(bids, n), key);
    if |bids| > n {
      var a, b := bids[..|bids| - n], bids[|bids| - n..];
      assert bids == a + b;
      WithoutConcat(a, b, key);
    }
  }

  /** Cancelling one of the top n leaves the others of the top n on top. */
  lemma WithoutWithin(bids: seq<Bid>, key: Pubkey, n: nat)
    requires KeysDistinct(bids) && HasKey(Top(bids, n), key)
    ensures n > 0
    ensures Top(Without(bids, key), n - 1) == Top(Without(Top(bids, n), key), n - 1)
  {
    if |bids| > n {
      var a, b := bids[..|bids| - n], bids[|bids| - n..];
      assert bids == a + b;
      WithoutConcat(a, b, key);
      WithoutOne(b, key);
      assert |Without(b, key)| == n - 1;
    }
  }

  lemma {:induction false} WithoutOne(bids: seq<Bid>, key: Pubkey)
    requires KeysDistinct(bids) && HasKey(bids, key)
    ensures |Without(bids, key)| == |bids| - 1
  {
    var last := |bids| - 1;
    var i :| 0 <= i < |bids| && bids[i].key == key;
    if i == last {
      assert !HasKey(bids[..last], key);
      WithoutAbsent(bids[..last], key);
    } else {
      assert bids[..last][i].key == key;
      WithoutOne(bids[..last], key);
    }
  }

  // ---------------------------------------------------------------------------
  // The ranking that is meant

  /** How many bids are at or above an amount, and how many are above it. */
  function AtLeast(bids: seq<Bid>, amount: u64): nat {
    if bids == [] then 0
    else AtLeast(bids[..|bids| - 1], amount) + if bids[|bids| - 1].amount >= amount then 1 else 0
  }

  function Above(bids: seq<Bid>, amount: u64): nat {
    if bids == [] then 0
    else Above(bids[..|bids| - 1], amount) + if bids[|bids| - 1].amount > amount then 1 else 0
  }

  /** How many bids rank before one of this amount: earlier ones that are as high, and later ones that are higher. */
  function Better(before: seq<Bid>, after: seq<Bid>, amount: u64): nat {
    AtLeast(before, amount) + Above(after, amount)
  }

  /** The live bids in ascending rank, by inserting them in order of placement. */
  function Ranked(log: seq<Bid>): (r: seq<Bid>)
    ensures |r| == |log|
  {
    if log == [] then [] else Insert(Ranked(log[..|log| - 1]), log[|log| - 1])
  }

  lemma {:induction false} AtLeastConcat(a: seq<Bid>, b: seq<Bid>, amount: u64)
    ensures AtLeast(a + b, amount) == AtLeast(a, amount) + AtLeast(b, amount)
  {
    if b == [] {
      assert a + b == a;
    } else {
      assert (a + b)[..|a + b| - 1] == a + b[..|b| - 1];
      AtLeastConcat(a, b[..|b| - 1], amount);
    }
  }

  lemma AtLeastInsert(bids: seq<Bid>, bid: Bid, amount: u64)
    ensures AtLeast(Insert(bids, bid), amount) == AtLeast(bids, amount) + if bid.amount >= amount then 1 else 0
  {
    var p := Place(bids, bid.amount);
    AtLeastConcat(bids[..p] + [bid], bids[p..], amount);
    AtLeastConcat(bids[..p], [bid], amount);
    AtLeastConcat(bids[..p], bids[p..], amount);
    assert [bid][..0] == [];
    assert bids[..p] + bids[p..] == bids;
  }

  /** Ranking neither loses nor invents bids. */
  lemma {:induction false} AtLeastRanked(log: seq<Bid>, amount: u64)
    ensures AtLeast(Ranked(log), amount) == AtLeast(log, amount)
  {
    if log != [] {
      AtLeastRanked(log[..|log| - 1], amount);
      AtLeastInsert(Ranked(log[..|log| - 1]), log[|log| - 1], amount);
    }
  }

  lemma {:induction false} RankedSorted(log: seq<Bid>)
    ensures Sorted(Ranked(log))
  {
    if log != [] {
      RankedSorted(log[..|log| - 1]);
      InsertKeepsSorted(Ranked(log[..|log| - 1]), log[|log| - 1]);
    }
  }

  /** In a sorted list the bids at or above an amount are those from its place on. */
  lemma PlaceSorted(bids: seq<Bid>, amount: u64)
    requires Sorted(bids)
    ensures Place(bids, amount) + AtLeast(bids, amount) == |bids|
  {
    var p := Place(bids, amount);
    BelowPlace(bids, amount);
    AtLeastSplit(bids[..p], bids[p..], amount);
    assert bids[..p] + bids[p..] == bids;
  }

  lemma AtLeastSplit(a: seq<Bid>, b: seq<Bid>, amount: u64)
    requires forall i :: 0 <= i < |a| ==> a[i].amount < amount
    requires forall i :: 0 <= i < |b| ==> b[i].amount >= amount
    ensures AtLeast(a + b, amount) == |b|
  {
    AtLeastConcat(a, b, amount);
    NoneAtLeast(a, amount);
    AllAtLeast(b, amount);
  }

  lemma {:induction false} NoneAtLeast(bids: seq<Bid>, amount: u64)
    requires forall i :: 0 <= i < |bids| ==> bids[i].amount < amount
    ensures AtLeast(bids, amount) == 0
  {
    if bids != [] {
      NoneAtLeast(bids[..|bids| - 1], amount);
    }
  }

  lemma {:induction false} AllAtLeast(bids: seq<Bid>, amount: u64)
    requires forall i :: 0 <= i < |bids| ==> bids[i].amount >= amount
    ensures AtLeast(bids, amount) == |bids|
  {
    if bids != [] {
      AllAtLeast(bids[..|bids| - 1], amount);
    }
  }

  /** The bid placed last stands below all that are at least as high. */
  lemma RankedLast(log: seq<Bid>, bid: Bid, ranked: seq<Bid>)
    requires ranked == Ranked(log)
    ensures AtLeast(log, bid.amount) <= |ranked|
    ensures Insert(ranked, bid)[|ranked| - AtLeast(log, bid.amount)] == bid
  {
    AtLeastRanked(log, bid.amount);
    RankedSorted(log);
    PlaceSorted(ranked, bid.amount);
  }

  lemma RankedSnoc(log: seq<Bid>, bid: Bid)
    ensures Ranked(log + [bid]) == Insert(Ranked(log), bid)
  {
    assert (log + [bid])[..|log|] == log;
  }

  /** The bid that `better` others of a ranking precede. */
  ghost predicate StandsAt(ranked: seq<Bid>, bid: Bid, better: nat) {
    better < |ranked| && ranked[|ranked| - 1 - better] == bid
  }

  /** A later bid pushes an earlier one down by one place if it is higher, and not otherwise. */
  lemma StandsNext(ranked: seq<Bid>, bid: Bid, better: nat, later: Bid)
    requires Sorted(ranked) && StandsAt(ranked, bid, better)
    ensures StandsAt(Insert(ranked, later), bid, if later.amount > bid.amount then better + 1 else better)
  {
    InsertMoves(ranked, later, |ranked| - 1 - better);
  }

  lemma RankedNext(log: seq<Bid>, bid: Bid, better: nat, later: Bid)
    requires StandsAt(Ranked(log), bid, better)
    ensures StandsAt(Ranked(log + [later]), bid, if later.amount > bid.amount then better + 1 else better)
  {
    RankedSorted(log);
    StandsNext(Ranked(log), bid, better, later);
    RankedSnoc(log, later);
  }

  lemma BetterNext(before: seq<Bid>, after: seq<Bid>, amount: u64, later: Bid)
    ensures Better(before, after + [later], amount) ==
            Better(before, after, amount) + if later.amount > amount then 1 else 0
  {
    assert (after + [later])[..|after|] == after;
  }

  lemma RankedFirst(before: seq<Bid>, bid: Bid, ranked: seq<Bid>)
    requires ranked == Ranked(before + [bid])
    ensures StandsAt(ranked, bid, AtLeast(before, bid.amount))
  {
    RankedSnoc(before, bid);
    RankedLast(before, bid, Ranked(before));
  }

  lemma Regroup(before: seq<Bid>, bid: Bid, init: seq<Bid>, later: Bid)
    ensures before + [bid] + (init + [later]) == before + [bid] + init + [later]
  {
  }

  lemma RankedAtNext(before: seq<Bid>, bid: Bid, init: seq<Bid>, later: Bid, log: seq<Bid>, ranked: seq<Bid>)
    requires StandsAt(Ranked(before + [bid] + init), bid, Better(before, init, bid.amount))
    requires log == before + [bid] + (init + [later]) && ranked == Ranked(log)
    ensures StandsAt(ranked, bid, Better(before, init + [later], bid.amount))
  {
    Regroup(before, bid, init, later);
    RankedNext(before + [bid] + init, bid, Better(before, init, bid.amount), later);
    BetterNext(before, init, bid.amount, later);
  }

  /** A bid stands exactly below the bids that rank before it. */
  lemma {:induction false} RankedAt(before: seq<Bid>, bid: Bid, after: seq<Bid>, log: seq<Bid>, ranked: seq<Bid>)
    requires log == before + [bid] + after && ranked == Ranked(log)
    ensures StandsAt(ranked, bid, Better(before, after, bid.amount))
    decreases |after|
  {
    if after == [] {
      assert log == before + [bid];
      RankedFirst(before, bid, ranked);
    } else {
      var init, later := after[..|after| - 1], after[|after| - 1];
      assert after == init + [later];
      RankedAt(before, bid, init, before + [bid] + init, Ranked(before + [bid] + init));
      RankedAtNext(before, bid, init, later, log, ranked);
    }
  }

  lemma InsertMoves(bids: seq<Bid>, bid: Bid, q: nat)
    requires Sorted(bids) && q < |bids|
    ensures if bid.amount > bids[q].amount then Insert(bids, bid)[q] == bids[q] else Insert(bids, bid)[q + 1] == bids[q]
  {
    var p := Place(bids, bid.amount);
    if bid.amount > bids[q].amount {
      assert q < p;
    } else {
      assert p > 0 ==> bids[p - 1].amount < bid.amount;
      assert p <= q;
    }
  }

  /** Ranking commutes with cancelling. */
  lemma {:induction false} RankedWithout(log: seq<Bid>, key: Pubkey)
    requires KeysDistinct(log)
    ensures Ranked(Without(log, key)) == Without(Ranked(log), key)
    ensures HasKey(Ranked(log), key) <==> HasKey(log, key)
  {
    if log != [] {
      var last := |log| - 1;
      var before := Ranked(log[..last]);
      var bid := log[last];
      RankedWithout(log[..last], key);
      RankedSorted(log[..last]);
      HasKeyInsert(before, bid, key);
      HasKeyLast(log, key);
      if bid.key == key {
        WithoutAbsent(log[..last], key);
        WithoutInserted(before, bid);
      } else {
        InsertWithout(before, bid, key);
        var kept := Without(log[..last], key);
        assert (kept + [bid])[..|kept|] == kept;
      }
    }
  }

  lemma {:induction false} RankedDistinct(log: seq<Bid>)
    requires KeysDistinct(log)
    ensures KeysDistinct(Ranked(log))
    decreases |log|
  {
    if log != [] {
      var last := |log| - 1;
      RankedDistinct(log[..last]);
      RankedWithout(log[..last], log[last].key);
      HasKeyLast(log, log[last].key);
      InsertKeepsDistinct(Ranked(log[..last]), log[last]);
    }
  }

  lemma HasKeyLast(log: seq<Bid>, key: Pubkey)
    requires KeysDistinct(log) && log != []
    ensures HasKey(log, key) <==> HasKey(log[..|log| - 1], key) || log[|log| - 1].key == key
    ensures log[|log| - 1].key == key ==> !HasKey(log[..|log| - 1], key)
  {
    var last := |log| - 1;
    if HasKey(log, key) && log[last].key != key {
      var i :| 0 <= i < |log| && log[i].key == key;
      assert log[..last][i].key == key;
    }
    if HasKey(log[..last], key) {
      var i :| 0 <= i < last && log[..last][i].key == key;
      assert log[i].key == key;
    }
  }

  lemma HasKeyInsert(bids: seq<Bid>, bid: Bid, key: Pubkey)
    ensures HasKey(Insert(bids, bid), key) <==> HasKey(bids, key) || bid.key == key
  {
    var p := Place(bids, bid.amount);
    var r := Insert(bids, bid);
    assert r[p] == bid;
    assert forall i :: 0 <= i < |bids| ==> r[if i < p then i else i + 1] == bids[i];
    if HasKey(bids, key) {
      var i :| 0 <= i < |bids| && bids[i].key == key;
      assert r[if i < p then i else i + 1].key == key;
    }
  }

  /** Two lists on either side of an amount meet where a bid of that amount goes. */
  lemma InsertBetween(a: seq<Bid>, b: seq<Bid>, bid: Bid)
    requires forall i :: 0 <= i < |a| ==> a[i].amount < bid.amount
    requires forall i :: 0 <= i < |b| ==> b[i].amount >= bid.amount
    ensures Insert(a + b, bid) == a + [bid] + b
  {
    PlaceUnique(a + b, bid.amount, |a|);
    assert (a + b)[..|a|] == a && (a + b)[|a|..] == b;
  }

  lemma WithoutMiddle(a: seq<Bid>, bid: Bid, b: seq<Bid>, key: Pubkey)
    requires bid.key != key
    ensures Without(a + [bid] + b, key) == Without(a, key) + [bid] + Without(b, key)
  {
    WithoutConcat(a + [bid], b, key);
    WithoutConcat(a, [bid], key);
    assert Without([bid], key) == [bid] by { assert [bid][..0] == []; }
  }

  lemma BelowPlace(bids: seq<Bid>, amount: u64)
    requires Sorted(bids)
    ensures forall i :: 0 <= i < Place(bids, amount) ==> bids[i].amount < amount
  {
    var p := Place(bids, amount);
    assert forall i :: 0 <= i < p ==> bids[i].amount <= bids[p - 1].amount;
  }

  lemma MiddleWithout(a: seq<Bid>, bid: Bid, b: seq<Bid>, key: Pubkey, bids: seq<Bid>, r: seq<Bid>)
    requires bids == a + b && r == a + [bid] + b && bid.key != key
    requires forall i :: 0 <= i < |a| ==> a[i].amount < bid.amount
    requires forall i :: 0 <= i < |b| ==> b[i].amount >= bid.amount
    ensures Without(r, key) == Insert(Without(bids, key), bid)
  {
    WithoutMiddle(a, bid, b, key);
    WithoutConcat(a, b, key);
    WithoutBounds(a, key, bid.amount);
    WithoutBounds(b, key, bid.amount);
    InsertBetween(Without(a, key), Without(b, key), bid);
  }

  lemma SpliceParts(bids: seq<Bid>, p: nat, bid: Bid, a: seq<Bid>, b: seq<Bid>)
    requires p <= |bids| && a == bids[..p] && b == bids[p..]
    ensures bids == a + b && Splice(bids, p, bid) == a + [bid] + b
  {
  }

  lemma PartsBounded(bids: seq<Bid>, amount: u64, p: nat, a: seq<Bid>, b: seq<Bid>)
    requires Sorted(bids) && p == Place(bids, amount) && a == bids[..p] && b == bids[p..]
    ensures forall i :: 0 <= i < |a| ==> a[i].amount < amount
    ensures forall i :: 0 <= i < |b| ==> b[i].amount >= amount
  {
    BelowPlace(bids, amount);
  }

  /** A sorted list around the place of a bid. */
  lemma AroundPlace(bids: seq<Bid>, bid: Bid, p: nat) returns (a: seq<Bid>, b: seq<Bid>)
    requires Sorted(bids) && p == Place(bids, bid.amount)
    ensures bids == a + b && Splice(bids, p, bid) == a + [bid] + b
    ensures forall i :: 0 <= i < |a| ==> a[i].amount < bid.amount
    ensures forall i :: 0 <= i < |b| ==> b[i].amount >= bid.amount
  {
    a, b := bids[..p], bids[p..];
    PartsBounded(bids, bid.amount, p, a, b);
    SpliceParts(bids, p, bid, a, b);
  }

  /** Cancelling another's bid commutes with placing one. */
  lemma InsertWithout(bids: seq<Bid>, bid: Bid, key: Pubkey)
    requires Sorted(bids) && bid.key != key
    ensures Without(Insert(bids, bid), key) == Insert(Without(bids, key), bid)
  {
    var a, b := AroundPlace(bids, bid, Place(bids, bid.amount));
    MiddleWithout(a, bid, b, key, bids, Insert(bids, bid));
  }

  lemma WithoutBounds(bids: seq<Bid>, key: Pubkey, amount: u64)
    ensures (forall i :: 0 <= i < |bids| ==> bids[i].amount < amount) ==>
      forall i :: 0 <= i < |Without(bids, key)| ==> Without(bids, key)[i].amount < amount
    ensures (forall i :: 0 <= i < |bids| ==> bids[i].amount >= amount) ==>
      forall i :: 0 <= i < |Without(bids, key)| ==> Without(bids, key)[i].amount >= amount
  {
    WithoutKeeps(bids, key);
  }
}
