/**
 Lists with some bids left out: the stored list is the ranking of all live bids
 without the evicted ones, and the places it reports are right exactly when each
 of those has enough stored bids above it.
 */
module BidEviction {
  import opened Prelude
  import opened BidBook
  import opened BidRanking

  /** The bids whose keys are not among those gone. */
  function Except(bids: seq<Bid>, gone: set<Pubkey>): seq<Bid> {
    if bids == [] then []
    else
      var rest := Except(bids[..|bids| - 1], gone);
      if bids[|bids| - 1].key in gone then rest else rest + [bids[|bids| - 1]]
  }

  lemma {:induction false} ExceptConcat(a: seq<Bid>, b: seq<Bid>, gone: set<Pubkey>)
    ensures Except(a + b, gone) == Except(a, gone) + Except(b, gone)
  {
    if b == [] {
      assert a + b == a;
    } else {
      assert (a + b)[..|a + b| - 1] == a + b[..|b| - 1];
      ExceptConcat(a, b[..|b| - 1], gone);
    }
  }

  lemma ExceptOne(bid: Bid, gone: set<Pubkey>)
    ensures Except([bid], gone) == if bid.key in gone then [] else [bid]
  {
    assert [bid][..0] == [];
  }

  lemma ExceptMiddle(a: seq<Bid>, bid: Bid, b: seq<Bid>, gone: set<Pubkey>)
    ensures Except(a + [bid] + b, gone) == Except(a, gone) + (if bid.key in gone then [] else [bid]) + Except(b, gone)
  {
    ExceptConcat(a + [bid], b, gone);
    ExceptConcat(a, [bid], gone);
    ExceptOne(bid, gone);
  }

  lemma {:induction false} ExceptKeeps(bids: seq<Bid>, gone: set<Pubkey>)
    ensures |Except(bids, gone)| <= |bids|
    ensures forall i :: 0 <= i < |Except(bids, gone)| ==>
              Except(bids, gone)[i] in bids && Except(bids, gone)[i].key !in gone
  {
    if bids != [] {
      ExceptKeeps(bids[..|bids| - 1], gone);
    }
  }

  lemma {:induction false} ExceptNone(bids: seq<Bid>, gone: set<Pubkey>)
    requires forall i :: 0 <= i < |bids| ==> bids[i].key !in gone
    ensures Except(bids, gone) == bids
  {
    if bids != [] {
      ExceptNone(bids[..|bids| - 1], gone);
    }
  }

  lemma {:induction false} ExceptHasKey(bids: seq<Bid>, gone: set<Pubkey>, key: Pubkey)
    ensures HasKey(Except(bids, gone), key) <==> HasKey(bids, key) && key !in gone
  {
    if bids != [] {
      var init, last := bids[..|bids| - 1], bids[|bids| - 1];
      ExceptHasKey(init, gone, key);
      assert bids == init + [last];
      HasKeyAppend(init, last, key);
      HasKeyAppend(Except(init, gone), last, key);
    }
  }

  lemma HasKeyAppend(log: seq<Bid>, bid: Bid, key: Pubkey)
    ensures HasKey(log + [bid], key) <==> HasKey(log, key) || bid.key == key
  {
    if HasKey(log, key) {
      var i :| 0 <= i < |log| && log[i].key == key;
      assert (log + [bid])[i].key == key;
    }
    assert (log + [bid])[|log|] == bid;
  }

  /** One more bid gone is one bid cancelled. */
  lemma {:induction false} ExceptMore(bids: seq<Bid>, gone: set<Pubkey>, key: Pubkey)
    ensures Except(bids, gone + {key}) == Without(Except(bids, gone), key)
  {
    if bids != [] {
      var init, last := bids[..|bids| - 1], bids[|bids| - 1];
      ExceptMore(init, gone, key);
      var rest := Except(init, gone);
      assert (rest + [last])[..|rest|] == rest;
    }
  }

  /** Cancelling a bid, stored or gone, commutes with leaving bids out. */
  lemma {:induction false} ExceptCancel(bids: seq<Bid>, gone: set<Pubkey>, key: Pubkey)
    ensures Except(Without(bids, key), gone - {key}) == Without(Except(bids, gone), key)
  {
    if bids != [] {
      var init, last := bids[..|bids| - 1], bids[|bids| - 1];
      ExceptCancel(init, gone, key);
      var rest, kept := Except(init, gone), Without(init, key);
      assert (rest + [last])[..|rest|] == rest;
      assert (kept + [last])[..|kept|] == kept;
    }
  }

  /** A key that does not occur makes no difference. */
  lemma {:induction false} ExceptAbsent(bids: seq<Bid>, gone: set<Pubkey>, key: Pubkey)
    requires !HasKey(bids, key)
    ensures Except(bids, gone - {key}) == Except(bids, gone)
  {
    if bids != [] {
      assert bids[|bids| - 1].key != key;
      AbsentPrefix(bids, key);
      ExceptAbsent(bids[..|bids| - 1], gone, key);
    }
  }

  lemma ExceptBounds(bids: seq<Bid>, gone: set<Pubkey>, amount: u64)
    ensures (forall i :: 0 <= i < |bids| ==> bids[i].amount < amount) ==>
      forall i :: 0 <= i < |Except(bids, gone)| ==> Except(bids, gone)[i].amount < amount
    ensures (forall i :: 0 <= i < |bids| ==> bids[i].amount >= amount) ==>
      forall i :: 0 <= i < |Except(bids, gone)| ==> Except(bids, gone)[i].amount >= amount
  {
    ExceptKeeps(bids, gone);
  }

  lemma InsertKept(a: seq<Bid>, bid: Bid, b: seq<Bid>, gone: set<Pubkey>)
    requires forall i :: 0 <= i < |a| ==> a[i].amount < bid.amount
    requires forall i :: 0 <= i < |b| ==> b[i].amount >= bid.amount
    ensures Insert(Except(a, gone) + Except(b, gone), bid) == Except(a, gone) + [bid] + Except(b, gone)
  {
    ExceptBounds(a, gone, bid.amount);
    ExceptBounds(b, gone, bid.amount);
    InsertBetween(Except(a, gone), Except(b, gone), bid);
  }

  lemma MiddleExcept(a: seq<Bid>, bid: Bid, b: seq<Bid>, gone: set<Pubkey>, bids: seq<Bid>, r: seq<Bid>)
    requires bids == a + b && r == a + [bid] + b
    requires forall i :: 0 <= i < |a| ==> a[i].amount < bid.amount
    requires forall i :: 0 <= i < |b| ==> b[i].amount >= bid.amount
    ensures Except(r, gone) == if bid.key in gone then Except(bids, gone) else Insert(Except(bids, gone), bid)
  {
    ExceptMiddle(a, bid, b, gone);
    ExceptConcat(a, b, gone);
    InsertKept(a, bid, b, gone);
  }

  /** Placing a bid that stays commutes with leaving others out; placing one that goes makes no difference. */
  lemma InsertExcept(bids: seq<Bid>, bid: Bid, gone: set<Pubkey>)
    requires Sorted(bids)
    ensures Except(Insert(bids, bid), gone) ==
            if bid.key in gone then Except(bids, gone) else Insert(Except(bids, gone), bid)
  {
    var a, b := AroundPlace(bids, bid, Place(bids, bid.amount));
    MiddleExcept(a, bid, b, gone, bids, Insert(bids, bid));
  }

  /** Ranking commutes with leaving bids out. */
  lemma {:induction false} RankedExcept(log: seq<Bid>, gone: set<Pubkey>)
    ensures Ranked(Except(log, gone)) == Except(Ranked(log), gone)
  {
    if log != [] {
      var init, last := log[..|log| - 1], log[|log| - 1];
      RankedExcept(init, gone);
      RankedSorted(init);
      InsertExcept(Ranked(init), last, gone);
      RankedSnoc(Except(init, gone), last);
    }
  }

  // ---------------------------------------------------------------------------
  // When the reported places are right

  /** Each place names the same winner, or none. */
  ghost predicate SameWinners(bids: seq<Bid>, ranked: seq<Bid>, max: nat) {
    forall place: nat :: WinnerAt(bids, max, place) == WinnerAt(ranked, max, place)
  }

  /** Every bid left out of a ranking has at least max others that stayed above it. */
  ghost predicate Covered(ranked: seq<Bid>, gone: set<Pubkey>, max: nat) {
    forall i :: 0 <= i < |ranked| && ranked[i].key in gone ==> |Except(ranked[i + 1..], gone)| >= max
  }

  lemma CoveredTop(ranked: seq<Bid>, gone: set<Pubkey>, max: nat)
    requires Covered(ranked, gone, max)
    ensures Except(Top(ranked, max), gone) == Top(ranked, max)
  {
    var top := Top(ranked, max);
    var from := |ranked| - |top|;
    forall i | 0 <= i < |top|
      ensures top[i].key !in gone
    {
      assert top[i] == ranked[from + i];
      ExceptKeeps(ranked[from + i + 1..], gone);
    }
    ExceptNone(top, gone);
  }

  lemma CoveredIsSame(ranked: seq<Bid>, gone: set<Pubkey>, max: nat)
    requires Covered(ranked, gone, max)
    ensures SameWinners(Except(ranked, gone), ranked, max)
  {
    CoveredTop(ranked, gone, max);
    var top := Top(ranked, max);
    var a := ranked[..|ranked| - |top|];
    assert ranked == a + top;
    ExceptConcat(a, top, gone);
    forall place: nat
      ensures WinnerAt(Except(ranked, gone), max, place) == WinnerAt(ranked, max, place)
    {
      SuffixRead(Except(a, gone), top, max, place);
      SuffixRead(a, top, max, place);
      assert a == [] ==> Except(a, gone) == [];
    }
  }

  /** Winners are read off the end of a list. */
  lemma SuffixRead(a: seq<Bid>, b: seq<Bid>, max: nat, place: nat)
    requires |b| == max || a == []
    ensures WinnerAt(a + b, max, place) == WinnerAt(b, max, place)
  {
  }

  /** The highest bid that is gone. */
  lemma {:induction false} HighestGone(ranked: seq<Bid>, gone: set<Pubkey>, i: nat) returns (m: nat)
    requires i < |ranked| && ranked[i].key in gone
    ensures i <= m < |ranked| && ranked[m].key in gone
    ensures forall k :: m < k < |ranked| ==> ranked[k].key !in gone
    decreases |ranked| - i
  {
    m := i;
    if k :| i < k < |ranked| && ranked[k].key in gone {
      m := HighestGone(ranked, gone, k);
    }
  }

  lemma ExceptSuffix(ranked: seq<Bid>, gone: set<Pubkey>, i: nat, m: nat)
    requires i <= m <= |ranked|
    ensures |Except(ranked[m..], gone)| <= |Except(ranked[i..], gone)|
  {
    assert ranked[i..] == ranked[i..m] + ranked[m..];
    ExceptConcat(ranked[i..m], ranked[m..], gone);
  }

  lemma WinnersStay(bids: seq<Bid>, gone: set<Pubkey>, max: nat, place: nat)
    requires WinnerAt(Except(bids, gone), max, place).Some?
    ensures WinnerAt(Except(bids, gone), max, place).value !in gone
  {
    ExceptKeeps(bids, gone);
  }

  /** A bid gone from the top leaves its place to another, or to nobody. */
  lemma GoneFromTop(ranked: seq<Bid>, gone: set<Pubkey>, max: nat, m: nat)
    requires m < |ranked| && ranked[m].key in gone && |ranked| - m - 1 < max
    ensures !SameWinners(Except(ranked, gone), ranked, max)
  {
    var place := |ranked| - m - 1;
    assert WinnerAt(ranked, max, place) == Some(ranked[m].key);
    if WinnerAt(Except(ranked, gone), max, place).Some? {
      WinnersStay(ranked, gone, max, place);
    }
  }

  lemma SameIsCovered(ranked: seq<Bid>, gone: set<Pubkey>, max: nat, i: nat)
    requires SameWinners(Except(ranked, gone), ranked, max)
    requires i < |ranked| && ranked[i].key in gone
    ensures |Except(ranked[i + 1..], gone)| >= max
  {
    var m := HighestGone(ranked, gone, i);
    ExceptSuffix(ranked, gone, i + 1, m + 1);
    assert |Except(ranked[m + 1..], gone)| == |ranked| - m - 1 by { ExceptNone(ranked[m + 1..], gone); }
    if |ranked| - m - 1 < max {
      GoneFromTop(ranked, gone, max, m);
    }
  }

  lemma SameIffCovered(ranked: seq<Bid>, gone: set<Pubkey>, max: nat)
    ensures SameWinners(Except(ranked, gone), ranked, max) <==> Covered(ranked, gone, max)
  {
    if Covered(ranked, gone, max) {
      CoveredIsSame(ranked, gone, max);
    }
    if SameWinners(Except(ranked, gone), ranked, max) {
      forall i | 0 <= i < |ranked| && ranked[i].key in gone
        ensures |Except(ranked[i + 1..], gone)| >= max
      {
        SameIsCovered(ranked, gone, max, i);
      }
    }
  }

  // ---------------------------------------------------------------------------
  // The same in terms of amounts and placement

  lemma SplitDistinct(a: seq<Bid>, bid: Bid, b: seq<Bid>)
    requires KeysDistinct(a + [bid] + b)
    ensures !HasKey(a, bid.key) && !HasKey(b, bid.key)
  {
    var all := a + [bid] + b;
    assert all[|a|] == bid;
    forall i | 0 <= i < |a| ensures a[i].key != bid.key {
      assert all[i] == a[i];
    }
    forall i | 0 <= i < |b| ensures b[i].key != bid.key {
      assert all[|a| + 1 + i] == b[i];
    }
  }

  /** A bid whose key occurs once has one place. */
  lemma OnePlace(a: seq<Bid>, bid: Bid, b: seq<Bid>, better: nat)
    requires !HasKey(a, bid.key) && !HasKey(b, bid.key)
    requires StandsAt(a + [bid] + b, bid, better)
    ensures better == |b|
  {
    var all := a + [bid] + b;
    forall i | 0 <= i < |all| && i != |a|
      ensures all[i].key != bid.key
    {
      assert all[i] == if i < |a| then a[i] else b[i - |a| - 1];
    }
  }

  /** With the others that are gone left out, a bid stands below as many as stored bids rank before it. */
  lemma StandsAmongStored(before: seq<Bid>, bid: Bid, after: seq<Bid>, gone: set<Pubkey>,
                          lower: seq<Bid>, upper: seq<Bid>)
    requires Ranked(before + [bid] + after) == lower + [bid] + upper && bid.key !in gone
    ensures StandsAt(Except(lower, gone) + [bid] + Except(upper, gone), bid,
                     Better(Except(before, gone), Except(after, gone), bid.amount))
  {
    ExceptMiddle(before, bid, after, gone);
    ExceptMiddle(lower, bid, upper, gone);
    RankedExcept(before + [bid] + after, gone);
    RankedAt(Except(before, gone), bid, Except(after, gone), Except(before + [bid] + after, gone),
             Except(lower, gone) + [bid] + Except(upper, gone));
  }

  /** The stored bids above a missing one in the ranking are the stored ones that rank before it. */
  lemma StoredAbove(before: seq<Bid>, bid: Bid, after: seq<Bid>, gone: set<Pubkey>, lower: seq<Bid>, upper: seq<Bid>)
    requires KeysDistinct(before + [bid] + after)
    requires Ranked(before + [bid] + after) == lower + [bid] + upper
    ensures |Except(upper, gone)| == Better(Except(before, gone), Except(after, gone), bid.amount)
  {
    var others := gone - {bid.key};
    RankedDistinct(before + [bid] + after);
    SplitDistinct(before, bid, after);
    SplitDistinct(lower, bid, upper);
    StandsAmongStored(before, bid, after, others, lower, upper);
    ExceptHasKey(lower, others, bid.key);
    ExceptHasKey(upper, others, bid.key);
    OnePlace(Except(lower, others), bid, Except(upper, others),
             Better(Except(before, others), Except(after, others), bid.amount));
    ExceptAbsent(before, gone, bid.key);
    ExceptAbsent(after, gone, bid.key);
    ExceptAbsent(upper, gone, bid.key);
  }

  /** How many of the bids that stayed rank before the j-th of the log. */
  function StoredBefore(log: seq<Bid>, gone: set<Pubkey>, j: nat): nat
    requires j < |log|
  {
    Better(Except(log[..j], gone), Except(log[j + 1..], gone), log[j].amount)
  }

  /** Every bid of the log that is gone has at least max bids that stayed ranking before it. */
  ghost predicate AllCovered(log: seq<Bid>, gone: set<Pubkey>, max: nat) {
    forall j :: 0 <= j < |log| && log[j].key in gone ==> StoredBefore(log, gone, j) >= max
  }

  lemma SplitAt(bids: seq<Bid>, i: nat)
    requires i < |bids|
    ensures bids == bids[..i] + [bids[i]] + bids[i + 1..]
  {
  }

  /** The j-th bid's place in the ranking. */
  lemma PlaceOf(log: seq<Bid>, j: nat, ranked: seq<Bid>) returns (i: nat)
    requires j < |log| && ranked == Ranked(log)
    ensures i < |ranked| && ranked[i] == log[j]
  {
    SplitAt(log, j);
    RankedAt(log[..j], log[j], log[j + 1..], log, ranked);
    i := |ranked| - 1 - Better(log[..j], log[j + 1..], log[j].amount);
  }

  lemma StoredAbovePlace(log: seq<Bid>, gone: set<Pubkey>, j: nat, ranked: seq<Bid>, i: nat)
    requires KeysDistinct(log) && j < |log| && ranked == Ranked(log)
    requires i < |ranked| && ranked[i] == log[j]
    ensures |Except(ranked[i + 1..], gone)| == StoredBefore(log, gone, j)
  {
    SplitAt(log, j);
    SplitAt(ranked, i);
    StoredAbove(log[..j], log[j], log[j + 1..], gone, ranked[..i], ranked[i + 1..]);
  }

  /** Every bid of a ranking was placed at some time. */
  lemma PlacedAt(log: seq<Bid>, ranked: seq<Bid>, i: nat) returns (j: nat)
    requires KeysDistinct(log) && ranked == Ranked(log) && i < |ranked|
    ensures j < |log| && log[j] == ranked[i]
  {
    RankedWithout(log, ranked[i].key);
    j :| 0 <= j < |log| && log[j].key == ranked[i].key;
    var k := PlaceOf(log, j, ranked);
    RankedDistinct(log);
    SameKeySamePlace(ranked, i, k);
  }

  lemma SameKeySamePlace(bids: seq<Bid>, i: nat, k: nat)
    requires KeysDistinct(bids) && i < |bids| && k < |bids| && bids[i].key == bids[k].key
    ensures i == k
  {
  }

  lemma CoveredInLog(log: seq<Bid>, gone: set<Pubkey>, max: nat, ranked: seq<Bid>, j: nat)
    requires KeysDistinct(log) && ranked == Ranked(log) && Covered(ranked, gone, max)
    requires j < |log| && log[j].key in gone
    ensures StoredBefore(log, gone, j) >= max
  {
    var i := PlaceOf(log, j, ranked);
    StoredAbovePlace(log, gone, j, ranked, i);
  }

  lemma CoveredInRanking(log: seq<Bid>, gone: set<Pubkey>, max: nat, ranked: seq<Bid>, i: nat)
    requires KeysDistinct(log) && ranked == Ranked(log) && AllCovered(log, gone, max)
    requires i < |ranked| && ranked[i].key in gone
    ensures |Except(ranked[i + 1..], gone)| >= max
  {
    var j := PlacedAt(log, ranked, i);
    StoredAbovePlace(log, gone, j, ranked, i);
  }

  lemma CoveredIff(log: seq<Bid>, gone: set<Pubkey>, max: nat, ranked: seq<Bid>)
    requires KeysDistinct(log) && ranked == Ranked(log)
    ensures Covered(ranked, gone, max) <==> AllCovered(log, gone, max)
  {
    if Covered(ranked, gone, max) {
      forall j | 0 <= j < |log| && log[j].key in gone
        ensures StoredBefore(log, gone, j) >= max
      {
        CoveredInLog(log, gone, max, ranked, j);
      }
    }
    if AllCovered(log, gone, max) {
      forall i | 0 <= i < |ranked| && ranked[i].key in gone
        ensures |Except(ranked[i + 1..], gone)| >= max
      {
        CoveredInRanking(log, gone, max, ranked, i);
      }
    }
  }
}
