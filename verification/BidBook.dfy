/**
 The English auction's bid list (rust/auction/program/src/processor.rs): bids in
 ascending order, the best one last, equal bids with the earlier one nearer the
 end, and no more of them than a multiple of the number of prizes.
 */
module BidBook {
  import opened Prelude

  type Pubkey = k: seq<byte> | |k| == 32 witness seq(32, _ => 0)

  datatype Bid = Bid(key: Pubkey, amount: u64)

  datatype BidError = BidMustBeMultipleOfTickSize | BidTooSmall | GapBetweenBidsTooSmall | Aborted

  datatype AuctionState = Created | Started | Ended

  function MaxArraySizeFor(n: nat): (k: nat)
    ensures n <= k && 8 <= k
  {
    if n < 8 then 8 else 2 * n
  }

  // ---------------------------------------------------------------------------
  // The list

  ghost predicate Sorted(bids: seq<Bid>) {
    forall i, j :: 0 <= i <= j < |bids| ==> bids[i].amount <= bids[j].amount
  }

  ghost predicate KeysDistinct(bids: seq<Bid>) {
    forall i, j :: 0 <= i < j < |bids| ==> bids[i].key != bids[j].key
  }

  ghost predicate HasKey(bids: seq<Bid>, key: Pubkey) {
    exists i :: 0 <= i < |bids| && bids[i].key == key
  }

  /** Where a bid of this amount goes: behind the last lower bid. */
  function Place(bids: seq<Bid>, amount: u64): (p: nat)
    ensures p <= |bids|
    ensures p > 0 ==> bids[p - 1].amount < amount
    ensures forall i :: p <= i < |bids| ==> bids[i].amount >= amount
  {
    PlaceUpTo(bids, amount, |bids|)
  }

  /** The walk down from position n. */
  function PlaceUpTo(bids: seq<Bid>, amount: u64, n: nat): (p: nat)
    requires n <= |bids|
    ensures p <= n
    ensures p > 0 ==> bids[p - 1].amount < amount
    ensures forall i :: p <= i < n ==> bids[i].amount >= amount
  {
    if n == 0 || bids[n - 1].amount < amount then n else PlaceUpTo(bids, amount, n - 1)
  }

  /** Place is the only such position. */
  lemma PlaceUnique(bids: seq<Bid>, amount: u64, p: nat)
    requires p <= |bids|
    requires p > 0 ==> bids[p - 1].amount < amount
    requires forall i :: p <= i < |bids| ==> bids[i].amount >= amount
    ensures Place(bids, amount) == p
  {
  }

  function Splice(bids: seq<Bid>, p: nat, bid: Bid): (r: seq<Bid>)
    requires p <= |bids|
    ensures |r| == |bids| + 1
  {
    bids[..p] + [bid] + bids[p..]
  }

  function Insert(bids: seq<Bid>, bid: Bid): (r: seq<Bid>)
    ensures |r| == |bids| + 1
  {
    Splice(bids, Place(bids, bid.amount), bid)
  }

  /** The lowest bid falls off a list that has grown too long. */
  function Trim(bids: seq<Bid>, size: nat): seq<Bid> {
    if |bids| > size then bids[1..] else bids
  }

  function Without(bids: seq<Bid>, key: Pubkey): seq<Bid> {
    if bids == [] then []
    else
      var rest := Without(bids[..|bids| - 1], key);
      if bids[|bids| - 1].key == key then rest else rest + [bids[|bids| - 1]]
  }

  // ---------------------------------------------------------------------------
  // Accepting a bid

  function OnTick(amount: u64, tickSize: Option<u64>): bool {
    tickSize.Some? ==> tickSize.value != 0 && amount % tickSize.value == 0
  }

  /** The least amount that beats a bid by the gap; the percentage is added in eight bits. */
  function GapMinimum(beaten: u64, gapTick: u8): nat {
    beaten * ((100 + gapTick) % 256) / 100
  }

  /** Whether the gap rule lets the bid in: no tie, and far enough above the bid it lands on. */
  function GapAllows(bids: seq<Bid>, amount: u64, gapTick: Option<u8>): bool {
    var p := Place(bids, amount);
    if gapTick.None? then true
    else if p < |bids| && bids[p].amount == amount then gapTick.value == 0
    else p > 0 ==> GapMinimum(bids[p - 1].amount, gapTick.value) <= amount
  }

  /** The walk has passed everything from i on: higher bids, or a run of ties that goes on below i. */
  ghost predicate NotYet(bids: seq<Bid>, amount: u64, gapTick: Option<u8>, i: nat)
    requires 0 < i <= |bids|
  {
    && (forall j :: i <= j < |bids| ==> bids[j].amount >= amount)
    && (i < |bids| && bids[i].amount == amount ==>
          bids[i - 1].amount == amount && (gapTick.None? || gapTick.value == 0))
  }

  /** A tie anywhere is a tie at the place of insertion. */
  lemma TieAt(bids: seq<Bid>, amount: u64, i: nat)
    requires Sorted(bids) && i < |bids| && bids[i].amount == amount
    ensures Place(bids, amount) <= i && bids[Place(bids, amount)].amount == amount
  {
    assert Place(bids, amount) > 0 ==> bids[Place(bids, amount) - 1].amount < amount;
  }

  /** The walk meets a lower bid: the new one lands on it. */
  lemma LandsOnLower(bids: seq<Bid>, amount: u64, gapTick: Option<u8>, i: nat)
    requires i < |bids| && NotYet(bids, amount, gapTick, i + 1) && bids[i].amount < amount
    ensures Place(bids, amount) == i + 1
    ensures GapAllows(bids, amount, gapTick) <==>
            (gapTick.Some? ==> GapMinimum(bids[i].amount, gapTick.value) <= amount)
  {
    PlaceUnique(bids, amount, i + 1);
  }

  lemma TieRejected(bids: seq<Bid>, amount: u64, gapTick: Option<u8>, i: nat)
    requires Sorted(bids) && i < |bids| && bids[i].amount == amount && gapTick.Some? && gapTick.value > 0
    ensures !GapAllows(bids, amount, gapTick)
  {
    TieAt(bids, amount, i);
  }

  /** The walk meets the lowest of a run of ties, or the bottom of the list. */
  lemma LandsBelow(bids: seq<Bid>, amount: u64, gapTick: Option<u8>, i: nat)
    requires i < |bids| && NotYet(bids, amount, gapTick, i + 1) && bids[i].amount >= amount
    requires i > 0 ==> bids[i - 1].amount < amount == bids[i].amount
    requires bids[i].amount == amount ==> gapTick.None? || gapTick.value == 0
    ensures Place(bids, amount) == i && GapAllows(bids, amount, gapTick)
  {
    PlaceUnique(bids, amount, i);
  }

  /** Raised by the gap and rounded down, the lower amount does not exceed the new one. */
  predicate ClearsGap(lower: u64, amount: u64, gap: u8) {
    lower * (100 + gap) < 100 * (amount + 1)
  }

  /** No tie, unless the gap is zero, and the gap to every lower bid is kept. */
  ghost predicate KeepsGap(bids: seq<Bid>, amount: u64, gap: u8) {
    && (gap == 0 || forall i :: 0 <= i < |bids| ==> bids[i].amount != amount)
    && forall i :: 0 <= i < |bids| && bids[i].amount < amount ==> ClearsGap(bids[i].amount, amount, gap)
  }

  lemma RoundedDown(product: nat, amount: nat)
    ensures product / 100 <= amount <==> product < 100 * (amount + 1)
  {
  }

  lemma GapMinimumClears(lower: u64, amount: u64, gap: u8)
    requires gap <= 100
    ensures GapMinimum(lower, gap) <= amount <==> ClearsGap(lower, amount, gap)
  {
    RoundedDown(lower * (100 + gap), amount);
  }

  /** What is below a bid that clears the gap clears it too. */
  lemma LowerClears(lower: u64, high: u64, amount: u64, gap: u8)
    requires lower <= high && ClearsGap(high, amount, gap)
    ensures ClearsGap(lower, amount, gap)
  {
    assert high * (100 + gap) == lower * (100 + gap) + (high - lower) * (100 + gap);
  }

  lemma ZeroGapClears(lower: u64, amount: u64)
    requires lower < amount
    ensures ClearsGap(lower, amount, 0)
  {
  }

  /** Only the bid landed on matters: of the lower ones it is the highest. */
  lemma GapAllowsIff(bids: seq<Bid>, amount: u64, gap: u8)
    requires Sorted(bids) && gap <= 100
    ensures GapAllows(bids, amount, Some(gap)) <==> KeepsGap(bids, amount, gap)
  {
    var p := Place(bids, amount);
    if p > 0 {
      GapMinimumClears(bids[p - 1].amount, amount, gap);
    }
    forall i | 0 <= i < |bids| && bids[i].amount < amount && GapAllows(bids, amount, Some(gap))
      ensures ClearsGap(bids[i].amount, amount, gap)
    {
      if gap == 0 {
        ZeroGapClears(bids[i].amount, amount);
      } else {
        LowerClears(bids[i].amount, bids[p - 1].amount, amount, gap);
      }
    }
    forall i | 0 <= i < |bids| && bids[i].amount == amount
      ensures p < |bids| && bids[p].amount == amount
    {
      TieAt(bids, amount, i);
    }
  }

  function PlaceBidSpec(bids: seq<Bid>, max: nat, bid: Bid, tickSize: Option<u64>, gapTick: Option<u8>, minimum: u64)
    : Result<seq<Bid>, BidError>
  {
    if !OnTick(bid.amount, tickSize) then Err(BidMustBeMultipleOfTickSize)
    else
      :- Need(bid.amount >= minimum, BidTooSmall);
      :- Need(GapAllows(bids, bid.amount, gapTick), GapBetweenBidsTooSmall);
      Ok(Trim(Insert(bids, bid), MaxArraySizeFor(max)))
  }

  // ---------------------------------------------------------------------------
  // Reading the list

  function NumWinners(bids: seq<Bid>, max: nat): nat {
    if |bids| <= max then |bids| else max
  }

  function WinnerAt(bids: seq<Bid>, max: nat, index: nat): Option<Pubkey> {
    if index < max && index < |bids| then Some(bids[|bids| - index - 1].key) else None
  }

  function AmountAt(bids: seq<Bid>, index: nat): u64 {
    if index < |bids| then bids[|bids| - index - 1].amount else 0
  }

  /** The first position from `from` on that holds the key with at least the minimum. */
  function PositionOf(bids: seq<Bid>, key: Pubkey, minimum: u64, from: nat): (r: Option<nat>)
    requires from <= |bids|
    ensures r.Some? ==> from <= r.value < |bids| && bids[r.value].key == key && bids[r.value].amount >= minimum
    ensures r.None? ==> forall i :: from <= i < |bids| ==> bids[i].key != key || bids[i].amount < minimum
    decreases |bids| - from
  {
    if from == |bids| then None
    else if bids[from].key == key && bids[from].amount >= minimum then Some(from)
    else PositionOf(bids, key, minimum, from + 1)
  }

  function IsWinner(bids: seq<Bid>, max: nat, key: Pubkey, minimum: u64): Option<nat> {
    var position := PositionOf(bids, key, minimum, 0);
    if position.Some? && |bids| - position.value - 1 < max then Some(|bids| - position.value - 1) else None
  }

  /** None stands for an index out of bounds: no prize at all. */
  function LowestWinningBidIsInstantPrice(bids: seq<Bid>, max: nat, price: u64): Option<bool> {
    if |bids| < max then Some(false)
    else if max == 0 then None
    else Some(bids[|bids| - max].amount >= price)
  }

  /** The gap rule applies only after the auction's end time. */
  function ActiveGap(endedAt: Option<i64>, now: i64, gapTick: Option<u8>): Option<u8> {
    if endedAt.Some? && now > endedAt.value then gapTick else None
  }

  /**
   A bid is accepted exactly when it is on a tick and at the minimum or above
   and, once the end time has passed, keeps the gap.
   */
  lemma AcceptedIff(bids: seq<Bid>, max: nat, bid: Bid, tickSize: Option<u64>, gapTick: Option<u8>, minimum: u64,
                    endedAt: Option<i64>, now: i64)
    requires Sorted(bids) && (gapTick.Some? ==> gapTick.value <= 100)
    ensures PlaceBidSpec(bids, max, bid, tickSize, ActiveGap(endedAt, now, gapTick), minimum).Ok? <==>
            && (tickSize.Some? ==> tickSize.value != 0 && bid.amount % tickSize.value == 0)
            && bid.amount >= minimum
            && (gapTick.Some? && endedAt.Some? && now > endedAt.value ==> KeepsGap(bids, bid.amount, gapTick.value))
    ensures var r := PlaceBidSpec(bids, max, bid, tickSize, ActiveGap(endedAt, now, gapTick), minimum);
      var onTick := tickSize.Some? ==> tickSize.value != 0 && bid.amount % tickSize.value == 0;
      r.Err? ==> r.error == if !onTick then BidMustBeMultipleOfTickSize
                            else if bid.amount < minimum then BidTooSmall else GapBetweenBidsTooSmall
  {
    if gapTick.Some? {
      GapAllowsIff(bids, bid.amount, gapTick.value);
    }
  }

  /** The list then holds the bid above the lower ones and below the others, and at most 8 or twice max bids. */
  lemma AcceptedList(bids: seq<Bid>, max: nat, bid: Bid, tickSize: Option<u64>, gapTick: Option<u8>, minimum: u64,
                     p: nat)
    requires p <= |bids|
    requires (p > 0 ==> bids[p - 1].amount < bid.amount) && forall i :: p <= i < |bids| ==> bids[i].amount >= bid.amount
    requires PlaceBidSpec(bids, max, bid, tickSize, gapTick, minimum).Ok?
    ensures var all := bids[..p] + [bid] + bids[p..];
      PlaceBidSpec(bids, max, bid, tickSize, gapTick, minimum).value ==
      if |bids| >= (if max < 8 then 8 else 2 * max) then all[1..] else all
  {
    PlaceUnique(bids, bid.amount, p);
  }

  predicate SoldOut(bids: seq<Bid>, max: nat, instantSalePrice: Option<u64>) {
    instantSalePrice.Some? && LowestWinningBidIsInstantPrice(bids, max, instantSalePrice.value) == Some(true)
  }

  // ---------------------------------------------------------------------------
  // The auction

  class Auction {
    const max: nat
    var bids: seq<Bid>
    var state: AuctionState
    var endedAt: Option<i64>
    var minimum: u64

    constructor (max: nat, minimum: u64)
      ensures this.max == max && this.minimum == minimum
      ensures bids == [] && state == Created && endedAt == None
    {
      this.max, this.minimum := max, minimum;
      bids, state, endedAt := [], Created, None;
    }

    /** BidState::place_bid: walk down from the best bid to where the new one belongs. */
    method InsertBid(bid: Bid, tickSize: Option<u64>, gapTick: Option<u8>) returns (r: Result<(), BidError>)
      requires Sorted(bids)
      modifies this`bids
      ensures var step := PlaceBidSpec(old(bids), max, bid, tickSize, gapTick, minimum);
        if step.Ok? then r == Ok(()) && bids == step.value else r == Err(step.error) && bids == old(bids)
    {
      if tickSize.Some? && (tickSize.value == 0 || bid.amount % tickSize.value != 0) {
        return Err(BidMustBeMultipleOfTickSize);
      }
      if bid.amount < minimum {
        return Err(BidTooSmall);
      }
      if |bids| == 0 {
        bids := bids + [bid];
      } else {
        r := WalkDown(bid, gapTick);
        if r.Err? {
          return;
        }
        if |bids| > MaxArraySizeFor(max) {
          bids := bids[1..];
        }
      }
      r := Ok(());
    }

    /** Vec::insert, or push at the end. */
    method InsertAt(i: nat, bid: Bid)
      requires i == Place(bids, bid.amount)
      modifies this`bids
      ensures bids == Insert(old(bids), bid)
    {
      if i < |bids| {
        bids := bids[..i] + [bid] + bids[i..];
      } else {
        assert bids + [bid] == bids[..i] + [bid] + bids[i..];
        bids := bids + [bid];
      }
    }

    method WalkDown(bid: Bid, gapTick: Option<u8>) returns (r: Result<(), BidError>)
      requires Sorted(bids) && bids != []
      modifies this`bids
      ensures GapAllows(old(bids), bid.amount, gapTick) ==> r == Ok(()) && bids == Insert(old(bids), bid)
      ensures !GapAllows(old(bids), bid.amount, gapTick) ==> r == Err(GapBetweenBidsTooSmall) && bids == old(bids)
    {
      var i := |bids| - 1;
      while true
        invariant 0 <= i < |bids| && bids == old(bids)
        invariant NotYet(bids, bid.amount, gapTick, i + 1)
        decreases i
      {
        if bids[i].amount < bid.amount {
          LandsOnLower(bids, bid.amount, gapTick, i);
          if gapTick.Some? && GapMinimum(bids[i].amount, gapTick.value) > bid.amount {
            return Err(GapBetweenBidsTooSmall);
          }
          InsertAt(i + 1, bid);
          return Ok(());
        } else if bids[i].amount == bid.amount {
          if gapTick.Some? && gapTick.value > 0 {
            TieRejected(bids, bid.amount, gapTick, i);
            return Err(GapBetweenBidsTooSmall);
          }
          if i == 0 {
            LandsBelow(bids, bid.amount, gapTick, 0);
            InsertAt(0, bid);
            return Ok(());
          } else if bids[i - 1].amount != bids[i].amount {
            LandsBelow(bids, bid.amount, gapTick, i);
            InsertAt(i, bid);
            return Ok(());
          }
        } else if i == 0 {
          LandsBelow(bids, bid.amount, gapTick, 0);
          InsertAt(0, bid);
          return Ok(());
        }
        i := i - 1;
      }
    }

    /** BidState::cancel_bid */
    method CancelBid(key: Pubkey)
      modifies this`bids
      ensures bids == Without(old(bids), key)
    {
      var kept := [];
      for i := 0 to |bids|
        invariant kept == Without(bids[..i], key)
      {
        assert bids[..i + 1][..i] == bids[..i];
        if bids[i].key != key {
          kept := kept + [bids[i]];
        }
      }
      assert bids[..|bids|] == bids;
      bids := kept;
    }

    /** AuctionData::consider_instant_bid; without any prize the lookup of the last winner is out of bounds. */
    method ConsiderInstantBid(instantSalePrice: Option<u64>) returns (r: Result<(), BidError>)
      modifies this`state
      ensures r == if instantSalePrice.Some? && max == 0 then Err(Aborted) else Ok(())
      ensures state == if SoldOut(bids, max, instantSalePrice) then Ended else old(state)
    {
      if instantSalePrice.Some? {
        var sold := LowestWinningBidIsInstantPrice(bids, max, instantSalePrice.value);
        if sold.None? {
          return Err(Aborted);
        }
        if sold.value {
          state := Ended;
        }
      }
      r := Ok(());
    }

    /** AuctionData::place_bid: the gap rule applies only after the auction's end time. */
    method PlaceBid(bid: Bid, tickSize: Option<u64>, gapTick: Option<u8>, now: i64, instantSalePrice: Option<u64>)
      returns (r: Result<(), BidError>)
      requires Sorted(bids)
      modifies this`bids, this`state
      ensures r.Err? ==> bids == old(bids) && state == old(state)
      ensures (gapTick.Some? ==> gapTick.value <= 100) ==>
        (r.Ok? <==>
         && (tickSize.Some? ==> tickSize.value != 0 && bid.amount % tickSize.value == 0)
         && bid.amount >= minimum
         && (gapTick.Some? && endedAt.Some? && now > endedAt.value ==>
               KeepsGap(old(bids), bid.amount, gapTick.value))
         && (instantSalePrice.Some? ==> max > 0))
      ensures var step := PlaceBidSpec(old(bids), max, bid, tickSize, ActiveGap(endedAt, now, gapTick), minimum);
        if step.Err? then r == Err(step.error)
        else if instantSalePrice.Some? && max == 0 then r == Err(Aborted)
        else
          && r == Ok(()) && bids == step.value
          && state == if SoldOut(bids, max, instantSalePrice) then Ended else old(state)
    {
      var before := bids;
      if gapTick.Some? ==> gapTick.value <= 100 {
        AcceptedIff(bids, max, bid, tickSize, gapTick, minimum, endedAt, now);
      }
      r := InsertBid(bid, tickSize, ActiveGap(endedAt, now, gapTick));
      if r.Err? {
        return;
      }
      r := ConsiderInstantBid(instantSalePrice);
      if r.Err? {
        bids := before;
      }
    }
  }
}
