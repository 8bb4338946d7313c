/** What goes wrong with bids off the tick marks, and with an update of the data after the first bid. */
module LaunchCounterexamples {
  import opened Prelude
  import opened FairLaunchErrors
  import opened MapSums
  import opened Histogram
  import opened LotteryBitmap
  import opened FairLaunch
  import opened LaunchInvariant
  import opened LaunchSteps
  import opened EligibleHolders

  // ---------------------------------------------------------------------------
  // Eligible holders with ticks of one unit

  /**
   Bids of 1 and 2 on ticks of one unit: half the difference rounds down, so
   the median is the lower bid and both tickets reach it, but one eligible
   holder is stored.
   */
  lemma SplitOfOneUnitMiscounts(counts: seq<nat>, tickets: map<Pubkey, Ticket>, alice: Pubkey, bob: Pubkey)
    requires alice != bob && counts == [1, 1]
    requires tickets == map[alice := Ticket(1, Unpunched, 0), bob := Ticket(2, Unpunched, 1)]
    ensures MeasureSpec(counts, 1, 1) == Some(Tally(1, 1))
    ensures SumBy(tickets, Holding(1)) == 2
  {
    OneInEachBin(counts);
    SumByCount(tickets, Holding(1));
  }

  lemma OneInEachBin(counts: seq<nat>)
    requires counts == [1, 1]
    ensures MeasureSpec(counts, 1, 1) == Some(Tally(1, 1))
  {
    assert Below(counts, 1) == 1 && Below(counts, 2) == 2;
    ExpandAt(counts, 0, 0);
    ExpandAt(counts, 1, 1);
    assert LowerBin(counts) == 0 && UpperBin(counts) == 1;
    assert Ticks(1, 1) == 1 && Ticks(1, 2) == 2;
  }

  /** With bids on tick marks the recount is wrong in that case alone: adjacent middle bids on ticks of one unit. */
  lemma OnTicksExactIff(s: Launch)
    requires Inv(s) && s.clock <= s.data.phaseOneEnd && s.sold > s.dropped
    requires s.data.priceRangeStart % s.data.tickSize == 0 && BidsOnTicks(s.data.tickSize, s.tickets)
    ensures Total(s.counts) > 0
    ensures EligibleExact(s) <==> !(s.data.tickSize == 1 && UpperBin(s.counts) == LowerBin(s.counts) + 1)
  {
    InvBooked(s);
    if s.data.tickSize >= 2 {
      PhaseOneExact(s);
    } else {
      PhaseOneExactIff(s);
      UnitTickGap(s);
    }
  }

  /** On ticks of one unit a tick is its own number. */
  lemma {:induction false} UnitTicks(b: nat)
    ensures Ticks(1, b) == b
  {
    if b > 0 {
      UnitTicks(b - 1);
    }
  }

  lemma UnitTickGap(s: Launch)
    requires Inv(s) && s.clock <= s.data.phaseOneEnd && Total(s.counts) > 0 && s.data.tickSize == 1
    ensures BidInGap(s.tickets, Edge(s.data, s.counts), s.median) <==> UpperBin(s.counts) == LowerBin(s.counts) + 1
  {
    InvBooked(s);
    var start, c := s.data.priceRangeStart, s.counts;
    var low, high := LowerBin(c), UpperBin(c);
    UnitTicks(low);
    UnitTicks(high);
    UnitTicks(high + start);
    assert s.median == start + low + (high - low) / 2 && Edge(s.data, c) == start + high;
    if low < high {
      LowerBinOccupied(c);
      var k := BidOfBin(s, low);
      assert high == low + 1 ==> InGap(s.tickets[k], Edge(s.data, c), s.median);
    }
    forall k | k in s.tickets && InGap(s.tickets[k], Edge(s.data, c), s.median)
      ensures high == low + 1
    {
      var p := BinOf(s.data, s.tickets[k].amount);
      BinInRange(s.data, s.tickets[k].amount);
      SumByEntry(s.tickets, InBin(start, 1, p), k);
      NoBinBetween(c, p);
    }
  }

  lemma LowerBinOccupied(c: seq<nat>)
    requires Total(c) > 0
    ensures LowerBin(c) < |c| && c[LowerBin(c)] > 0
  {
    ExpandBin(c, if Total(c) % 2 == 1 then Total(c) / 2 else Total(c) / 2 - 1);
  }

  lemma BidOfBin(s: Launch, p: nat) returns (k: Pubkey)
    requires Inv(s) && s.clock <= s.data.phaseOneEnd && s.data.tickSize == 1
    requires p < |s.counts| && s.counts[p] > 0
    ensures k in s.tickets && s.tickets[k].state != Withdrawn
    ensures s.tickets[k].amount == s.data.priceRangeStart + p
  {
    SumByZero(s.tickets, InBin(s.data.priceRangeStart, 1, p));
    k :| k in s.tickets && InBin(s.data.priceRangeStart, 1, p)(s.tickets[k]) != 0;
  }

  // ---------------------------------------------------------------------------
  // Updating the data in the second phase one opens

  /**
   In the second phase one opens both guards pass: purchases are already
   allowed and updates still are.  The update then empties the histogram, which
   keeps agreeing with the tickets sold exactly when no bid is in yet.
   */
  lemma UpdateAtOpening(s: Launch, data: LaunchData, buyer: Pubkey)
    requires Inv(s) && s.clock == s.data.phaseOneStart
    requires AssertDataValid(data).Pass? && EmptyBins(data).Ok?
    ensures UpdateFairLaunch(s, data, s.clock).Ok?
    ensures PurchaseTicket(s, buyer, 0, 0, s.clock) != Err(CannotBuyTicketsOutsidePhaseOne)
    ensures var r := UpdateFairLaunch(s, data, s.clock).value;
      Total(r.counts) == r.sold - r.dropped <==> s.sold == s.dropped
  {
    BelowZeros(EmptyBins(data).value, |EmptyBins(data).value|);
  }

  /** A bid that is in by then is stranded: its bin is empty, so in phase one its buyer can neither move nor drop it. */
  lemma UpdateStrandsBid(s: Launch, data: LaunchData, buyer: Pubkey, amount: u64, funds: u64, now: i64)
    requires UpdateFairLaunch(s, data, s.clock).Ok?
    requires buyer in s.tickets && s.tickets[buyer].amount >= data.priceRangeStart
    requires now <= data.phaseOneEnd
    ensures AdjustTicket(UpdateFairLaunch(s, data, s.clock).value, buyer, amount, true, funds, now).Err?
  {
    var r := UpdateFairLaunch(s, data, s.clock).value;
    assert RemoveBid(data, r.counts, s.tickets[buyer].amount).Err?;
  }
}
