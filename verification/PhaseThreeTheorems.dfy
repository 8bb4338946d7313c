/** What phase three can still do after every well-behaved run of a fair launch. */
module PhaseThreeTheorems {
  import opened Prelude
  import opened FairLaunchErrors
  import opened MapSums
  import opened Histogram
  import opened LotteryBitmap
  import opened FairLaunch
  import opened LaunchInvariant
  import opened LaunchSteps
  import opened EligibleHolders
  import opened LaunchTheorems
  import opened PhaseThree
  import opened PhaseThreeRuns

  /** While a ticket is live the median is a price of the range. */
  predicate MedianOk(s: Launch) {
    s.sold > s.dropped ==> s.data.priceRangeStart <= s.median <= s.data.priceRangeEnd
  }

  lemma EarlyMedianOk(s: Launch)
    requires Inv(s) && s.clock <= s.data.phaseOneEnd
    ensures MedianOk(s)
  {
    if s.sold > s.dropped {
      TotalIsLive(s.data, s.counts, s.tickets, s.sold);
      MedianWithin(s.data, s.counts);
    }
  }

  lemma MedianWithin(d: LaunchData, counts: seq<u64>)
    requires DataOk(d) && BinsOk(d, counts) && Total(counts) > 0
    ensures d.priceRangeStart + MedianOffset(counts, d.tickSize) <= d.priceRangeEnd
  {
    MedianBetween(counts, d.tickSize);
    TicksMonotone(d.tickSize, UpperBin(counts), |counts| - 1);
    TicksSpan(d, counts);
  }

  lemma RangeKept(s: Launch, e: Event)
    requires !e.ix.Update?
    ensures Step(s, e).data.priceRangeStart == s.data.priceRangeStart
    ensures Step(s, e).data.priceRangeEnd == s.data.priceRangeEnd
  {
  }

  lemma DroppedGrows(s: Launch, e: Event)
    ensures Step(s, e).dropped >= s.dropped
  {
    if e.ix.Adjust? {
      AdjustDrops(s.(clock := e.now), e.ix.buyer, e.ix.amount, e.ix.buyerSigned, e.ix.funds);
    } else {
      DroppedKept(s, e);
    }
  }

  lemma AdjustDrops(s: Launch, buyer: Pubkey, amount: u64, signed: bool, funds: u64)
    ensures var r := AdjustTicket(s, buyer, amount, signed, funds, s.clock);
      r.Ok? ==> r.value.dropped >= s.dropped
  {
  }

  lemma DroppedKept(s: Launch, e: Event)
    requires !e.ix.Adjust?
    ensures Step(s, e).dropped == s.dropped
  {
  }

  lemma UpdateKeepsSold(s: Launch, e: Event)
    requires e.ix.Update?
    ensures Step(s, e).sold == s.sold && Step(s, e).dropped == s.dropped
  {
  }

  lemma StepKeepsMedianOk(s: Launch, e: Event)
    requires Inv(s) && MedianOk(s) && WellBehaved(s, e)
    ensures MedianOk(Step(s, e))
  {
    var r := Step(s, e);
    if e.ix.Update? {
      UpdateKeepsSold(s, e);
    } else if e.now > s.data.phaseOneEnd {
      MedianKept(s, e);
      RangeKept(s, e);
      DroppedGrows(s, e);
    } else {
      assert Inv(r) by { StepKeepsInv(s, e); }
      PhaseOneEndKept(s, e);
      EarlyMedianOk(r);
    }
  }

  lemma {:induction false} RunKeepsMedianOk(s: Launch, events: seq<Event>)
    requires Inv(s) && MedianOk(s) && WellBehavedRun(s, events)
    ensures MedianOk(Run(s, events))
    decreases |events|
  {
    if |events| > 0 {
      var last := |events| - 1;
      RunKeepsMedianOk(s, events[..last]);
      RunKeepsInv(s, events[..last]);
      StepKeepsMedianOk(Run(s, events[..last]), events[last]);
    }
  }

  lemma ReachedLate(data: LaunchData, start: i64, events: seq<Event>)
    requires LaunchRun(data, start, events) && Reached(data, start, events).phaseThreeStarted
    ensures Inv(Reached(data, start, events)) && Late(Reached(data, start, events))
  {
    InitializeGivesInv(data, start);
    ReachedInv(data, start, events);
    RunKeepsMedianOk(InitializeFairLaunch(data, start).value, events);
  }

  // ---------------------------------------------------------------------------
  // Rewriting the bitmap in phase three

  lemma RewriteKeepsLate(s: Launch, index: u32, strip: seq<byte>)
    requires Late(s) && UpdateLotteryBitmap(s, index, strip).Ok?
    ensures var r := UpdateLotteryBitmap(s, index, strip).value;
      Late(r) && r.data == s.data && r.supply == s.supply
  {
  }

  /**
   After any rewrite in phase three, harmless or not, the launch can mint more
   tokens than it has exactly when the open tickets at the median or above with
   a set bit outnumber the tokens left.
   */
  lemma RewriteOversellsIff(data: LaunchData, start: i64, events: seq<Event>, index: u32, strip: seq<byte>, r: Launch)
    requires LaunchRun(data, start, events) && Reached(data, start, events).phaseThreeStarted
    requires UpdateLotteryBitmap(Reached(data, start, events), index, strip) == Ok(r)
    ensures Late(r)
    ensures CanOversell(r) <==> Winners(r) > r.data.numberOfTokens - r.supply && r.data.numberOfTokens < U64_MAX
  {
    var s := Reached(data, start, events);
    ReachedLate(data, start, events);
    RewriteKeepsLate(s, index, strip);
    CanOversellIff(r);
  }

  // ---------------------------------------------------------------------------
  // Resolving the tickets

  /** After any run phase three can be brought to its end exactly when the stored eligible holders cover the losers. */
  lemma PhaseThreeEndsIff(data: LaunchData, start: i64, events: seq<Event>)
    requires LaunchRun(data, start, events) && Reached(data, start, events).phaseThreeStarted
    ensures Late(Reached(data, start, events))
    ensures CanResolve(Reached(data, start, events)) <==>
            Reached(data, start, events).eligible >= Losers(Reached(data, start, events))
  {
    ReachedLate(data, start, events);
    CanResolveIff(Reached(data, start, events));
  }

  lemma LosersAreHolding(s: Launch)
    requires Late(s)
    ensures Losers(s) <= SumBy(s.tickets, Holding(s.median))
  {
    SumByAtMost(s.tickets, Losing(s.median, s.lottery.value.bytes), Holding(s.median));
  }

  /** With ticks of at least two units and phase one's bids on ticks, it always can. */
  lemma PhaseThreeEndsOnTicks(data: LaunchData, start: i64, events: seq<Event>)
    requires LaunchRun(data, start, events) && Reached(data, start, events).phaseThreeStarted
    requires TicksOfTwo(data) && OnTickRun(InitializeFairLaunch(data, start).value, events)
    ensures CanResolve(Reached(data, start, events))
  {
    PhaseThreeEndsIff(data, start, events);
    InitializeGivesInv(data, start);
    RunKeepsExact(InitializeFairLaunch(data, start).value, events);
    LosersAreHolding(Reached(data, start, events));
  }
}
