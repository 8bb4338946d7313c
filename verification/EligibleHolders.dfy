/**
 When is current_eligible_holders the number of tickets that reach the median?
 It is recounted from the histogram in phase one and moved by one step at a
 time afterwards (rust/fair-launch/src/utils.rs, rust/fair-launch/src/lib.rs).
 */
module EligibleHolders {
  import opened Prelude
  import opened FairLaunchErrors
  import opened MapSums
  import opened Division
  import opened Histogram
  import opened LotteryBitmap
  import opened FairLaunch
  import opened LaunchInvariant
  import opened LaunchSteps

  /** The stored number is the number of live tickets whose amount reaches the stored median. */
  ghost predicate EligibleExact(s: Launch) {
    s.eligible == SumBy(s.tickets, Holding(s.median))
  }

  /** The histogram is that of the tickets. */
  ghost predicate Booked(d: LaunchData, counts: seq<u64>, tickets: map<Pubkey, Ticket>, sold: nat) {
    DataOk(d) && BinsOk(d, counts) && TicketsOk(d, tickets, sold) && HistogramOk(d, counts, tickets)
  }

  /** The lowest price that falls in the upper middle bid's bin: what the recount takes for the threshold. */
  ghost function Edge(d: LaunchData, counts: seq<nat>): nat
    requires d.tickSize > 0 && Total(counts) > 0
  {
    Ticks(d.tickSize, UpperBin(counts) + d.priceRangeStart / d.tickSize)
  }

  /** Some live ticket lies between the recount's threshold and the median. */
  ghost predicate BidInGap(tickets: map<Pubkey, Ticket>, edge: nat, median: nat) {
    exists k :: k in tickets && InGap(tickets[k], edge, median)
  }

  predicate InGap(t: Ticket, edge: nat, median: nat) {
    t.state != Withdrawn && (edge <= t.amount < median || median <= t.amount < edge)
  }

  /** A price lies in bin q or above exactly from q ticks on. */
  lemma BinThreshold(amount: nat, tick: nat, q: nat)
    requires tick > 0
    ensures amount / tick >= q <==> amount >= Ticks(tick, q)
  {
    DivAtLeast(amount, tick, q);
    TicksIsProduct(tick, q);
  }

  /** The recount counts the live tickets from the edge on. */
  lemma RecountIsHoldingEdge(d: LaunchData, counts: seq<u64>, tickets: map<Pubkey, Ticket>, sold: nat)
    requires Booked(d, counts, tickets, sold) && Total(counts) > 0
    ensures EligibleBids(counts) == SumBy(tickets, Holding(Edge(d, counts)))
  {
    var start, tick, b := d.priceRangeStart, d.tickSize, UpperBin(counts);
    TotalIsLive(d, counts, tickets, sold);
    BelowIsCount(d, counts, tickets, sold, b);
    HoldingComplement(start, tick, tickets, b, Edge(d, counts));
  }

  lemma HoldingComplement(start: nat, tick: nat, tickets: map<Pubkey, Ticket>, b: nat, edge: nat)
    requires tick > 0 && edge == Ticks(tick, b + start / tick)
    ensures SumBy(tickets, Live()) == SumBy(tickets, BelowBin(start, tick, b)) + SumBy(tickets, Holding(edge))
  {
    forall k | k in tickets
      ensures Live()(tickets[k]) == BelowBin(start, tick, b)(tickets[k]) + Holding(edge)(tickets[k])
    {
      BinThreshold(tickets[k].amount, tick, b + start / tick);
    }
    SumByAdd(tickets, BelowBin(start, tick, b), Holding(edge), Live());
  }

  /** Two thresholds select equally many tickets exactly when none lies between them. */
  lemma HoldingEqualIff(tickets: map<Pubkey, Ticket>, low: nat, high: nat)
    requires low <= high
    ensures SumBy(tickets, Holding(low)) == SumBy(tickets, Holding(high)) <==> !BidInGap(tickets, low, high)
    ensures BidInGap(tickets, low, high) <==> BidInGap(tickets, high, low)
  {
    var between := (t: Ticket) => if InGap(t, low, high) then 1 else 0;
    SumByAdd(tickets, Holding(high), between, Holding(low));
    SumByZero(tickets, between);
    assert forall k :: k in tickets ==> (between(tickets[k]) == 0 <==> !InGap(tickets[k], low, high));
    assert forall k :: k in tickets ==> (InGap(tickets[k], low, high) <==> InGap(tickets[k], high, low));
  }

  lemma InvBooked(s: Launch)
    requires Inv(s) && s.clock <= s.data.phaseOneEnd
    ensures Booked(s.data, s.counts, s.tickets, s.sold)
    ensures Total(s.counts) == s.sold - s.dropped
    ensures s.sold > 0 ==> s.eligible == EligibleBids(s.counts)
    ensures s.sold > 0 ==> s.median == s.data.priceRangeStart + MedianOffset(s.counts, s.data.tickSize)
  {
    TotalIsLive(s.data, s.counts, s.tickets, s.sold);
  }

  /**
   In phase one the stored number is exact exactly when no live ticket lies
   between the bottom of the upper middle bid's bin and the median.
   */
  lemma PhaseOneExactIff(s: Launch)
    requires Inv(s) && s.clock <= s.data.phaseOneEnd && s.sold > s.dropped
    ensures s.data.tickSize > 0 && Total(s.counts) > 0
    ensures EligibleExact(s) <==> !BidInGap(s.tickets, Edge(s.data, s.counts), s.median)
  {
    InvBooked(s);
    RecountIsHoldingEdge(s.data, s.counts, s.tickets, s.sold);
    if Edge(s.data, s.counts) <= s.median {
      HoldingEqualIff(s.tickets, Edge(s.data, s.counts), s.median);
    } else {
      HoldingEqualIff(s.tickets, s.median, Edge(s.data, s.counts));
    }
  }

  /** With no live ticket there is nothing to count. */
  lemma PhaseOneExactWhenEmpty(s: Launch)
    requires Inv(s) && s.clock <= s.data.phaseOneEnd && s.sold == s.dropped
    ensures EligibleExact(s)
  {
    TotalIsLive(s.data, s.counts, s.tickets, s.sold);
    SumByZero(s.tickets, Live());
    forall k | k in s.tickets ensures s.tickets[k].state == Withdrawn {
      assert Live()(s.tickets[k]) == 0;
    }
    SumByZero(s.tickets, Holding(s.median));
  }

  // ---------------------------------------------------------------------------
  // Prices on tick marks

  predicate TicksOfTwo(d: LaunchData) {
    d.tickSize >= 2 && d.priceRangeStart % d.tickSize == 0
  }

  /** Every live bid is on a tick mark. */
  ghost predicate BidsOnTicks(tick: nat, tickets: map<Pubkey, Ticket>)
    requires tick > 0
  {
    forall k :: k in tickets && tickets[k].state != Withdrawn ==> tickets[k].amount % tick == 0
  }

  ghost predicate OnTicks(d: LaunchData, tickets: map<Pubkey, Ticket>) {
    TicksOfTwo(d) && BidsOnTicks(d.tickSize, tickets)
  }

  lemma TicksAdd(tick: nat, a: nat, b: nat)
    ensures Ticks(tick, a + b) == Ticks(tick, a) + Ticks(tick, b)
  {
    TicksIsProduct(tick, a);
    TicksIsProduct(tick, b);
    TicksIsProduct(tick, a + b);
  }

  lemma ExactMultiple(amount: nat, tick: nat)
    requires tick > 0 && amount % tick == 0
    ensures amount == Ticks(tick, amount / tick)
  {
    TicksIsProduct(tick, amount / tick);
  }

  /** A bid on a tick mark is the start of its bin. */
  lemma OnTickBid(d: LaunchData, amount: nat)
    requires d.tickSize > 0 && d.priceRangeStart % d.tickSize == 0 && amount % d.tickSize == 0
    requires amount >= d.priceRangeStart
    ensures BinOf(d, amount) >= 0
    ensures amount == d.priceRangeStart + Ticks(d.tickSize, BinOf(d, amount))
  {
    DivMonotone(d.priceRangeStart, amount, d.tickSize);
    ExactMultiple(amount, d.tickSize);
    ExactMultiple(d.priceRangeStart, d.tickSize);
    TicksAdd(d.tickSize, d.priceRangeStart / d.tickSize, BinOf(d, amount));
  }

  lemma TicksStrict(tick: nat, a: nat, b: nat)
    requires a < b
    ensures Ticks(tick, a) + tick <= Ticks(tick, b)
  {
    TicksMonotone(tick, a + 1, b);
  }

  /** An occupied bin below the upper middle bid's is at most the lower middle bid's. */
  lemma NoBinBetween(c: seq<nat>, p: nat)
    requires Total(c) > 0 && p < UpperBin(c) && c[p] > 0
    ensures p <= LowerBin(c) < UpperBin(c) || p < LowerBin(c)
  {
    var m := Total(c) / 2;
    BelowMonotone(c, p + 1, UpperBin(c));
    ExpandBin(c, m);
    var k := Below(c, p);
    ExpandAt(c, p, k);
    if Total(c) % 2 == 0 {
      ExpandSorted(c, k, m - 1);
      if LowerBin(c) == UpperBin(c) {
        assert p < LowerBin(c);
      }
    }
  }

  /** On ticks of at least two units the median of a split lies strictly above the lower bid. */
  lemma BelowMedian(c: seq<nat>, tick: nat, p: nat)
    requires tick >= 2 && Total(c) > 0
    requires p <= LowerBin(c) < UpperBin(c) || p < LowerBin(c)
    ensures Ticks(tick, p) < MedianOffset(c, tick)
  {
    if p < LowerBin(c) {
      TicksStrict(tick, p, LowerBin(c));
      MedianBetween(c, tick);
    } else {
      TicksStrict(tick, LowerBin(c), UpperBin(c));
    }
  }

  lemma EdgeOnTicks(d: LaunchData, counts: seq<nat>)
    requires TicksOfTwo(d) && Total(counts) > 0
    ensures Edge(d, counts) == d.priceRangeStart + Ticks(d.tickSize, UpperBin(counts))
  {
    ExactMultiple(d.priceRangeStart, d.tickSize);
    TicksAdd(d.tickSize, UpperBin(counts), d.priceRangeStart / d.tickSize);
  }

  /** An occupied bin lies below the median or starts at the edge or above. */
  lemma OccupiedBinOutside(d: LaunchData, counts: seq<nat>, p: nat)
    requires TicksOfTwo(d) && Total(counts) > 0 && p < |counts| && counts[p] > 0
    ensures d.priceRangeStart + Ticks(d.tickSize, p) < d.priceRangeStart + MedianOffset(counts, d.tickSize)
         || d.priceRangeStart + Ticks(d.tickSize, p) >= Edge(d, counts)
  {
    EdgeOnTicks(d, counts);
    if p < UpperBin(counts) {
      NoBinBetween(counts, p);
      BelowMedian(counts, d.tickSize, p);
    } else {
      TicksMonotone(d.tickSize, UpperBin(counts), p);
    }
  }

  lemma OnTickTicketOutside(d: LaunchData, counts: seq<u64>, tickets: map<Pubkey, Ticket>, sold: nat, k: Pubkey)
    requires Booked(d, counts, tickets, sold) && Total(counts) > 0 && OnTicks(d, tickets)
    requires k in tickets && tickets[k].state != Withdrawn
    ensures !InGap(tickets[k], Edge(d, counts), d.priceRangeStart + MedianOffset(counts, d.tickSize))
  {
    var amount := tickets[k].amount;
    var p := BinOf(d, amount);
    OnTickBid(d, amount);
    BinInRange(d, amount);
    SumByEntry(tickets, InBin(d.priceRangeStart, d.tickSize, p), k);
    OccupiedBinOutside(d, counts, p);
    EdgeOnTicks(d, counts);
    MedianBetween(counts, d.tickSize);
  }

  lemma PhaseOneExact(s: Launch)
    requires Inv(s) && s.clock <= s.data.phaseOneEnd && OnTicks(s.data, s.tickets)
    ensures EligibleExact(s)
  {
    InvBooked(s);
    if s.sold == s.dropped {
      PhaseOneExactWhenEmpty(s);
    } else {
      PhaseOneExactIff(s);
      forall k | k in s.tickets && s.tickets[k].state != Withdrawn
        ensures !InGap(s.tickets[k], Edge(s.data, s.counts), s.median)
      {
        OnTickTicketOutside(s.data, s.counts, s.tickets, s.sold, k);
      }
    }
  }

  // ---------------------------------------------------------------------------
  // After phase one

  ghost function Drift(s: Launch): int {
    s.eligible - SumBy(s.tickets, Holding(s.median))
  }

  /** One ticket's change moves the true number by its own difference. */
  lemma HoldingUpdate(tickets: map<Pubkey, Ticket>, k: Pubkey, t: Ticket, m: nat)
    requires k in tickets
    ensures SumBy(tickets[k := t], Holding(m)) - SumBy(tickets, Holding(m)) == Holding(m)(t) - Holding(m)(tickets[k])
  {
    SumByUpdate(tickets, Holding(m), k, t);
  }

  lemma LateAdjustKeepsDrift(s: Launch, buyer: Pubkey, amount: u64, signed: bool, funds: u64)
    requires s.clock > s.data.phaseOneEnd && s.median > 0
    requires AdjustTicket(s, buyer, amount, signed, funds, s.clock).Ok?
    ensures Drift(AdjustTicket(s, buyer, amount, signed, funds, s.clock).value) == Drift(s)
  {
    var r := AdjustTicket(s, buyer, amount, signed, funds, s.clock).value;
    var t := s.tickets[buyer];
    LateAdjustEffect(s, buyer, amount, signed, funds);
    HoldingUpdate(s.tickets, buyer, Adjusted(t, amount), s.median);
    assert r.tickets == s.tickets[buyer := Adjusted(t, amount)];
  }

  lemma LateAdjustEffect(s: Launch, buyer: Pubkey, amount: u64, signed: bool, funds: u64)
    requires s.clock > s.data.phaseOneEnd
    requires AdjustTicket(s, buyer, amount, signed, funds, s.clock).Ok?
    ensures FrozenCounts(s, amount, s.tickets[buyer].amount).Ok?
    ensures var r := AdjustTicket(s, buyer, amount, signed, funds, s.clock).value;
      && s.tickets[buyer].state == Unpunched
      && r.tickets == s.tickets[buyer := Adjusted(s.tickets[buyer], amount)]
      && r.median == s.median
      && r.eligible == FrozenCounts(s, amount, s.tickets[buyer].amount).value.eligible
  {
  }

  /**
   After phase one every instruction moves the stored number and the true one
   together: whatever error phase one left is never made worse or better.
   */
  lemma LateStepKeepsDrift(s: Launch, e: Event)
    requires e.now > s.data.phaseOneEnd && s.data.phaseOneStart < s.data.phaseOneEnd && s.median > 0
    ensures Drift(Step(s, e)) == Drift(s)
  {
    var p := s.(clock := e.now);
    if Apply(p, e).Ok? {
      if e.ix.Update? {
        assert false;
      } else if OnTicket(e.ix) {
        LateTicketStepKeepsDrift(p, e, Apply(p, e).value);
      } else {
        OtherStepKeepsTickets(p, e, Apply(p, e).value);
      }
    }
  }

  lemma LateTicketStepKeepsDrift(s: Launch, e: Event, r: Launch)
    requires s.clock == e.now > s.data.phaseOneEnd && s.median > 0 && OnTicket(e.ix) && Apply(s, e) == Ok(r)
    ensures Drift(r) == Drift(s)
  {
    match e.ix
    case Sequence(buyer) => HoldingUpdate(s.tickets, buyer, s.tickets[buyer].(state := Unpunched), s.median);
    case Adjust(buyer, amount, signed, funds) => LateAdjustKeepsDrift(s, buyer, amount, signed, funds);
    case Punch(buyer) => HoldingUpdate(s.tickets, buyer, s.tickets[buyer].(state := Punched), s.median);
    case Purchase(buyer, amount, funds) => assert false;
  }

  lemma HoldingAtMostAll(tickets: map<Pubkey, Ticket>, m: nat)
    ensures SumBy(tickets, Holding(m)) <= |tickets|
  {
    var rest := (t: Ticket) => if t.state != Withdrawn && t.amount >= m then 0 else 1;
    var one := (t: Ticket) => 1;
    SumByAdd(tickets, Holding(m), rest, one);
    SumByCount(tickets, one);
  }

  /** As long as the number is exact, neither its increment nor its decrement can fail. */
  lemma ExactNeverOverflows(s: Launch, buyer: Pubkey, amount: u64)
    requires EligibleExact(s) && |s.tickets| < U64_MAX
    requires buyer in s.tickets && s.tickets[buyer].state != Withdrawn
    ensures FrozenCounts(s, amount, s.tickets[buyer].amount).Ok?
  {
    HoldingAtMostAll(s.tickets, s.median);
    SumByEntry(s.tickets, Holding(s.median), buyer);
  }

  // ---------------------------------------------------------------------------
  // Whole runs

  /** In phase one the authority keeps the prices, and the buyers their bids, on tick marks. */
  ghost predicate OnTickEvent(s: Launch, e: Event) {
    match e.ix
    case Update(data) => TicksOfTwo(data)
    case Purchase(_, amount, _) => s.data.tickSize > 0 && e.now <= s.data.phaseOneEnd ==> amount % s.data.tickSize == 0
    case Adjust(_, amount, _, _) => s.data.tickSize > 0 && e.now <= s.data.phaseOneEnd ==> amount % s.data.tickSize == 0
    case _ => true
  }

  lemma StepKeepsOnTicks(s: Launch, e: Event)
    requires s.sold == 0 ==> s.tickets == map[]
    requires e.ix.Update? ==> s.sold == 0
    requires OnTicks(s.data, s.tickets) && OnTickEvent(s, e) && e.now <= s.data.phaseOneEnd
    ensures OnTicks(Step(s, e).data, Step(s, e).tickets)
  {
    var p := s.(clock := e.now);
    if Apply(p, e).Ok? {
      var r := Apply(p, e).value;
      if OnTicket(e.ix) {
        TicketStepKeepsOnTicks(p, e, r);
      } else if !e.ix.Update? {
        OtherStepKeepsTickets(p, e, r);
      }
    }
  }

  lemma TicketStepKeepsOnTicks(s: Launch, e: Event, r: Launch)
    requires OnTicks(s.data, s.tickets) && OnTicket(e.ix) && OnTickEvent(s, e)
    requires s.clock == e.now <= s.data.phaseOneEnd && Apply(s, e) == Ok(r)
    ensures OnTicks(r.data, r.tickets)
  {
    match e.ix
    case Purchase(buyer, amount, _) => OnTicksUpdate(s, r, buyer, Ticket(amount, NoSequenceStruct, s.sold));
    case Sequence(buyer) => RestateKeepsOnTicks(s, r, buyer, Unpunched);
    case Adjust(buyer, amount, buyerSigned, funds) => AdjustKeepsOnTicks(s, buyer, amount, buyerSigned, funds, r);
    case Punch(buyer) => RestateKeepsOnTicks(s, r, buyer, Punched);
  }

  lemma RestateKeepsOnTicks(s: Launch, r: Launch, k: Pubkey, state: TicketState)
    requires OnTicks(s.data, s.tickets) && k in s.tickets && s.tickets[k].state != Withdrawn
    requires r.data == s.data && r.tickets == s.tickets[k := s.tickets[k].(state := state)]
    ensures OnTicks(r.data, r.tickets)
  {
  }

  /** The instructions on phases and money leave the tickets and the ticks alone. */
  lemma OtherStepKeepsTickets(s: Launch, e: Event, r: Launch)
    requires s.clock == e.now && !OnTicket(e.ix) && !e.ix.Update? && Apply(s, e) == Ok(r)
    ensures r.tickets == s.tickets && r.median == s.median && r.eligible == s.eligible
    ensures r.data == s.data.(phaseTwoEnd := r.data.phaseTwoEnd)
  {
    if OnPhase(e.ix) {
      PhaseStepKeepsTickets(s, e, r);
    } else {
      MoneyStepKeepsTickets(s, e, r);
    }
  }

  lemma PhaseStepKeepsTickets(s: Launch, e: Event, r: Launch)
    requires s.clock == e.now && OnPhase(e.ix) && !e.ix.Update? && Apply(s, e) == Ok(r)
    ensures r.tickets == s.tickets && r.median == s.median && r.eligible == s.eligible
    ensures r.data == s.data.(phaseTwoEnd := r.data.phaseTwoEnd)
  {
  }

  lemma MoneyStepKeepsTickets(s: Launch, e: Event, r: Launch)
    requires s.clock == e.now && !OnTicket(e.ix) && !OnPhase(e.ix) && Apply(s, e) == Ok(r)
    ensures r.tickets == s.tickets && r.median == s.median && r.eligible == s.eligible && r.data == s.data
  {
  }

  lemma AdjustKeepsOnTicks(s: Launch, buyer: Pubkey, amount: u64, buyerSigned: bool, funds: u64, r: Launch)
    requires OnTicks(s.data, s.tickets) && amount % s.data.tickSize == 0
    requires AdjustTicket(s, buyer, amount, buyerSigned, funds, s.clock) == Ok(r)
    ensures OnTicks(r.data, r.tickets)
  {
    AdjustEffect(s, buyer, amount, buyerSigned, funds, r);
    OnTicksUpdate(s, r, buyer, Adjusted(s.tickets[buyer], amount));
  }

  lemma OnTicksUpdate(s: Launch, r: Launch, k: Pubkey, t: Ticket)
    requires OnTicks(s.data, s.tickets) && r.data == s.data && r.tickets == s.tickets[k := t]
    requires t.state != Withdrawn ==> t.amount % s.data.tickSize == 0
    ensures OnTicks(r.data, r.tickets)
  {
  }

  /** Exact now, and on tick marks for as long as phase one lasts; a launch with a ticket has a positive median. */
  ghost predicate ExactInv(s: Launch) {
    && Inv(s)
    && EligibleExact(s)
    && (s.clock <= s.data.phaseOneEnd ==> OnTicks(s.data, s.tickets))
    && (s.sold > 0 ==> s.median > 0)
  }

  lemma PhaseOneEndKept(s: Launch, e: Event)
    requires !e.ix.Update?
    ensures Step(s, e).data.phaseOneEnd == s.data.phaseOneEnd && Step(s, e).clock == e.now
  {
  }

  lemma MedianKept(s: Launch, e: Event)
    requires !e.ix.Update? && e.now > s.data.phaseOneEnd
    ensures Step(s, e).median == s.median && Step(s, e).sold == s.sold
  {
  }

  lemma NoTicketExact(s: Launch)
    requires Inv(s) && s.sold == 0 && s.eligible == 0
    ensures EligibleExact(s)
  {
    NoTicketYet(s);
  }

  lemma UpdateKeepsExact(s: Launch, e: Event)
    requires ExactInv(s) && WellBehaved(s, e) && OnTickEvent(s, e) && e.ix.Update?
    ensures ExactInv(Step(s, e))
  {
    StepKeepsInv(s, e);
    NoTicketYet(s);
    NoTicketExact(Step(s, e));
  }

  lemma EarlyStepKeepsExact(s: Launch, e: Event)
    requires ExactInv(s) && WellBehaved(s, e) && OnTickEvent(s, e) && !e.ix.Update?
    requires e.now <= s.data.phaseOneEnd
    ensures ExactInv(Step(s, e))
  {
    var r := Step(s, e);
    assert Inv(r) by { StepKeepsInv(s, e); }
    assert OnTicks(r.data, r.tickets) by {
      if s.sold == 0 {
        NoTicketYet(s);
      }
      StepKeepsOnTicks(s, e);
    }
    PhaseOneEndKept(s, e);
    PhaseOneExact(r);
    InvBooked(r);
  }

  lemma LateStepKeepsExact(s: Launch, e: Event)
    requires ExactInv(s) && WellBehaved(s, e) && OnTickEvent(s, e) && !e.ix.Update?
    requires e.now > s.data.phaseOneEnd
    ensures ExactInv(Step(s, e))
  {
    var r := Step(s, e);
    assert Inv(r) by { StepKeepsInv(s, e); }
    PhaseOneEndKept(s, e);
    MedianKept(s, e);
    if s.sold == 0 {
      NoTicketYet(s);
      NoTicketYet(r);
      assert r.eligible == 0 by { NothingToMove(s, e); }
      NoTicketExact(r);
    } else {
      LateStepKeepsDrift(s, e);
    }
  }

  /** Without a ticket nothing but the clock can touch the number of eligible holders after phase one. */
  lemma NothingToMove(s: Launch, e: Event)
    requires s.tickets == map[] && e.now > s.data.phaseOneEnd
    ensures Step(s, e).eligible == s.eligible
  {
  }

  lemma StepKeepsExact(s: Launch, e: Event)
    requires ExactInv(s) && WellBehaved(s, e) && OnTickEvent(s, e)
    ensures ExactInv(Step(s, e))
  {
    if e.ix.Update? {
      UpdateKeepsExact(s, e);
    } else if e.now <= s.data.phaseOneEnd {
      EarlyStepKeepsExact(s, e);
    } else {
      LateStepKeepsExact(s, e);
    }
  }

  ghost predicate OnTickRun(s: Launch, events: seq<Event>)
    decreases |events|
  {
    |events| > 0 ==>
      && OnTickRun(s, events[..|events| - 1])
      && OnTickEvent(Run(s, events[..|events| - 1]), events[|events| - 1])
  }

  lemma {:induction false} RunKeepsExact(s: Launch, events: seq<Event>)
    requires ExactInv(s) && WellBehavedRun(s, events) && OnTickRun(s, events)
    ensures ExactInv(Run(s, events))
    decreases |events|
  {
    if |events| > 0 {
      var last := |events| - 1;
      RunKeepsExact(s, events[..last]);
      StepKeepsExact(Run(s, events[..last]), events[last]);
    }
  }
}
