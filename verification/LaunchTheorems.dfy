/** What holds after every well-behaved run of a fair launch. */
module LaunchTheorems {
  import opened Prelude
  import opened FairLaunchErrors
  import opened MapSums
  import opened Division
  import opened Histogram
  import Bits
  import opened LotteryBitmap
  import opened FairLaunch
  import opened LaunchInvariant
  import opened LaunchSteps
  import opened EligibleHolders

  /** A run from a fresh launch, under the hypotheses on the authority. */
  ghost predicate LaunchRun(data: LaunchData, start: i64, events: seq<Event>) {
    && data.priceRangeStart > 0
    && InitializeFairLaunch(data, start).Ok?
    && WellBehavedRun(InitializeFairLaunch(data, start).value, events)
  }

  ghost function Reached(data: LaunchData, start: i64, events: seq<Event>): Launch
    requires LaunchRun(data, start, events)
  {
    Run(InitializeFairLaunch(data, start).value, events)
  }

  lemma ReachedInv(data: LaunchData, start: i64, events: seq<Event>)
    requires LaunchRun(data, start, events)
    ensures Inv(Reached(data, start, events))
  {
    InitializeGivesInv(data, start);
    RunKeepsInv(InitializeFairLaunch(data, start).value, events);
  }

  // ---------------------------------------------------------------------------
  // The treasury and the counters

  /** Every buyer's money is in the treasury: the ticket amounts and one fee a ticket. */
  lemma PaidIsAmountsAndFees(tickets: map<Pubkey, Ticket>, fee: nat)
    ensures SumBy(tickets, Paid(fee)) == SumBy(tickets, Amount()) + fee * |tickets|
  {
    var one := (t: Ticket) => 1;
    var fees := (t: Ticket) => fee;
    SumByCount(tickets, one);
    SumByTimes(tickets, fees, one, fee);
    SumByAdd(tickets, Amount(), fees, Paid(fee));
  }

  /** Once all tickets are resolved only the punched ones hold money, each exactly the median. */
  lemma ResolvedAmounts(s: Launch)
    requires Inv(s) && !Unresolved(s)
    ensures SumBy(s.tickets, Amount()) == s.median * s.punched
  {
    ResolvedTickets(s);
    SumByTimes(s.tickets, Amount(), InState(Punched), s.median);
  }

  lemma TreasuryAndCounters(data: LaunchData, start: i64, events: seq<Event>)
    requires LaunchRun(data, start, events)
    ensures var s := Reached(data, start, events);
      && s.unSeqed == CountIn(s.tickets, NoSequenceStruct)
      && s.dropped == CountIn(s.tickets, Withdrawn)
      && s.punched == CountIn(s.tickets, Punched)
      && s.sold == s.unSeqed + CountIn(s.tickets, Unpunched) + s.dropped + s.punched == |s.tickets|
      && (s.snapshot.None? ==> s.treasury == SumBy(s.tickets, Amount()) + s.data.fee * s.sold)
      && (!Unresolved(s) ==> Held(s) == s.median * s.punched + s.data.fee * s.sold)
  {
    ReachedInv(data, start, events);
    var s := Reached(data, start, events);
    TicketsPartition(s.tickets);
    PaidIsAmountsAndFees(s.tickets, s.data.fee);
    if !Unresolved(s) {
      ResolvedAmounts(s);
    }
  }

  /** No adjustment, in whichever phase, fails because the treasury is short. */
  lemma PayBackCovered(data: LaunchData, start: i64, events: seq<Event>, buyer: Pubkey, amount: u64, signed: bool,
                       funds: u64, now: i64)
    requires LaunchRun(data, start, events)
    ensures var s := Reached(data, start, events);
      buyer in s.tickets && s.tickets[buyer].state == Unpunched ==> s.treasury >= s.tickets[buyer].amount
    ensures var s := Reached(data, start, events);
      amount <= (if buyer in s.tickets then s.tickets[buyer].amount else 0) ==>
      AdjustTicket(s, buyer, amount, signed, funds, now) != Err(TransferFailed)
  {
    ReachedInv(data, start, events);
    var s := Reached(data, start, events);
    if buyer in s.tickets && s.tickets[buyer].state == Unpunched {
      OpenTicketCovered(s, buyer);
    }
    if amount <= (if buyer in s.tickets then s.tickets[buyer].amount else 0) {
      CoveredAdjustment(s, buyer, amount, signed, funds, now);
    }
  }

  lemma OpenTicketCovered(s: Launch, buyer: Pubkey)
    requires Inv(s) && buyer in s.tickets && s.tickets[buyer].state == Unpunched
    ensures s.treasury >= s.tickets[buyer].amount
  {
    OpenTicket(s, buyer);
    SumByEntry(s.tickets, Paid(s.data.fee), buyer);
  }

  lemma CoveredAdjustment(s: Launch, buyer: Pubkey, amount: u64, signed: bool, funds: u64, now: i64)
    requires buyer in s.tickets && s.tickets[buyer].state == Unpunched ==> s.treasury >= s.tickets[buyer].amount
    requires amount <= if buyer in s.tickets then s.tickets[buyer].amount else 0
    ensures AdjustTicket(s, buyer, amount, signed, funds, now) != Err(TransferFailed)
  {
  }

  // ---------------------------------------------------------------------------
  // Tokens

  lemma SupplyNeverExceedsTokens(data: LaunchData, start: i64, events: seq<Event>)
    requires LaunchRun(data, start, events)
    ensures var s := Reached(data, start, events);
      && s.supply <= s.data.numberOfTokens
      && (s.lottery.Some? ==> s.punched <= s.lottery.value.ones == |SetBits(s)|)
      && (s.lottery.None? ==> s.punched == 0)
  {
    ReachedInv(data, start, events);
    var s := Reached(data, start, events);
    if s.lottery.Some? {
      PunchedAtMostOnes(s);
      Bits.PopCountIsSetBits(s.lottery.value.bytes);
    }
  }

  /** The winning tickets: the set bits of the lottery bitmap. */
  ghost function SetBits(s: Launch): set<nat>
    requires s.lottery.Some?
  {
    Bits.SetBits(s.lottery.value.bytes, 8 * |s.lottery.value.bytes|)
  }

  // ---------------------------------------------------------------------------
  // The histogram

  lemma HistogramMatchesTickets(data: LaunchData, start: i64, events: seq<Event>)
    requires LaunchRun(data, start, events)
    requires Reached(data, start, events).clock <= Reached(data, start, events).data.phaseOneEnd
    ensures var s := Reached(data, start, events);
      && DataOk(s.data) && HistogramOk(s.data, s.counts, s.tickets)
      && Total(s.counts) == s.sold - s.dropped
      && (s.sold > 0 ==> s.median == s.data.priceRangeStart + MedianOffset(s.counts, s.data.tickSize))
      && (s.sold > 0 ==> s.eligible == EligibleBids(s.counts) && 2 * s.eligible >= s.sold - s.dropped)
  {
    ReachedInv(data, start, events);
    var s := Reached(data, start, events);
    TotalIsLive(s.data, s.counts, s.tickets, s.sold);
    EligibleAtLeastHalf(s.counts);
  }

  /** A purchase is refused only for what the buyer did or for a full counter: never because adjust_counts fails. */
  lemma PurchaseSucceedsWhen(data: LaunchData, start: i64, events: seq<Event>, buyer: Pubkey, amount: u64, funds: u64,
                             now: i64)
    requires LaunchRun(data, start, events) && now >= Reached(data, start, events).clock
    ensures var s := Reached(data, start, events);
      PurchaseTicket(s, buyer, amount, funds, now).Ok? <==>
        && buyer !in s.tickets
        && s.data.phaseOneStart <= now <= s.data.phaseOneEnd
        && s.data.priceRangeStart <= amount <= s.data.priceRangeEnd
        && s.data.tickSize > 0 && (amount % s.data.tickSize == 0 || amount == s.median)
        && s.sold < U64_MAX
        && amount + s.data.fee <= funds
        && s.treasury + amount + s.data.fee <= U64_MAX
  {
    ReachedInv(data, start, events);
    var s := Reached(data, start, events);
    TicketsPartition(s.tickets);
    if now <= s.data.phaseOneEnd && s.sold < U64_MAX && AssertValidAmount(s.data, s.median, amount).Pass? {
      InsertCannotFail(s.data, s.counts, s.tickets, s.sold, amount);
    }
  }

  /** Nor can the recount fail when a live bid moves in phase one. */
  lemma RecountCannotFail(s: Launch, buyer: Pubkey, amount: u64)
    requires Inv(s) && s.clock <= s.data.phaseOneEnd
    requires buyer in s.tickets && s.tickets[buyer].state != Withdrawn
    requires amount == 0 || s.data.priceRangeStart <= amount <= s.data.priceRangeEnd
    ensures AdjustCounts(s.data, s.counts, amount, Some(s.tickets[buyer].amount)).Ok?
  {
    var t := s.tickets[buyer].(state := Withdrawn, amount := 0);
    RemoveKeepsHistogram(s.data, s.counts, s.tickets, buyer);
    ChangeKeepsTicketsOk(s.data, s.tickets, s.sold, buyer, t);
    RoomForOne(s.data, RemoveBid(s.data, s.counts, s.tickets[buyer].amount).value, s.tickets[buyer := t], s.sold,
               buyer, amount);
  }

  lemma RoomForOne(d: LaunchData, counts: seq<u64>, tickets: map<Pubkey, Ticket>, sold: nat, k: Pubkey, amount: u64)
    requires DataOk(d) && BinsOk(d, counts) && TicketsOk(d, tickets, sold) && HistogramOk(d, counts, tickets)
    requires k in tickets && tickets[k].state == Withdrawn && sold <= U64_MAX
    requires amount == 0 || d.priceRangeStart <= amount <= d.priceRangeEnd
    ensures AdjustCounts(d, counts, amount, None).Ok?
  {
    OneWithdrawn(tickets, k);
    InsertCannotFail(d, counts, tickets, sold, amount);
  }

  lemma OneWithdrawn(tickets: map<Pubkey, Ticket>, k: Pubkey)
    requires k in tickets && tickets[k].state == Withdrawn
    ensures SumBy(tickets, Live()) < |tickets|
  {
    TicketsPartition(tickets);
    SumByEntry(tickets, InState(Withdrawn), k);
  }

  // ---------------------------------------------------------------------------
  // Eligible holders

  ghost function Reaching(tickets: map<Pubkey, Ticket>, m: nat): set<Pubkey> {
    set k | k in tickets && tickets[k].amount >= m
  }

  lemma HoldingIsReaching(tickets: map<Pubkey, Ticket>, m: nat)
    requires m > 0 && forall k :: k in tickets && tickets[k].state == Withdrawn ==> tickets[k].amount == 0
    ensures SumBy(tickets, Holding(m)) == |Reaching(tickets, m)|
  {
    SumByCardinality(tickets, Holding(m));
    assert Picked(tickets, Holding(m)) == Reaching(tickets, m);
  }

  /**
   With ticks of at least two units, the first price on a tick mark and the bids
   of phase one on tick marks, the stored number is the number of tickets that
   reach the median, in every phase.
   */
  lemma EligibleHoldersCounted(data: LaunchData, start: i64, events: seq<Event>)
    requires LaunchRun(data, start, events) && TicksOfTwo(data)
    requires OnTickRun(InitializeFairLaunch(data, start).value, events)
    requires Reached(data, start, events).sold > 0
    ensures var s := Reached(data, start, events);
      s.median > 0 && s.eligible == |Reaching(s.tickets, s.median)|
  {
    InitializeGivesInv(data, start);
    RunKeepsExact(InitializeFairLaunch(data, start).value, events);
    var s := Reached(data, start, events);
    HoldingIsReaching(s.tickets, s.median);
  }

  /** Without those conditions: whatever the number was when phase one closed, later steps keep it exact or inexact. */
  lemma LateRunKeepsExactness(s: Launch, events: seq<Event>)
    requires Inv(s) && s.median > 0 && WellBehavedRun(s, events)
    requires forall i :: 0 <= i < |events| ==> events[i].now > s.data.phaseOneEnd
    ensures EligibleExact(Run(s, events)) <==> EligibleExact(s)
    ensures Drift(Run(s, events)) == Drift(s)
  {
    LateRunKeepsDrift(s, events);
  }

  lemma {:induction false} LateRunKeepsDrift(s: Launch, events: seq<Event>)
    requires Inv(s) && s.median > 0 && WellBehavedRun(s, events)
    requires forall i :: 0 <= i < |events| ==> events[i].now > s.data.phaseOneEnd
    ensures Drift(Run(s, events)) == Drift(s)
    ensures Run(s, events).median == s.median && Run(s, events).data.phaseOneEnd == s.data.phaseOneEnd
    decreases |events|
  {
    if |events| > 0 {
      var last := |events| - 1;
      var before := Run(s, events[..last]);
      LateRunKeepsDrift(s, events[..last]);
      RunKeepsInv(s, events[..last]);
      LateStepKeepsDrift(before, events[last]);
      LateStepKeepsMedian(before, events[last]);
    }
  }

  lemma LateStepKeepsMedian(s: Launch, e: Event)
    requires e.now > s.data.phaseOneEnd && s.data.phaseOneStart < s.data.phaseOneEnd
    ensures Step(s, e).median == s.median && Step(s, e).data.phaseOneEnd == s.data.phaseOneEnd
  {
  }
}
