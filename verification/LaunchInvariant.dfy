/**
 What every instruction of the fair launch keeps.  The counters, the histogram
 and the treasury are compared with what they stand for: a count or a sum over
 the tickets.
 */
module LaunchInvariant {
  import opened Prelude
  import opened FairLaunchErrors
  import opened MapSums
  import opened Division
  import opened Histogram
  import opened Bits
  import opened LotteryBitmap
  import opened FairLaunch

  // ---------------------------------------------------------------------------
  // Weights of a ticket

  function InState(state: TicketState): Ticket -> nat {
    (t: Ticket) => if t.state == state then 1 else 0
  }

  function Amount(): Ticket -> nat {
    (t: Ticket) => t.amount
  }

  /** What the buyer of a ticket has in the treasury. */
  function Paid(fee: nat): Ticket -> nat {
    (t: Ticket) => t.amount + fee
  }

  function Number(): Ticket -> nat {
    (t: Ticket) => t.number
  }

  function Live(): Ticket -> nat {
    (t: Ticket) => if t.state != Withdrawn then 1 else 0
  }

  /** Live tickets whose amount reaches m. */
  function Holding(m: nat): Ticket -> nat {
    (t: Ticket) => if t.state != Withdrawn && t.amount >= m then 1 else 0
  }

  /** Live tickets whose amount falls in bin p. */
  function InBin(start: nat, tick: nat, p: int): Ticket -> nat
    requires tick > 0
  {
    (t: Ticket) => if t.state != Withdrawn && t.amount / tick - start / tick == p then 1 else 0
  }

  ghost function CountIn(tickets: map<Pubkey, Ticket>, state: TicketState): nat {
    SumBy(tickets, InState(state))
  }

  // ---------------------------------------------------------------------------
  // The invariant

  predicate DataOk(d: LaunchData) {
    && d.tickSize > 0
    && 0 < d.priceRangeStart < d.priceRangeEnd
    && (d.priceRangeEnd - d.priceRangeStart) % d.tickSize == 0
    && d.priceRangeEnd + d.tickSize <= U64_MAX
    && d.phaseOneStart < d.phaseOneEnd
    && (d.antiRug.Some? ==> d.antiRug.value.reserveBp <= 10000)
  }

  predicate BinsOk(d: LaunchData, counts: seq<u64>)
    requires DataOk(d)
  {
    |counts| == (d.priceRangeEnd - d.priceRangeStart) / d.tickSize + 1
  }

  /** Ticket numbers are distinct and below the number sold; only a withdrawn ticket holds nothing. */
  ghost predicate TicketsOk(d: LaunchData, tickets: map<Pubkey, Ticket>, sold: nat) {
    && |tickets| == sold
    && (forall k :: k in tickets ==> tickets[k].number < sold)
    && (forall j, k :: j in tickets && k in tickets && tickets[j].number == tickets[k].number ==> j == k)
    && (forall k :: k in tickets ==>
          if tickets[k].state == Withdrawn then tickets[k].amount == 0
          else d.priceRangeStart <= tickets[k].amount <= d.priceRangeEnd)
  }

  /** Each counter is the number of tickets in its state. */
  ghost predicate CountersOk(tickets: map<Pubkey, Ticket>, unSeqed: nat, dropped: nat, punched: nat) {
    && unSeqed == CountIn(tickets, NoSequenceStruct)
    && dropped == CountIn(tickets, Withdrawn)
    && punched == CountIn(tickets, Punched)
  }

  /** The treasury, or what it held when the first withdrawal or refund came. */
  function Held(s: Launch): nat {
    if s.snapshot.Some? then s.snapshot.value else s.treasury
  }

  ghost predicate MoneyOk(tickets: map<Pubkey, Ticket>, held: nat, fee: nat) {
    held == SumBy(tickets, Paid(fee))
  }

  ghost predicate HistogramOk(d: LaunchData, counts: seq<u64>, tickets: map<Pubkey, Ticket>)
    requires d.tickSize > 0
  {
    forall p :: 0 <= p < |counts| ==> counts[p] == SumBy(tickets, InBin(d.priceRangeStart, d.tickSize, p))
  }

  /** The stored median and number of eligible holders are those of the histogram, once there is a ticket. */
  ghost predicate TallyOk(d: LaunchData, counts: seq<u64>, median: u64, eligible: u64, sold: nat) {
    if sold == 0 then median == 0 && eligible == 0
    else MeasureSpec(counts, d.priceRangeStart, d.tickSize) == Some(Tally(median, eligible))
  }

  predicate PhasesOk(s: Launch) {
    && (s.data.phaseTwoEnd > s.data.phaseOneEnd || s.clock > s.data.phaseOneEnd)
    && (s.lottery.Some? ==> s.clock > s.data.phaseOneEnd)
    && (s.phaseThreeStarted ==> s.lottery.Some?)
    && (!s.phaseThreeStarted ==> s.punched == 0 && s.snapshot.None?)
    && (s.snapshot.Some? ==> s.sold == s.dropped + s.punched)
    && (s.snapshot.None? ==> s.burnedForRefunds == 0 && s.authorityPaid == 0)
  }

  ghost predicate LotteryOk(lottery: Option<Lottery>, sold: nat) {
    lottery.Some? ==> Accurate(lottery.value) && |lottery.value.bytes| == sold / 8 + 1
  }

  /** A punched ticket has paid exactly the median and its lottery bit is set. */
  ghost predicate PunchedOk(tickets: map<Pubkey, Ticket>, lottery: Option<Lottery>, median: nat) {
    forall k :: k in tickets && tickets[k].state == Punched ==>
      && tickets[k].amount == median
      && lottery.Some?
      && IsWinner(lottery.value.bytes, tickets[k].number) == Some(true)
  }

  /** Tokens never exceed the number on sale, counting the winners who have yet to punch. */
  ghost predicate SupplyOk(s: Launch) {
    && s.supply <= s.data.numberOfTokens
    && (s.phaseThreeStarted && s.lottery.Some? && s.sold > s.dropped + s.punched ==>
          s.supply + s.lottery.value.ones - s.punched <= s.data.numberOfTokens)
  }

  ghost predicate Inv(s: Launch) {
    && DataOk(s.data)
    && BinsOk(s.data, s.counts)
    && TicketsOk(s.data, s.tickets, s.sold)
    && CountersOk(s.tickets, s.unSeqed, s.dropped, s.punched)
    && MoneyOk(s.tickets, Held(s), s.data.fee)
    && (s.clock <= s.data.phaseOneEnd ==> HistogramOk(s.data, s.counts, s.tickets))
    && (s.clock <= s.data.phaseOneEnd ==> TallyOk(s.data, s.counts, s.median, s.eligible, s.sold))
    && PhasesOk(s)
    && LotteryOk(s.lottery, s.sold)
    && PunchedOk(s.tickets, s.lottery, s.median)
    && SupplyOk(s)
  }

  // ---------------------------------------------------------------------------
  // Consequences

  /** Every ticket is unsequenced, unpunched, dropped or punched. */
  lemma TicketsPartition(tickets: map<Pubkey, Ticket>)
    ensures CountIn(tickets, NoSequenceStruct) + CountIn(tickets, Unpunched)
         + CountIn(tickets, Withdrawn) + CountIn(tickets, Punched) == |tickets|
    ensures SumBy(tickets, Live()) + CountIn(tickets, Withdrawn) == |tickets|
  {
    LiveTickets(tickets);
    LivePartition(tickets);
  }

  lemma LiveTickets(tickets: map<Pubkey, Ticket>)
    ensures SumBy(tickets, Live()) + CountIn(tickets, Withdrawn) == |tickets|
  {
    var one := (t: Ticket) => 1;
    SumByAdd(tickets, Live(), InState(Withdrawn), one);
    SumByCount(tickets, one);
  }

  lemma LivePartition(tickets: map<Pubkey, Ticket>)
    ensures CountIn(tickets, NoSequenceStruct) + CountIn(tickets, Unpunched) + CountIn(tickets, Punched)
         == SumBy(tickets, Live())
  {
    var open := (t: Ticket) => if t.state == NoSequenceStruct || t.state == Unpunched then 1 else 0;
    SumByAdd(tickets, InState(NoSequenceStruct), InState(Unpunched), open);
    SumByAdd(tickets, open, InState(Punched), Live());
  }

  predicate IsResolved(t: Ticket) {
    t.state == Punched || t.state == Withdrawn
  }

  /** No ticket is unsequenced or unpunched. */
  ghost predicate AllResolved(tickets: map<Pubkey, Ticket>) {
    forall k :: k in tickets ==> IsResolved(tickets[k])
  }

  lemma NoneOpenIff(tickets: map<Pubkey, Ticket>)
    ensures CountIn(tickets, NoSequenceStruct) + CountIn(tickets, Unpunched) == 0 <==> AllResolved(tickets)
  {
    SumByZero(tickets, InState(NoSequenceStruct));
    SumByZero(tickets, InState(Unpunched));
    if CountIn(tickets, NoSequenceStruct) + CountIn(tickets, Unpunched) == 0 {
      forall k | k in tickets
        ensures IsResolved(tickets[k])
      {
        assert InState(NoSequenceStruct)(tickets[k]) == 0 && InState(Unpunched)(tickets[k]) == 0;
      }
    }
  }

  /** The cash-out gate is open exactly when no ticket is unsequenced or unpunched. */
  lemma ResolvedTickets(s: Launch)
    requires TicketsOk(s.data, s.tickets, s.sold) && CountersOk(s.tickets, s.unSeqed, s.dropped, s.punched)
    ensures s.dropped + s.punched <= s.sold
    ensures !Unresolved(s) <==> s.sold == s.dropped + s.punched
    ensures !Unresolved(s) <==> AllResolved(s.tickets)
  {
    OpenAreTheRest(s.tickets, s.sold, s.unSeqed, s.dropped, s.punched);
    GateIsExact(s.sold, s.dropped + s.punched);
  }

  lemma OpenAreTheRest(tickets: map<Pubkey, Ticket>, sold: nat, unSeqed: nat, dropped: nat, punched: nat)
    requires |tickets| == sold && CountersOk(tickets, unSeqed, dropped, punched)
    ensures dropped + punched <= sold
    ensures sold == dropped + punched <==> AllResolved(tickets)
  {
    TicketsPartition(tickets);
    NoneOpenIff(tickets);
  }

  lemma GateIsExact(sold: u64, resolved: nat)
    requires resolved <= sold
    ensures sold > resolved % (U64_MAX + 1) <==> sold != resolved
  {
  }

  /** Distinct winners sit on distinct set bits. */
  lemma PunchedAtMostOnes(s: Launch)
    requires Inv(s) && s.lottery.Some?
    ensures s.punched <= s.lottery.value.ones
  {
    var bytes := s.lottery.value.bytes;
    PopCountIsSetBits(bytes);
    forall k | k in s.tickets && s.tickets[k].state == Punched
      ensures s.tickets[k].number in SetBits(bytes, 8 * |bytes|)
    {
      IsWinnerIsBit(bytes, s.tickets[k].number);
    }
    SumByInjection(s.tickets, InState(Punched), Number(), SetBits(bytes, 8 * |bytes|));
  }

  // ---------------------------------------------------------------------------
  // The histogram

  lemma BinInRange(d: LaunchData, amount: nat)
    requires DataOk(d) && d.priceRangeStart <= amount <= d.priceRangeEnd
    ensures 0 <= BinOf(d, amount) <= (d.priceRangeEnd - d.priceRangeStart) / d.tickSize
  {
    var k := (d.priceRangeEnd - d.priceRangeStart) / d.tickSize;
    DivMonotone(d.priceRangeStart, amount, d.tickSize);
    DivMonotone(amount, d.priceRangeEnd, d.tickSize);
    DivAddMultiple(d.priceRangeStart, d.tickSize, k);
    assert d.priceRangeEnd == d.priceRangeStart + d.tickSize * k;
  }

  /** The bins run from the start of the range to one tick past its end. */
  lemma TicksSpan(d: LaunchData, counts: seq<u64>)
    requires DataOk(d) && BinsOk(d, counts)
    ensures d.priceRangeStart + Ticks(d.tickSize, |counts|) == d.priceRangeEnd + d.tickSize
  {
    var k := (d.priceRangeEnd - d.priceRangeStart) / d.tickSize;
    TicksIsProduct(d.tickSize, k);
    assert d.priceRangeEnd == d.priceRangeStart + d.tickSize * k;
  }

  /** Live tickets in the first i bins. */
  function BelowBin(start: nat, tick: nat, i: int): Ticket -> nat
    requires tick > 0
  {
    (t: Ticket) => if t.state != Withdrawn && t.amount / tick - start / tick < i then 1 else 0
  }

  lemma {:induction false} BelowIsCount(d: LaunchData, counts: seq<u64>, tickets: map<Pubkey, Ticket>, sold: nat,
                                        i: nat)
    requires DataOk(d) && TicketsOk(d, tickets, sold) && HistogramOk(d, counts, tickets)
    requires i <= |counts|
    ensures Below(counts, i) == SumBy(tickets, BelowBin(d.priceRangeStart, d.tickSize, i))
  {
    var start, tick := d.priceRangeStart, d.tickSize;
    if i == 0 {
      forall k | k in tickets ensures BelowBin(start, tick, 0)(tickets[k]) == 0 {
        if tickets[k].state != Withdrawn {
          BinInRange(d, tickets[k].amount);
        }
      }
      SumByZero(tickets, BelowBin(start, tick, 0));
    } else {
      BelowIsCount(d, counts, tickets, sold, i - 1);
      SumByAdd(tickets, BelowBin(start, tick, i - 1), InBin(start, tick, i - 1), BelowBin(start, tick, i));
    }
  }

  /** The counts add up to the tickets that have not been withdrawn. */
  lemma TotalIsLive(d: LaunchData, counts: seq<u64>, tickets: map<Pubkey, Ticket>, sold: nat)
    requires DataOk(d) && BinsOk(d, counts) && TicketsOk(d, tickets, sold) && HistogramOk(d, counts, tickets)
    ensures Total(counts) == SumBy(tickets, Live())
    ensures Total(counts) + CountIn(tickets, Withdrawn) == sold
  {
    var start, tick := d.priceRangeStart, d.tickSize;
    BelowIsCount(d, counts, tickets, sold, |counts|);
    forall k | k in tickets ensures BelowBin(start, tick, |counts|)(tickets[k]) == Live()(tickets[k]) {
      if tickets[k].state != Withdrawn {
        BinInRange(d, tickets[k].amount);
      }
    }
    SumByEqual(tickets, BelowBin(start, tick, |counts|), Live());
    TicketsPartition(tickets);
  }

  lemma {:induction false} BinAtMostBelow(counts: seq<nat>, i: nat, p: nat)
    requires p < i <= |counts|
    ensures counts[p] <= Below(counts, i)
  {
    if p < i - 1 {
      BinAtMostBelow(counts, i - 1, p);
    }
  }

  /** On counts that fit, the measurement never overflows. */
  lemma MeasureCannotFail(d: LaunchData, counts: seq<u64>)
    requires DataOk(d) && BinsOk(d, counts) && Total(counts) <= U64_MAX
    ensures MeasureSpec(counts, d.priceRangeStart, d.tickSize).Some?
  {
    TicksSpan(d, counts);
    if Total(counts) > 0 {
      MedianBetween(counts, d.tickSize);
    }
  }

  /** Entering or moving a ticket updates exactly its bins. */
  lemma InsertKeepsHistogram(d: LaunchData, counts: seq<u64>, tickets: map<Pubkey, Ticket>, k: Pubkey, t: Ticket)
    requires DataOk(d) && BinsOk(d, counts) && HistogramOk(d, counts, tickets)
    requires t.state != Withdrawn ==> d.priceRangeStart <= t.amount <= d.priceRangeEnd
    requires t.state == Withdrawn ==> t.amount == 0
    requires k in tickets ==> tickets[k].state == Withdrawn
    requires InsertBid(d, counts, t.amount).Ok?
    ensures HistogramOk(d, InsertBid(d, counts, t.amount).value, tickets[k := t])
  {
    if t.state != Withdrawn {
      BinInRange(d, t.amount);
    }
    forall p | 0 <= p < |counts|
      ensures InsertBid(d, counts, t.amount).value[p] ==
        SumBy(tickets[k := t], InBin(d.priceRangeStart, d.tickSize, p))
    {
      SumByUpdate(tickets, InBin(d.priceRangeStart, d.tickSize, p), k, t);
    }
  }

  lemma RemoveKeepsHistogram(d: LaunchData, counts: seq<u64>, tickets: map<Pubkey, Ticket>, k: Pubkey)
    requires DataOk(d) && BinsOk(d, counts) && HistogramOk(d, counts, tickets)
    requires k in tickets && tickets[k].state != Withdrawn
    requires d.priceRangeStart <= tickets[k].amount <= d.priceRangeEnd
    ensures RemoveBid(d, counts, tickets[k].amount).Ok?
    ensures HistogramOk(d, RemoveBid(d, counts, tickets[k].amount).value,
                        tickets[k := tickets[k].(state := Withdrawn, amount := 0)])
  {
    var start, tick := d.priceRangeStart, d.tickSize;
    var gone := tickets[k].(state := Withdrawn, amount := 0);
    BinInRange(d, tickets[k].amount);
    SumByEntry(tickets, InBin(start, tick, BinOf(d, tickets[k].amount)), k);
    forall p | 0 <= p < |counts|
      ensures RemoveBid(d, counts, tickets[k].amount).value[p] == SumBy(tickets[k := gone], InBin(start, tick, p))
    {
      SumByUpdate(tickets, InBin(start, tick, p), k, gone);
    }
  }

  /** No checked operation of adjust_counts can fail when a valid new bid comes in. */
  lemma InsertCannotFail(d: LaunchData, counts: seq<u64>, tickets: map<Pubkey, Ticket>, sold: nat, amount: nat)
    requires DataOk(d) && BinsOk(d, counts) && TicketsOk(d, tickets, sold) && HistogramOk(d, counts, tickets)
    requires SumBy(tickets, Live()) < U64_MAX
    requires amount == 0 || d.priceRangeStart <= amount <= d.priceRangeEnd
    ensures AdjustCounts(d, counts, amount, None).Ok?
  {
    TotalIsLive(d, counts, tickets, sold);
    InsertCounts(d, counts, amount);
    MeasureCannotFail(d, InsertBid(d, counts, amount).value);
  }

  /** The new bid finds its bin, and adds one to the total. */
  lemma InsertCounts(d: LaunchData, counts: seq<u64>, amount: nat)
    requires DataOk(d) && BinsOk(d, counts) && Total(counts) < U64_MAX
    requires amount == 0 || d.priceRangeStart <= amount <= d.priceRangeEnd
    ensures InsertBid(d, counts, amount).Ok?
    ensures BinsOk(d, InsertBid(d, counts, amount).value) && Total(InsertBid(d, counts, amount).value) <= U64_MAX
  {
    if amount != 0 {
      BinInRange(d, amount);
      OneMoreInBin(counts, BinOf(d, amount));
    }
  }

  lemma OneMoreInBin(counts: seq<nat>, p: nat)
    requires p < |counts|
    ensures counts[p] <= Total(counts) && Total(counts[p := counts[p] + 1]) == Total(counts) + 1
  {
    BinAtMostBelow(counts, |counts|, p);
    BelowUpdate(counts, |counts|, p, counts[p] + 1);
  }

  lemma {:induction false} BelowUpdate(c: seq<nat>, i: nat, p: nat, v: nat)
    requires p < |c| && i <= |c|
    ensures Below(c[p := v], i) == Below(c, i) + if p < i then v - c[p] else 0
  {
    if i > 0 {
      BelowUpdate(c, i - 1, p, v);
    }
  }
}
