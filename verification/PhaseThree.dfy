/**
 Phase three from any state: how many tokens its open tickets can still claim,
 and whether they can all be resolved.
 */
module PhaseThree {
  import opened Prelude
  import opened FairLaunchErrors
  import opened MapSums
  import opened Histogram
  import opened Bits
  import opened LotteryBitmap
  import opened FairLaunch
  import opened LaunchInvariant
  import opened LaunchSteps

  // ---------------------------------------------------------------------------
  // Open tickets

  predicate IsOpen(t: Ticket) {
    t.state == NoSequenceStruct || t.state == Unpunched
  }

  function Opened(): Ticket -> nat {
    (t: Ticket) => if IsOpen(t) then 1 else 0
  }

  /** Open tickets at the median or above whose bit is set. */
  function Winning(median: nat, bytes: seq<byte>): Ticket -> nat {
    (t: Ticket) => if IsOpen(t) && t.amount >= median && IsWinner(bytes, t.number) == Some(true) then 1 else 0
  }

  /** Open tickets at the median or above whose bit is clear. */
  function Losing(median: nat, bytes: seq<byte>): Ticket -> nat {
    (t: Ticket) => if IsOpen(t) && t.amount >= median && IsWinner(bytes, t.number) != Some(true) then 1 else 0
  }

  ghost function Winners(s: Launch): nat
    requires s.lottery.Some?
  {
    SumBy(s.tickets, Winning(s.median, s.lottery.value.bytes))
  }

  ghost function Losers(s: Launch): nat
    requires s.lottery.Some?
  {
    SumBy(s.tickets, Losing(s.median, s.lottery.value.bytes))
  }

  predicate HasOpen(s: Launch) {
    s.sold > s.dropped + s.punched
  }

  /** What holds throughout phase three, even if the bitmap has been rewritten at will. */
  ghost predicate Late(s: Launch) {
    && s.phaseThreeStarted && s.lottery.Some?
    && |s.lottery.value.bytes| == s.sold / 8 + 1
    && DataOk(s.data)
    && TicketsOk(s.data, s.tickets, s.sold)
    && CountersOk(s.tickets, s.unSeqed, s.dropped, s.punched)
    && MoneyOk(s.tickets, Held(s), s.data.fee)
    && PhasesOk(s)
    && (HasOpen(s) ==> s.data.priceRangeStart <= s.median <= s.data.priceRangeEnd)
  }

  lemma OpenCount(s: Launch)
    requires TicketsOk(s.data, s.tickets, s.sold)
    requires CountersOk(s.tickets, s.unSeqed, s.dropped, s.punched)
    ensures SumBy(s.tickets, Opened()) + s.dropped + s.punched == s.sold
  {
    TicketsPartition(s.tickets);
    SumByAdd(s.tickets, InState(NoSequenceStruct), InState(Unpunched), Opened());
  }

  /** The gate's wrapping sum is exact. */
  lemma UnresolvedIsOpen(s: Launch)
    requires TicketsOk(s.data, s.tickets, s.sold)
    requires CountersOk(s.tickets, s.unSeqed, s.dropped, s.punched)
    ensures Unresolved(s) <==> HasOpen(s)
  {
    OpenCount(s);
  }

  /** Winners and losers are open. */
  lemma WeightsAreOpen(s: Launch)
    requires Late(s)
    ensures (Winners(s) > 0 || Losers(s) > 0) ==> HasOpen(s)
  {
    OpenCount(s);
    SumByAtMost(s.tickets, Winning(s.median, s.lottery.value.bytes), Opened());
    SumByAtMost(s.tickets, Losing(s.median, s.lottery.value.bytes), Opened());
  }

  // ---------------------------------------------------------------------------
  // One ticket changes

  /** The ticket k becomes t, with every counter and the treasury to match. */
  ghost predicate Moved(s: Launch, k: Pubkey, t: Ticket, r: Launch) {
    && k in s.tickets && IsOpen(s.tickets[k]) && t.number == s.tickets[k].number
    && s.snapshot.None?
    && r.tickets == s.tickets[k := t]
    && r.unSeqed == s.unSeqed - Is(s.tickets[k], NoSequenceStruct) + Is(t, NoSequenceStruct)
    && r.dropped == s.dropped + Is(t, Withdrawn)
    && r.punched == s.punched + Is(t, Punched)
    && r.treasury == s.treasury + t.amount - s.tickets[k].amount
    && r == s.(tickets := r.tickets, unSeqed := r.unSeqed, dropped := r.dropped, punched := r.punched,
               treasury := r.treasury, supply := r.supply, eligible := r.eligible)
  }

  lemma MovedCounters(s: Launch, k: Pubkey, t: Ticket, r: Launch)
    requires CountersOk(s.tickets, s.unSeqed, s.dropped, s.punched) && Moved(s, k, t, r)
    ensures CountersOk(r.tickets, r.unSeqed, r.dropped, r.punched)
  {
    ChangeTicket(s.tickets, s.data.fee, k, t);
  }

  lemma MovedMoney(s: Launch, k: Pubkey, t: Ticket, r: Launch)
    requires MoneyOk(s.tickets, Held(s), s.data.fee) && Moved(s, k, t, r)
    ensures MoneyOk(r.tickets, Held(r), r.data.fee)
  {
    ChangeTicket(s.tickets, s.data.fee, k, t);
  }

  lemma MovedKeepsLate(s: Launch, k: Pubkey, t: Ticket, r: Launch)
    requires Late(s) && Moved(s, k, t, r)
    requires if t.state == Withdrawn then t.amount == 0 else s.data.priceRangeStart <= t.amount <= s.data.priceRangeEnd
    ensures Late(r)
  {
    assert TicketsOk(r.data, r.tickets, r.sold) by { ChangeKeepsTicketsOk(s.data, s.tickets, s.sold, k, t); }
    assert CountersOk(r.tickets, r.unSeqed, r.dropped, r.punched) by { MovedCounters(s, k, t, r); }
    assert MoneyOk(r.tickets, Held(r), r.data.fee) by { MovedMoney(s, k, t, r); }
  }

  lemma MovedWeights(s: Launch, k: Pubkey, t: Ticket, r: Launch)
    requires s.lottery.Some? && Moved(s, k, t, r)
    ensures var w := Winning(s.median, s.lottery.value.bytes);
      Winners(r) + w(s.tickets[k]) == Winners(s) + w(t)
    ensures var l := Losing(s.median, s.lottery.value.bytes);
      Losers(r) + l(s.tickets[k]) == Losers(s) + l(t)
  {
    SumByUpdate(s.tickets, Winning(s.median, s.lottery.value.bytes), k, t);
    SumByUpdate(s.tickets, Losing(s.median, s.lottery.value.bytes), k, t);
  }

  // ---------------------------------------------------------------------------
  // Any instruction but a rewrite

  /** What one instruction does to the open tickets' claims. */
  ghost predicate LateEffect(s: Launch, r: Launch)
    requires s.lottery.Some? && r.lottery.Some?
  {
    && r.data == s.data
    && r.eligible - Losers(r) == s.eligible - Losers(s)
    && Winners(r) <= Winners(s)
    && (r.supply + Winners(r) <= s.supply + Winners(s) || (!HasOpen(s) && r.supply <= s.data.numberOfTokens))
  }

  lemma ClockKeepsLate(s: Launch, now: i64)
    requires Late(s) && s.clock <= now
    ensures Late(s.(clock := now))
    ensures Winners(s.(clock := now)) == Winners(s) && Losers(s.(clock := now)) == Losers(s)
  {
  }

  lemma OpenIsNotCashedOut(s: Launch, k: Pubkey)
    requires Late(s) && k in s.tickets && IsOpen(s.tickets[k])
    ensures HasOpen(s) && s.snapshot.None?
    ensures s.data.priceRangeStart <= s.median <= s.data.priceRangeEnd
  {
    OpenCount(s);
    SumByEntry(s.tickets, Opened(), k);
  }

  lemma SequenceLate(s: Launch, k: Pubkey, r: Launch)
    requires Late(s) && CreateTicketSeq(s, k) == Ok(r)
    ensures Late(r) && LateEffect(s, r)
    ensures Winners(r) == Winners(s) && Losers(r) == Losers(s)
  {
    OpenIsNotCashedOut(s, k);
    var t := s.tickets[k].(state := Unpunched);
    assert Moved(s, k, t, r);
    MovedKeepsLate(s, k, t, r);
    MovedWeights(s, k, t, r);
  }

  /** An adjustment in phase three: the median for a winner, and the way out for everybody else. */
  lemma AdjustChoices(s: Launch, k: Pubkey, amount: u64, signed: bool, funds: u64, r: Launch)
    requires Late(s) && AdjustTicket(s, k, amount, signed, funds, s.clock) == Ok(r)
    ensures k in s.tickets && s.tickets[k].state == Unpunched
    ensures var t := s.tickets[k];
      if t.amount >= s.median && IsWinner(s.lottery.value.bytes, t.number) == Some(true)
      then amount == s.median else amount == 0
    ensures r.eligible == if s.tickets[k].amount >= s.median > amount then s.eligible - 1 else s.eligible
    ensures r.median == s.median && r.counts == s.counts
    ensures amount != 0 ==> s.data.priceRangeStart <= amount <= s.data.priceRangeEnd
  {
    OpenIsNotCashedOut(s, k);
  }

  lemma AdjustMoves(s: Launch, k: Pubkey, amount: u64, signed: bool, funds: u64, r: Launch)
    requires Late(s) && AdjustTicket(s, k, amount, signed, funds, s.clock) == Ok(r)
    ensures k in s.tickets && IsOpen(s.tickets[k])
    ensures Moved(s, k, Adjusted(s.tickets[k], amount), r)
  {
    AdjustChoices(s, k, amount, signed, funds, r);
    AdjustEffect(s, k, amount, signed, funds, r);
    OpenIsNotCashedOut(s, k);
  }

  lemma AdjustKeepsLate(s: Launch, k: Pubkey, amount: u64, signed: bool, funds: u64, r: Launch)
    requires Late(s) && AdjustTicket(s, k, amount, signed, funds, s.clock) == Ok(r)
    ensures Late(r)
  {
    AdjustChoices(s, k, amount, signed, funds, r);
    AdjustMoves(s, k, amount, signed, funds, r);
    MovedKeepsLate(s, k, Adjusted(s.tickets[k], amount), r);
  }

  /** A winner's adjustment changes no claim; a loser's exit costs one eligible holder; a lower bid's costs nothing. */
  lemma AdjustWeights(s: Launch, k: Pubkey, amount: u64, r: Launch)
    requires Late(s) && r.lottery.Some? && k in s.tickets && s.tickets[k].state == Unpunched
    requires Moved(s, k, Adjusted(s.tickets[k], amount), r) && s.median > 0
    requires var t := s.tickets[k];
      if t.amount >= s.median && IsWinner(s.lottery.value.bytes, t.number) == Some(true)
      then amount == s.median else amount == 0
    requires r.eligible == if s.tickets[k].amount >= s.median > amount then s.eligible - 1 else s.eligible
    requires r.supply == s.supply
    ensures LateEffect(s, r)
  {
    MovedWeights(s, k, Adjusted(s.tickets[k], amount), r);
  }

  lemma AdjustLate(s: Launch, k: Pubkey, amount: u64, signed: bool, funds: u64, r: Launch)
    requires Late(s) && AdjustTicket(s, k, amount, signed, funds, s.clock) == Ok(r)
    ensures Late(r) && LateEffect(s, r)
  {
    AdjustKeepsLate(s, k, amount, signed, funds, r);
    AdjustChoices(s, k, amount, signed, funds, r);
    AdjustMoves(s, k, amount, signed, funds, r);
    OpenIsNotCashedOut(s, k);
    assert r.supply == s.supply by { AdjustEffect(s, k, amount, signed, funds, r); }
    AdjustWeights(s, k, amount, r);
  }

  lemma PunchLate(s: Launch, k: Pubkey, r: Launch)
    requires Late(s) && PunchTicket(s, k) == Ok(r)
    ensures Late(r) && LateEffect(s, r)
    ensures Winners(r) == Winners(s) - 1 && r.supply == s.supply + 1 && Losers(r) == Losers(s)
  {
    OpenIsNotCashedOut(s, k);
    var t := s.tickets[k].(state := Punched);
    assert Moved(s, k, t, r);
    MovedKeepsLate(s, k, t, r);
    MovedWeights(s, k, t, r);
  }

  /** The tickets and what is counted of them stay; the money may move, the supply only within the tokens on sale. */
  ghost predicate SameTickets(s: Launch, r: Launch) {
    && r == s.(snapshot := r.snapshot, treasury := r.treasury, supply := r.supply, authorityPaid := r.authorityPaid,
               burnedForRefunds := r.burnedForRefunds)
    && Held(r) == Held(s) && PhasesOk(r)
    && (r.supply <= s.supply || (!HasOpen(s) && r.supply <= s.data.numberOfTokens))
  }

  lemma SameTicketsLate(s: Launch, r: Launch)
    requires Late(s) && SameTickets(s, r)
    ensures Late(r) && LateEffect(s, r)
  {
  }

  lemma WithdrawMoves(s: Launch, r: Launch)
    requires PhasesOk(s) && (Unresolved(s) <==> HasOpen(s)) && s.dropped + s.punched <= s.sold
    requires WithdrawFunds(s) == Ok(r)
    ensures SameTickets(s, r)
  {
  }

  lemma RefundMoves(s: Launch, r: Launch)
    requires PhasesOk(s) && (Unresolved(s) <==> HasOpen(s)) && s.dropped + s.punched <= s.sold
    requires ReceiveRefund(s, s.clock) == Ok(r)
    ensures SameTickets(s, r)
  {
  }

  lemma MintMoves(s: Launch, amount: u64, r: Launch)
    requires PhasesOk(s) && s.phaseThreeStarted && (Unresolved(s) <==> HasOpen(s))
    requires MintTokens(s, amount) == Ok(r)
    ensures SameTickets(s, r)
  {
  }

  /** Cashing out, minting and burning leave the tickets alone, and all but burning wait for the last ticket. */
  lemma MoneyLate(s: Launch, e: Event, r: Launch)
    requires Late(s) && s.clock == e.now
    requires e.ix.Withdraw? || e.ix.Refund? || e.ix.Mint? || e.ix.Burn?
    requires Apply(s, e) == Ok(r)
    ensures Late(r) && LateEffect(s, r)
  {
    assert Unresolved(s) <==> HasOpen(s) by { UnresolvedIsOpen(s); }
    assert s.dropped + s.punched <= s.sold by { OpenCount(s); }
    MoneyMoves(s, e, r);
    SameTicketsLate(s, r);
  }

  lemma MoneyMoves(s: Launch, e: Event, r: Launch)
    requires PhasesOk(s) && s.phaseThreeStarted && s.clock == e.now
    requires (Unresolved(s) <==> HasOpen(s)) && s.dropped + s.punched <= s.sold
    requires e.ix.Withdraw? || e.ix.Refund? || e.ix.Mint? || e.ix.Burn?
    requires Apply(s, e) == Ok(r)
    ensures SameTickets(s, r)
  {
    match e.ix {
      case Withdraw => WithdrawMoves(s, r);
      case Refund => RefundMoves(s, r);
      case Mint(amount) => MintMoves(s, amount, r);
      case Burn(_) =>
    }
  }

  /** Every other instruction is refused, or changes nothing. */
  lemma LateRefuses(s: Launch, e: Event)
    requires Late(s) && s.clock == e.now
    requires e.ix.Update? || e.ix.Purchase? || e.ix.CreateBitmap? || e.ix.PhaseThree? || e.ix.Restart?
    ensures Apply(s, e).Ok? ==> Apply(s, e).value == s
  {
  }

  lemma LateStep(s: Launch, e: Event)
    requires Late(s) && s.clock <= e.now && !e.ix.UpdateBitmap?
    ensures Late(Step(s, e)) && LateEffect(s, Step(s, e))
  {
    ClockKeepsLate(s, e.now);
    var p := s.(clock := e.now);
    var r := Apply(p, e);
    if r.Ok? {
      if e.ix.Sequence? || e.ix.Adjust? || e.ix.Punch? {
        TicketLate(p, e, r.value);
      } else if e.ix.Withdraw? || e.ix.Refund? || e.ix.Mint? || e.ix.Burn? {
        MoneyLate(p, e, r.value);
      } else {
        LateRefuses(p, e);
      }
    }
  }

  lemma TicketLate(s: Launch, e: Event, r: Launch)
    requires Late(s) && s.clock == e.now && (e.ix.Sequence? || e.ix.Adjust? || e.ix.Punch?)
    requires Apply(s, e) == Ok(r)
    ensures Late(r) && LateEffect(s, r)
  {
    match e.ix
    case Sequence(k) => SequenceLate(s, k, r);
    case Adjust(k, amount, signed, funds) => AdjustLate(s, k, amount, signed, funds, r);
    case Punch(k) => PunchLate(s, k, r);
  }
}
