/**
 Runs of phase three: when they can mint more tokens than there are, and when
 they can resolve every ticket so that the money can be cashed out.
 */
module PhaseThreeRuns {
  import opened Prelude
  import opened FairLaunchErrors
  import opened MapSums
  import Bits
  import opened LotteryBitmap
  import opened FairLaunch
  import opened LaunchInvariant
  import opened LaunchSteps
  import opened PhaseThree

  // ---------------------------------------------------------------------------
  // Runs without a rewrite of the bitmap

  ghost predicate Quiet(s: Launch, events: seq<Event>) {
    events != [] ==>
      && Quiet(s, events[..|events| - 1])
      && Run(s, events[..|events| - 1]).clock <= events[|events| - 1].now
      && !events[|events| - 1].ix.UpdateBitmap?
  }

  /** Instructions that anybody may send: the crank, an adjustment without the buyer's signature or money, a punch. */
  predicate Permissionless(i: Instruction) {
    i.Sequence? || (i.Adjust? && !i.buyerSigned && i.funds == 0) || i.Punch?
  }

  ghost predicate AllPermissionless(events: seq<Event>) {
    forall i :: 0 <= i < |events| ==> Permissionless(events[i].ix)
  }

  /** A permissionless run from start to s. */
  ghost predicate Leads(start: Launch, events: seq<Event>, s: Launch) {
    Quiet(start, events) && AllPermissionless(events) && Run(start, events) == s
  }

  lemma Extend(start: Launch, events: seq<Event>, s: Launch, ix: Instruction, r: Launch, more: seq<Event>)
    requires Leads(start, events, s) && Permissionless(ix)
    requires Apply(s, Event(s.clock, ix)) == Ok(r) && more == events + [Event(s.clock, ix)]
    ensures Leads(start, more, r)
  {
    assert more[..|more| - 1] == events;
    assert s.(clock := s.clock) == s;
  }

  lemma {:induction false} QuietKeepsLate(s: Launch, events: seq<Event>)
    requires Late(s) && Quiet(s, events)
    ensures Late(Run(s, events)) && Run(s, events).data == s.data
    ensures Run(s, events).eligible - Losers(Run(s, events)) == s.eligible - Losers(s)
    ensures s.supply + Winners(s) <= s.data.numberOfTokens ==>
            Run(s, events).supply + Winners(Run(s, events)) <= s.data.numberOfTokens
  {
    if events != [] {
      var init := events[..|events| - 1];
      QuietKeepsLate(s, init);
      var before := Run(s, init);
      LateStep(before, events[|events| - 1]);
      if !HasOpen(before) {
        NothingOpens(before, events[|events| - 1]);
      }
    }
  }

  /** Once no ticket is open there are no claims left. */
  lemma NothingOpens(s: Launch, e: Event)
    requires Late(s) && s.clock <= e.now && !e.ix.UpdateBitmap? && !HasOpen(s)
    ensures Late(Step(s, e)) && Winners(Step(s, e)) == 0
  {
    LateStep(s, e);
    WeightsAreOpen(s);
  }

  // ---------------------------------------------------------------------------
  // What anybody can do with one open ticket

  predicate HasWon(s: Launch, t: Ticket)
    requires s.lottery.Some?
  {
    t.amount >= s.median && IsWinner(s.lottery.value.bytes, t.number) == Some(true)
  }

  lemma CanSequence(s: Launch, k: Pubkey)
    requires Late(s) && k in s.tickets && s.tickets[k].state == NoSequenceStruct
    ensures CreateTicketSeq(s, k).Ok?
  {
    SumByEntry(s.tickets, InState(NoSequenceStruct), k);
  }

  lemma TreasuryCovers(s: Launch, k: Pubkey)
    requires Late(s) && k in s.tickets && IsOpen(s.tickets[k])
    ensures s.treasury >= s.tickets[k].amount
  {
    OpenIsNotCashedOut(s, k);
    SumByEntry(s.tickets, Paid(s.data.fee), k);
  }

  /** A bid below the median can always leave; a loser's not below it only while an eligible holder is left. */
  lemma CanLeaveIff(s: Launch, k: Pubkey)
    requires Late(s) && k in s.tickets && s.tickets[k].state == Unpunched && !HasWon(s, s.tickets[k])
    ensures AdjustTicket(s, k, 0, false, 0, s.clock).Ok? <==> s.tickets[k].amount < s.median || s.eligible > 0
  {
    OpenIsNotCashedOut(s, k);
    TreasuryCovers(s, k);
    NumberHasBit(s, k);
  }

  lemma NumberHasBit(s: Launch, k: Pubkey)
    requires Late(s) && k in s.tickets
    ensures IsWinner(s.lottery.value.bytes, s.tickets[k].number).Some?
  {
    assert s.tickets[k].number < s.sold;
  }

  lemma CanEqualize(s: Launch, k: Pubkey)
    requires Late(s) && k in s.tickets && s.tickets[k].state == Unpunched && HasWon(s, s.tickets[k])
    ensures AdjustTicket(s, k, s.median, false, 0, s.clock).Ok?
  {
    OpenIsNotCashedOut(s, k);
    TreasuryCovers(s, k);
  }

  lemma CanPunch(s: Launch, k: Pubkey)
    requires Late(s) && k in s.tickets && s.tickets[k].state == Unpunched && HasWon(s, s.tickets[k])
    requires s.tickets[k].amount == s.median && s.supply < U64_MAX
    ensures PunchTicket(s, k).Ok?
  {
    OpenIsNotCashedOut(s, k);
  }

  function OpenLeft(s: Launch): int {
    s.sold - s.dropped - s.punched
  }

  lemma OpenLeftIsNat(s: Launch)
    requires Late(s)
    ensures OpenLeft(s) >= 0
  {
    OpenCount(s);
  }

  /** Nothing but one open ticket and the treasury has moved. */
  ghost predicate SameClaims(s: Launch, r: Launch)
    requires s.lottery.Some?
  {
    && r.data == s.data && r.lottery == s.lottery && r.median == s.median
    && r.supply == s.supply && r.eligible == s.eligible && OpenLeft(r) == OpenLeft(s)
    && Winners(r) == Winners(s) && Losers(r) == Losers(s)
  }

  lemma CrankStep(s: Launch, k: Pubkey, r: Launch)
    requires Late(s) && CreateTicketSeq(s, k) == Ok(r)
    ensures Late(r) && SameClaims(s, r)
    ensures k in r.tickets && r.tickets[k] == s.tickets[k].(state := Unpunched)
  {
    SequenceLate(s, k, r);
    CrankMoves(s, k, r);
  }

  lemma CrankMoves(s: Launch, k: Pubkey, r: Launch)
    requires CreateTicketSeq(s, k) == Ok(r)
    ensures k in s.tickets && r.unSeqed == s.unSeqed - 1
    ensures r == s.(tickets := s.tickets[k := s.tickets[k].(state := Unpunched)], unSeqed := r.unSeqed)
  {
  }

  /** The crank runs for a ticket that it has not reached. */
  lemma Crank(start: Launch, events: seq<Event>, s: Launch, k: Pubkey) returns (more: seq<Event>, r: Launch)
    requires Leads(start, events, s) && Late(s) && k in s.tickets && IsOpen(s.tickets[k])
    ensures Leads(start, more, r) && Late(r) && SameClaims(s, r)
    ensures k in r.tickets && r.tickets[k] == s.tickets[k].(state := Unpunched)
  {
    more, r := events, s;
    if s.tickets[k].state == NoSequenceStruct {
      CanSequence(s, k);
      r := CreateTicketSeq(s, k).value;
      more := events + [Event(s.clock, Sequence(k))];
      CrankStep(s, k, r);
      Extend(start, events, s, Sequence(k), r, more);
    }
  }

  lemma EqualizeStep(s: Launch, k: Pubkey, r: Launch)
    requires Late(s) && k in s.tickets && HasWon(s, s.tickets[k])
    requires AdjustTicket(s, k, s.median, false, 0, s.clock) == Ok(r)
    ensures Late(r) && SameClaims(s, r)
    ensures k in r.tickets && r.tickets[k] == s.tickets[k].(amount := s.median)
  {
    AdjustKeepsLate(s, k, s.median, false, 0, r);
    AdjustChoices(s, k, s.median, false, 0, r);
    AdjustMoves(s, k, s.median, false, 0, r);
    OpenIsNotCashedOut(s, k);
    assert r.supply == s.supply by { AdjustEffect(s, k, s.median, false, 0, r); }
    MovedWeights(s, k, Adjusted(s.tickets[k], s.median), r);
  }

  /** A winner comes down to the median. */
  lemma Equalize(start: Launch, events: seq<Event>, s: Launch, k: Pubkey) returns (more: seq<Event>, r: Launch)
    requires Leads(start, events, s) && Late(s) && k in s.tickets && s.tickets[k].state == Unpunched
    requires HasWon(s, s.tickets[k])
    ensures Leads(start, more, r) && Late(r) && SameClaims(s, r)
    ensures k in r.tickets && r.tickets[k] == s.tickets[k].(amount := s.median)
  {
    CanEqualize(s, k);
    r := AdjustTicket(s, k, s.median, false, 0, s.clock).value;
    more := events + [Event(s.clock, Adjust(k, s.median, false, 0))];
    EqualizeStep(s, k, r);
    Extend(start, events, s, Adjust(k, s.median, false, 0), r, more);
  }

  /** One winner fewer, one token more. */
  ghost predicate TokenTaken(s: Launch, r: Launch)
    requires s.lottery.Some?
  {
    && r.data == s.data && r.lottery == s.lottery
    && Winners(r) == Winners(s) - 1 && r.supply == s.supply + 1
    && Losers(r) == Losers(s) && r.eligible == s.eligible && OpenLeft(r) == OpenLeft(s) - 1
  }

  lemma PunchStep(s: Launch, k: Pubkey, r: Launch)
    requires Late(s) && PunchTicket(s, k) == Ok(r)
    ensures Late(r) && TokenTaken(s, r)
  {
    PunchLate(s, k, r);
  }

  lemma TakeToken(start: Launch, events: seq<Event>, s: Launch, k: Pubkey) returns (more: seq<Event>, r: Launch)
    requires Leads(start, events, s) && Late(s) && k in s.tickets && s.tickets[k].state == Unpunched
    requires HasWon(s, s.tickets[k]) && s.tickets[k].amount == s.median && s.supply < U64_MAX
    ensures Leads(start, more, r) && Late(r) && TokenTaken(s, r)
  {
    more := events + [Event(s.clock, Punch(k))];
    assert PunchTicket(s, k).Ok? by { CanPunch(s, k); }
    r := PunchTicket(s, k).value;
    PunchLeads(start, events, s, k, r, more);
    PunchStep(s, k, r);
  }

  lemma PunchLeads(start: Launch, events: seq<Event>, s: Launch, k: Pubkey, r: Launch, more: seq<Event>)
    requires Leads(start, events, s) && PunchTicket(s, k) == Ok(r) && more == events + [Event(s.clock, Punch(k))]
    ensures Leads(start, more, r)
  {
    Extend(start, events, s, Punch(k), r, more);
  }

  /** A winner's ticket is turned into a token. */
  lemma ResolveWinner(start: Launch, events: seq<Event>, s: Launch, k: Pubkey) returns (more: seq<Event>, r: Launch)
    requires Leads(start, events, s) && Late(s) && k in s.tickets && IsOpen(s.tickets[k]) && HasWon(s, s.tickets[k])
    requires s.supply < U64_MAX
    ensures Leads(start, more, r) && Late(r) && TokenTaken(s, r)
  {
    var seqed, p := Crank(start, events, s, k);
    var level, q := Equalize(start, seqed, p, k);
    more, r := TakeToken(start, level, q, k);
  }

  /** One open ticket fewer, and no token more; a loser's costs one eligible holder. */
  ghost predicate TicketLeft(s: Launch, r: Launch)
    requires s.lottery.Some?
  {
    && r.data == s.data && r.lottery == s.lottery && r.supply == s.supply
    && Winners(r) == Winners(s) && OpenLeft(r) == OpenLeft(s) - 1
    && r.eligible - Losers(r) == s.eligible - Losers(s)
  }

  lemma LeavingStep(s: Launch, k: Pubkey, r: Launch)
    requires Late(s) && k in s.tickets && !HasWon(s, s.tickets[k]) && AdjustTicket(s, k, 0, false, 0, s.clock) == Ok(r)
    ensures Late(r) && TicketLeft(s, r)
  {
    AdjustLate(s, k, 0, false, 0, r);
    AdjustMoves(s, k, 0, false, 0, r);
    assert r.supply == s.supply by { AdjustEffect(s, k, 0, false, 0, r); }
    MovedWeights(s, k, Adjusted(s.tickets[k], 0), r);
  }

  lemma Leave(start: Launch, events: seq<Event>, s: Launch, k: Pubkey) returns (more: seq<Event>, r: Launch)
    requires Leads(start, events, s) && Late(s) && k in s.tickets && s.tickets[k].state == Unpunched
    requires !HasWon(s, s.tickets[k]) && (s.tickets[k].amount < s.median || s.eligible > 0)
    ensures Leads(start, more, r) && Late(r) && TicketLeft(s, r)
  {
    CanLeaveIff(s, k);
    r := AdjustTicket(s, k, 0, false, 0, s.clock).value;
    more := events + [Event(s.clock, Adjust(k, 0, false, 0))];
    LeavingStep(s, k, r);
    Extend(start, events, s, Adjust(k, 0, false, 0), r, more);
  }

  /** Another's ticket leaves. */
  lemma ResolveOther(start: Launch, events: seq<Event>, s: Launch, k: Pubkey) returns (more: seq<Event>, r: Launch)
    requires Leads(start, events, s) && Late(s) && k in s.tickets && IsOpen(s.tickets[k]) && !HasWon(s, s.tickets[k])
    requires s.tickets[k].amount < s.median || s.eligible > 0
    ensures Leads(start, more, r) && Late(r) && TicketLeft(s, r)
  {
    var seqed, p := Crank(start, events, s, k);
    more, r := Leave(start, seqed, p, k);
  }

  // ---------------------------------------------------------------------------
  // Minting too many tokens

  lemma SomeWinner(s: Launch) returns (k: Pubkey)
    requires Late(s) && Winners(s) > 0
    ensures k in s.tickets && IsOpen(s.tickets[k]) && HasWon(s, s.tickets[k])
  {
    SumByZero(s.tickets, Winning(s.median, s.lottery.value.bytes));
    k :| k in s.tickets && Winning(s.median, s.lottery.value.bytes)(s.tickets[k]) != 0;
  }

  /** Winners keep punching until the tokens are exceeded. */
  lemma {:induction false} Oversell(start: Launch, events: seq<Event>, s: Launch) returns (more: seq<Event>, r: Launch)
    requires Leads(start, events, s) && Late(s)
    requires s.supply + Winners(s) > s.data.numberOfTokens && s.data.numberOfTokens < U64_MAX
    ensures Leads(start, more, r) && r.supply > s.data.numberOfTokens
    decreases Winners(s)
  {
    more, r := events, s;
    if s.supply <= s.data.numberOfTokens {
      var k := SomeWinner(s);
      more, r := ResolveWinner(start, events, s, k);
      more, r := Oversell(start, more, r);
    }
  }

  /** Some continuation mints more tokens than there are. */
  ghost predicate CanOversell(s: Launch) {
    exists events :: Oversells(s, events)
  }

  ghost predicate Oversells(s: Launch, events: seq<Event>) {
    Quiet(s, events) && Run(s, events).supply > s.data.numberOfTokens
  }

  /**
   From any state of phase three, whatever the bitmap: a continuation that
   leaves the bitmap alone can mint too many tokens exactly when the open
   tickets at the median or above with a set bit outnumber the tokens left.
   */
  lemma CanOversellIff(s: Launch)
    requires Late(s) && s.supply <= s.data.numberOfTokens
    ensures CanOversell(s) <==> Winners(s) > s.data.numberOfTokens - s.supply && s.data.numberOfTokens < U64_MAX
  {
    if Winners(s) > s.data.numberOfTokens - s.supply && s.data.numberOfTokens < U64_MAX {
      var events, r := Oversell(s, [], s);
      assert Oversells(s, events);
    }
    forall events | Oversells(s, events)
      ensures Winners(s) > s.data.numberOfTokens - s.supply
    {
      QuietKeepsLate(s, events);
    }
  }

  // ---------------------------------------------------------------------------
  // Resolving every ticket

  lemma SomeOpen(s: Launch) returns (k: Pubkey)
    requires Late(s) && HasOpen(s)
    ensures k in s.tickets && IsOpen(s.tickets[k])
  {
    OpenCount(s);
    SumByZero(s.tickets, Opened());
    k :| k in s.tickets && Opened()(s.tickets[k]) != 0;
  }

  lemma LoserCounts(s: Launch, k: Pubkey)
    requires Late(s) && k in s.tickets && IsOpen(s.tickets[k]) && s.tickets[k].amount >= s.median
    ensures if HasWon(s, s.tickets[k]) then Winners(s) > 0 else Losers(s) > 0
  {
    SumByEntry(s.tickets, Winning(s.median, s.lottery.value.bytes), k);
    SumByEntry(s.tickets, Losing(s.median, s.lottery.value.bytes), k);
  }

  lemma {:induction false} Resolve(start: Launch, events: seq<Event>, s: Launch) returns (more: seq<Event>, r: Launch)
    requires Leads(start, events, s) && Late(s)
    requires s.eligible >= Losers(s) && s.supply + Winners(s) <= U64_MAX
    ensures Leads(start, more, r) && Late(r) && !HasOpen(r)
    decreases OpenLeft(s)
  {
    more, r := events, s;
    OpenLeftIsNat(s);
    if HasOpen(s) {
      var k := SomeOpen(s);
      if s.tickets[k].amount >= s.median {
        LoserCounts(s, k);
      }
      if HasWon(s, s.tickets[k]) {
        more, r := ResolveWinner(start, events, s, k);
      } else {
        more, r := ResolveOther(start, events, s, k);
      }
      OpenLeftIsNat(r);
      more, r := Resolve(start, more, r);
    }
  }

  /** The open winners are among the tokens that the supply bound sets aside. */
  lemma WinnersWithinSupply(s: Launch)
    requires Inv(s) && Late(s)
    ensures s.supply + Winners(s) <= s.data.numberOfTokens
  {
    if HasOpen(s) {
      WinnersWithinOnes(s);
    } else {
      WeightsAreOpen(s);
    }
  }

  /** Tickets that have a token or can still claim one. */
  function Claiming(median: nat, bytes: seq<byte>): Ticket -> nat {
    (t: Ticket) =>
      if t.state == Punched then 1
      else if IsOpen(t) && t.amount >= median && IsWinner(bytes, t.number) == Some(true) then 1
      else 0
  }

  lemma BitIsCounted(bytes: seq<byte>, number: nat)
    requires number < 8 * |bytes| && IsWinner(bytes, number) == Some(true)
    ensures number in Bits.SetBits(bytes, 8 * |bytes|)
  {
    IsWinnerIsBit(bytes, number);
  }

  lemma ClaimsWithinBits(tickets: map<Pubkey, Ticket>, median: nat, bytes: seq<byte>)
    requires forall k :: k in tickets ==> tickets[k].number < 8 * |bytes|
    requires forall j, k :: j in tickets && k in tickets && tickets[j].number == tickets[k].number ==> j == k
    requires forall k :: k in tickets && tickets[k].state == Punched ==>
               IsWinner(bytes, tickets[k].number) == Some(true)
    ensures SumBy(tickets, Claiming(median, bytes)) <= |Bits.SetBits(bytes, 8 * |bytes|)|
  {
    forall k | k in tickets && Claiming(median, bytes)(tickets[k]) == 1
      ensures Number()(tickets[k]) in Bits.SetBits(bytes, 8 * |bytes|)
    {
      BitIsCounted(bytes, tickets[k].number);
    }
    SumByInjection(tickets, Claiming(median, bytes), Number(), Bits.SetBits(bytes, 8 * |bytes|));
  }

  lemma WinnersWithinOnes(s: Launch)
    requires Inv(s) && s.lottery.Some?
    ensures s.punched + Winners(s) <= s.lottery.value.ones
  {
    var bytes := s.lottery.value.bytes;
    SumByAdd(s.tickets, Winning(s.median, bytes), InState(Punched), Claiming(s.median, bytes));
    ClaimsWithinBits(s.tickets, s.median, bytes);
    Bits.PopCountIsSetBits(bytes);
  }

  /** Some permissionless continuation leaves no ticket open. */
  ghost predicate CanResolve(s: Launch) {
    exists events :: Resolves(s, events)
  }

  ghost predicate Resolves(s: Launch, events: seq<Event>) {
    Quiet(s, events) && AllPermissionless(events) && !Unresolved(Run(s, events))
  }

  /** And even with everybody's help, short of another bitmap, none does otherwise. */
  lemma LockedStaysLocked(s: Launch, events: seq<Event>)
    requires Late(s) && Quiet(s, events) && s.eligible < Losers(s)
    ensures Unresolved(Run(s, events))
  {
    QuietKeepsLate(s, events);
    WeightsAreOpen(Run(s, events));
    UnresolvedIsOpen(Run(s, events));
  }

  /**
   From a reachable state of phase three all tickets can be resolved, by
   instructions that anybody may send, exactly when the stored number of
   eligible holders covers the open tickets at the median or above that lost.
   */
  lemma CanResolveIff(s: Launch)
    requires Inv(s) && Late(s)
    ensures CanResolve(s) <==> s.eligible >= Losers(s)
  {
    if s.eligible >= Losers(s) {
      WinnersWithinSupply(s);
      var events, r := Resolve(s, [], s);
      UnresolvedIsOpen(r);
      assert Resolves(s, events);
    }
    forall events | Resolves(s, events)
      ensures s.eligible >= Losers(s)
    {
      if s.eligible < Losers(s) {
        LockedStaysLocked(s, events);
      }
    }
  }
}
