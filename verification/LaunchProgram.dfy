/**
 The fair launch program itself: instruction handlers that update the accounts
 in place, in the order in which the program does
 (rust/fair-launch/src/lib.rs, rust/fair-launch/src/utils.rs), and the runtime
 that undoes a failed one.  Each handler is proved against its step in module
 FairLaunch.
 */
module LaunchProgram {
  import opened Prelude
  import opened FairLaunchErrors
  import opened Division
  import opened Histogram
  import opened Bits
  import opened LotteryBitmap
  import opened FairLaunch
  import Spec = FairLaunch

  /** The loop of initialize_fair_launch and update_fair_launch. */
  method EmptyTicks(data: LaunchData) returns (r: Result<seq<u64>, Error>)
    requires AssertDataValid(data).Pass?
    ensures r == EmptyBins(data)
  {
    var counts: seq<u64> := [];
    var start := data.priceRangeStart;
    ghost var k := (data.priceRangeEnd - data.priceRangeStart) / data.tickSize;
    TicksIsProduct(data.tickSize, k);
    assert data.priceRangeEnd == data.priceRangeStart + Ticks(data.tickSize, k);
    while start <= data.priceRangeEnd
      invariant |counts| <= k + 1
      invariant counts == seq(|counts|, _ => 0)
      invariant start == data.priceRangeStart + Ticks(data.tickSize, |counts|)
      invariant |counts| > k ==> data.priceRangeEnd + data.tickSize <= U64_MAX
      decreases data.priceRangeEnd - start
    {
      counts := counts + [0];
      if start + data.tickSize > U64_MAX {
        return Err(NumericalOverflowError);
      }
      start := start + data.tickSize;
    }
    if |counts| <= k {
      TicksMonotone(data.tickSize, |counts|, k);
    }
    r := Ok(counts);
  }

  /** A handler reaches the state of its step, or reports its step's error and leaves the accounts as they were. */
  ghost predicate Refines(step: Result<Launch, Error>, r: Result<(), Error>, before: Launch, after: Launch) {
    if step.Ok? then r == Ok(()) && after == step.value else r == Err(step.error) && after == before
  }

  /** adjust_counts: take the old bid out of its bin, put the new one in, recount. */
  method RecountBids(data: LaunchData, counts: seq<u64>, newAmount: u64, oldAmount: Option<u64>)
    returns (r: Result<Book, Error>)
    ensures r == Spec.AdjustCounts(data, counts, newAmount, oldAmount)
  {
    if data.tickSize == 0 {
      return Err(NumericalOverflowError);
    }
    var bins := counts;
    if oldAmount.Some? {
      var removed := RemoveBid(data, bins, oldAmount.value);
      if removed.Err? {
        return Err(removed.error);
      }
      bins := removed.value;
    }
    var inserted := InsertBid(data, bins, newAmount);
    if inserted.Err? {
      return Err(inserted.error);
    }
    bins := inserted.value;
    var tally := Measure(bins, data.priceRangeStart, data.tickSize);
    if tally.None? {
      return Err(NumericalOverflowError);
    }
    r := Ok(Book(bins, tally.value.median, tally.value.eligible));
  }

  class LaunchAccounts {
    var data: LaunchData
    var unSeqed: u64
    var sold: u64
    var dropped: u64
    var punched: u64
    var burnedForRefunds: u64
    var preminted: u64
    var phaseThreeStarted: bool
    var snapshot: Option<u64>
    var eligible: u64
    var median: u64
    var counts: seq<u64>
    var tickets: map<Pubkey, Ticket>
    var lottery: LotteryAccount?
    var supply: u64
    var treasury: u64
    var authorityPaid: nat
    var clock: i64

    /** Every account but the bitmap. */
    function Fields(): Launch
      reads this
    {
      Launch(data, unSeqed, sold, dropped, punched, burnedForRefunds, preminted, phaseThreeStarted, snapshot,
             eligible, median, counts, tickets, None, supply, treasury, authorityPaid, clock)
    }

    ghost function View(): Launch
      reads this, lottery, if lottery == null then {} else {lottery.bytes}
    {
      Fields().(lottery := if lottery == null then None else Some(lottery.View()))
    }

    constructor (data: LaunchData, counts: seq<u64>, now: i64)
      ensures View() == Launch(data, 0, 0, 0, 0, 0, 0, false, None, 0, 0, counts, map[], None, 0, 0, 0, now)
    {
      this.data, this.counts, this.clock := data, counts, now;
      unSeqed, sold, dropped, punched, burnedForRefunds, preminted := 0, 0, 0, 0, 0, 0;
      phaseThreeStarted, snapshot := false, None;
      eligible, median, tickets, lottery := 0, 0, map[], null;
      supply, treasury, authorityPaid := 0, 0, 0;
    }

    static method Initialize(data: LaunchData, now: i64) returns (r: Result<LaunchAccounts, Error>)
      ensures match InitializeFairLaunch(data, now)
              case Ok(s) => r.Ok? && fresh(r.value) && r.value.View() == s
              case Err(e) => r == Err(e)
    {
      var valid := AssertDataValid(data);
      if valid.Fail? {
        return Err(valid.error);
      }
      var counts := EmptyTicks(data);
      if counts.Err? {
        return Err(counts.error);
      }
      var accounts := new LaunchAccounts(data, counts.value, now);
      r := Ok(accounts);
    }

    // -------------------------------------------------------------------------
    // Instruction handlers

    method UpdateFairLaunch(newData: LaunchData) returns (r: Result<(), Error>)
      modifies this`data, this`counts
      ensures Refines(Spec.UpdateFairLaunch(old(View()), newData, clock), r, old(View()), View())
    {
      if clock > data.phaseOneStart {
        return Err(CannotUpdateFairLaunchDataOnceInProgress);
      }
      var valid := AssertDataValid(newData);
      if valid.Fail? {
        return Err(valid.error);
      }
      var ticks := EmptyTicks(newData);
      if ticks.Err? {
        return Err(ticks.error);
      }
      data := newData;
      counts := ticks.value;
      r := Ok(());
    }

    /** Write back the recounted book and the treasury balance. */
    method Save(book: Book, balance: u64)
      modifies this`counts, this`median, this`eligible, this`treasury
      ensures View() == old(View()).(counts := book.counts, median := book.median, eligible := book.eligible,
                                     treasury := balance)
    {
      counts, median, eligible := book.counts, book.median, book.eligible;
      treasury := balance;
    }

    /** The ticket account and its counters. */
    method Enter(buyer: Pubkey, ticket: Ticket)
      requires sold < U64_MAX && unSeqed < U64_MAX
      modifies this`tickets, this`sold, this`unSeqed
      ensures View() == old(View()).(tickets := old(tickets)[buyer := ticket], sold := old(sold) + 1,
                                     unSeqed := old(unSeqed) + 1)
    {
      tickets := tickets[buyer := ticket];
      sold, unSeqed := sold + 1, unSeqed + 1;
    }

    method PurchaseTicket(buyer: Pubkey, amount: u64, funds: u64) returns (r: Result<(), Error>)
      modifies this`tickets, this`sold, this`unSeqed, this`counts, this`median, this`eligible, this`treasury
      ensures Refines(Spec.PurchaseTicket(old(View()), buyer, amount, funds, clock), r, old(View()), View())
    {
      var allowed := PurchaseAllowed(data, median, sold, unSeqed, buyer in tickets, amount, clock);
      if allowed.Fail? {
        return Err(allowed.error);
      }
      var book := RecountBids(data, counts, amount, None);
      if book.Err? {
        return Err(book.error);
      }
      var charged := Charge(treasury, amount, data.fee, funds);
      if charged.Err? {
        return Err(charged.error);
      }
      Enter(buyer, Ticket(amount, NoSequenceStruct, sold));
      Save(book.value, charged.value);
      r := Ok(());
    }

    method CreateTicketSeq(buyer: Pubkey) returns (r: Result<(), Error>)
      modifies this`tickets, this`unSeqed
      ensures Refines(Spec.CreateTicketSeq(old(View()), buyer), r, old(View()), View())
    {
      if buyer !in tickets {
        return Err(AccountMissing);
      }
      if tickets[buyer].state != NoSequenceStruct {
        return Err(SeqAlreadyExists);
      }
      if unSeqed == 0 {
        return Err(NumericalOverflowError);
      }
      tickets := tickets[buyer := tickets[buyer].(state := Unpunched)];
      unSeqed := unSeqed - 1;
      r := Ok(());
    }

    /** The ticket's bit; None when the account is empty or too short. */
    method LotteryBit(number: u64) returns (winner: Option<bool>)
      ensures winner == if View().lottery.Some? then IsWinner(View().lottery.value.bytes, number) else None
    {
      if lottery == null {
        return None;
      }
      var (index, fromRight) := PositionForSeq(number);
      if index >= lottery.bytes.Length {
        return None;
      }
      winner := Some(Bits.Masked(lottery.bytes[index], fromRight) > 0);
    }

    /** The checks of adjust_ticket that decide whether this adjustment may be made now. */
    method CheckAdjustment(t: Ticket, amount: u64, buyerSigned: bool) returns (r: Guard<Error>)
      ensures r == AdjustmentAllowed(View(), t, amount, buyerSigned, clock)
    {
      if phaseThreeStarted {
        if t.amount < median && amount != 0 {
          return Fail(CanOnlySubmitZeroDuringPhaseThree);
        } else if t.amount >= median {
          var winner := LotteryBit(t.number);
          if winner.None? {
            return Fail(Aborted);
          }
          if winner.value {
            if amount != median {
              return Fail(CanOnlySubmitDifferenceDuringPhaseThree);
            }
          } else if amount != 0 {
            return Fail(DidNotWinLotteryCanOnlyWithdraw);
          }
        }
      } else if !buyerSigned {
        return Fail(DuringPhaseTwoAndOneBuyerMustBeSigner);
      } else if clock > data.phaseTwoEnd {
        return Fail(PhaseTwoEnded);
      }
      r := Pass;
    }

    /** The counting part of adjust_ticket. */
    method Recount(amount: u64, oldAmount: u64) returns (r: Result<Book, Error>)
      ensures r == if clock <= data.phaseOneEnd then Spec.AdjustCounts(data, counts, amount, Some(oldAmount))
                   else FrozenCounts(View(), amount, oldAmount)
    {
      if clock <= data.phaseOneEnd {
        r := RecountBids(data, counts, amount, Some(oldAmount));
        return;
      }
      var holders := eligible;
      if amount >= median && oldAmount < median {
        if holders == U64_MAX {
          return Err(NumericalOverflowError);
        }
        holders := holders + 1;
      } else if amount < median && oldAmount >= median {
        if holders == 0 {
          return Err(NumericalOverflowError);
        }
        holders := holders - 1;
      }
      r := Ok(Book(counts, median, holders));
    }

    /** The ticket account, and the counter if the ticket leaves. */
    method Move(buyer: Pubkey, ticket: Ticket)
      requires ticket.amount == 0 ==> dropped < U64_MAX
      modifies this`tickets, this`dropped
      ensures View() == old(View()).(tickets := old(tickets)[buyer := ticket],
                                     dropped := if ticket.amount == 0 then old(dropped) + 1 else old(dropped))
    {
      tickets := tickets[buyer := ticket];
      dropped := if ticket.amount == 0 then dropped + 1 else dropped;
    }

    method AdjustTicket(buyer: Pubkey, amount: u64, buyerSigned: bool, funds: u64) returns (r: Result<(), Error>)
      modifies this`tickets, this`dropped, this`counts, this`median, this`eligible, this`treasury
      ensures Refines(Spec.AdjustTicket(old(View()), buyer, amount, buyerSigned, funds, clock), r, old(View()), View())
    {
      if buyer !in tickets {
        return Err(AccountMissing);
      }
      var t := tickets[buyer];
      if t.state != Unpunched {
        return Err(InvalidFairLaunchTicketState);
      }
      var allowed := CheckAdjustment(t, amount, buyerSigned);
      if allowed.Fail? {
        return Err(allowed.error);
      }
      var valid := AmountAllowed(data, median, dropped, amount);
      if valid.Fail? {
        return Err(valid.error);
      }
      var book := Recount(amount, t.amount);
      if book.Err? {
        return Err(book.error);
      }
      var settled := Settle(treasury, amount, t.amount, funds);
      if settled.Err? {
        return Err(settled.error);
      }
      Move(buyer, t.(amount := amount, state := if amount == 0 then Withdrawn else t.state));
      Save(book.value, settled.value);
      r := Ok(());
    }

    method PunchTicket(buyer: Pubkey) returns (r: Result<(), Error>)
      modifies this`tickets, this`punched, this`supply
      ensures Refines(Spec.PunchTicket(old(View()), buyer), r, old(View()), View())
    {
      if buyer !in tickets || lottery == null {
        return Err(AccountMissing);
      }
      var t := tickets[buyer];
      if t.state != Unpunched {
        return Err(InvalidFairLaunchTicketState);
      }
      if !phaseThreeStarted {
        return Err(CannotPunchTicketUntilPhaseThree);
      }
      if t.amount != median {
        return Err(CannotPunchTicketUntilEqualized);
      }
      var winner := LotteryBit(t.number);
      if winner.None? {
        return Err(Aborted);
      }
      if !winner.value {
        return Err(DidNotWinLotteryCanOnlyWithdraw);
      }
      if punched == U64_MAX {
        return Err(NumericalOverflowError);
      }
      if supply == U64_MAX {
        return Err(TokenMintToFailed);
      }
      punched := punched + 1;
      tickets := tickets[buyer := t.(state := Punched)];
      supply := supply + 1;
      r := Ok(());
    }

    method CreateLotteryBitmap() returns (r: Result<(), Error>)
      modifies this`lottery
      ensures Refines(Spec.CreateLotteryBitmap(old(View()), clock), r, old(View()), View())
      ensures r.Ok? ==> lottery != null && fresh(lottery) && fresh(lottery.bytes)
    {
      if lottery != null {
        return Err(AccountAlreadyInUse);
      }
      if clock < data.phaseTwoEnd {
        return Err(CannotCreateFairLaunchLotteryBitmapBeforePhaseTwoEnd);
      }
      lottery := new LotteryAccount(sold);
      r := Ok(());
    }

    method UpdateLotteryBitmap(index: u32, strip: seq<byte>) returns (r: Result<(), Error>)
      modifies if lottery == null then {} else {lottery, lottery.bytes}
      ensures Refines(Spec.UpdateLotteryBitmap(old(View()), index, strip), r, old(View()), View())
    {
      if lottery == null {
        return Err(AccountMissing);
      }
      if unSeqed > 0 {
        return Err(CannotSetFairLaunchLotteryUntilAllTicketsAreSequenced);
      }
      r := lottery.Write(index, strip);
    }

    method StartPhaseThree() returns (r: Result<(), Error>)
      modifies this`phaseThreeStarted
      ensures Refines(Spec.StartPhaseThree(old(View())), r, old(View()), View())
    {
      if lottery == null {
        return Err(AccountMissing);
      }
      if supply > data.numberOfTokens {
        return Err(NumericalOverflowError);
      }
      if lottery.ones != Min(data.numberOfTokens - supply, eligible) {
        return Err(LotteryBitmapOnesMustEqualNumberOfTicketsSold);
      }
      phaseThreeStarted := true;
      r := Ok(());
    }

    method RestartPhaseTwo() returns (r: Result<(), Error>)
      modifies this`data
      ensures Refines(Spec.RestartPhaseTwo(old(View()), clock), r, old(View()), View())
    {
      if phaseThreeStarted {
        return Err(PhaseThreeAlreadyStarted);
      }
      if clock < data.phaseTwoEnd {
        return Err(PhaseTwoHasntEndedYet);
      }
      if data.phaseTwoEnd + data.lotteryDuration > I64_MAX {
        return Err(NumericalOverflowError);
      }
      if clock < data.phaseTwoEnd + data.lotteryDuration {
        return Err(LotteryDurationHasntEndedYet);
      }
      data := data.(phaseTwoEnd := WrapI64(clock + data.lotteryDuration));
      r := Ok(());
    }

    /** Take money out of the treasury, remembering what it held when the first cash-out came. */
    method PayOut(taken: u64, amount: u64)
      requires treasury >= amount
      modifies this`snapshot, this`treasury
      ensures View() == old(View()).(snapshot := Some(taken), treasury := old(treasury) - amount)
    {
      snapshot := Some(taken);
      treasury := treasury - amount;
    }

    method WithdrawFunds() returns (r: Result<(), Error>)
      modifies this`snapshot, this`treasury, this`authorityPaid
      ensures Refines(Spec.WithdrawFunds(old(View())), r, old(View()), View())
    {
      if sold > (dropped + punched) % (U64_MAX + 1) {
        return Err(CannotCashOutUntilAllRefundsAndPunchesHaveBeenProcessed);
      }
      if !phaseThreeStarted {
        return Err(CannotCashOutUntilPhaseThree);
      }
      var taken := if snapshot.None? then treasury else snapshot.value;
      var amount := WithdrawAmount(data, supply, taken, treasury);
      if amount.Err? {
        return Err(amount.error);
      }
      if treasury < amount.value {
        return Err(TransferFailed);
      }
      PayOut(taken, amount.value);
      authorityPaid := authorityPaid + amount.value;
      r := Ok(());
    }

    method ReceiveRefund() returns (r: Result<(), Error>)
      modifies this`burnedForRefunds, this`supply, this`snapshot, this`treasury
      ensures Refines(Spec.ReceiveRefund(old(View()), clock), r, old(View()), View())
    {
      if sold > (dropped + punched) % (U64_MAX + 1) {
        return Err(CannotRefundUntilAllTicketsHaveBeenPunchedOrDropped);
      }
      if !phaseThreeStarted {
        return Err(CannotRefundUntilPhaseThree);
      }
      if burnedForRefunds == U64_MAX {
        return Err(NumericalOverflowError);
      }
      if supply == 0 {
        return Err(TokenBurnFailed);
      }
      var taken := if snapshot.None? then treasury else snapshot.value;
      var amount := RefundAmount(data, taken, punched, clock);
      if amount.Err? {
        return Err(amount.error);
      }
      if treasury < amount.value {
        return Err(TransferFailed);
      }
      burnedForRefunds := burnedForRefunds + 1;
      supply := supply - 1;
      PayOut(taken, amount.value);
      r := Ok(());
    }

    method MintTokens(amount: u64) returns (r: Result<(), Error>)
      modifies this`supply, this`preminted
      ensures Refines(Spec.MintTokens(old(View()), amount), r, old(View()), View())
    {
      if sold > (dropped + punched) % (U64_MAX + 1) {
        return Err(CannotMintTokensUntilAllCashedOut);
      }
      var totalNew := supply + amount;
      if totalNew > U64_MAX {
        return Err(NumericalOverflowError);
      }
      if totalNew > data.numberOfTokens {
        return Err(CannotMintMoreTokensThanTotal);
      }
      supply := totalNew;
      if !phaseThreeStarted {
        preminted := totalNew;
      }
      r := Ok(());
    }

    method BurnTokens(amount: u64) returns (r: Result<(), Error>)
      modifies this`supply
      ensures Refines(Spec.BurnTokens(old(View()), amount), r, old(View()), View())
    {
      if amount > supply {
        return Err(TokenBurnFailed);
      }
      supply := supply - amount;
      r := Ok(());
    }

    // -------------------------------------------------------------------------
    // Transactions: time passes, and the instruction takes effect as a whole or not at all

    method ExecuteTicket(e: Event) returns (r: Result<(), Error>)
      requires e.ix.Purchase? || e.ix.Sequence? || e.ix.Adjust? || e.ix.Punch?
      modifies this
      ensures View() == Step(old(View()), e)
    {
      clock := e.now;
      match e.ix
      case Purchase(buyer, amount, funds) => r := PurchaseTicket(buyer, amount, funds);
      case Sequence(buyer) => r := CreateTicketSeq(buyer);
      case Adjust(buyer, amount, buyerSigned, funds) => r := AdjustTicket(buyer, amount, buyerSigned, funds);
      case Punch(buyer) => r := PunchTicket(buyer);
    }

    method ExecuteBitmap(e: Event) returns (r: Result<(), Error>)
      requires e.ix.CreateBitmap? || e.ix.UpdateBitmap?
      modifies this, lottery, if lottery == null then {} else {lottery.bytes}
      ensures View() == Step(old(View()), e)
    {
      clock := e.now;
      match e.ix
      case CreateBitmap => r := CreateLotteryBitmap();
      case UpdateBitmap(index, strip) => r := UpdateLotteryBitmap(index, strip);
    }

    method ExecutePhase(e: Event) returns (r: Result<(), Error>)
      requires e.ix.Update? || e.ix.PhaseThree? || e.ix.Restart?
      modifies this
      ensures View() == Step(old(View()), e)
    {
      clock := e.now;
      match e.ix
      case Update(newData) => r := UpdateFairLaunch(newData);
      case PhaseThree => r := StartPhaseThree();
      case Restart => r := RestartPhaseTwo();
    }

    method ExecuteCash(e: Event) returns (r: Result<(), Error>)
      requires e.ix.Withdraw? || e.ix.Refund?
      modifies this
      ensures View() == Step(old(View()), e)
    {
      clock := e.now;
      match e.ix
      case Withdraw => r := WithdrawFunds();
      case Refund => r := ReceiveRefund();
    }

    method ExecuteSupply(e: Event) returns (r: Result<(), Error>)
      requires e.ix.Mint? || e.ix.Burn?
      modifies this
      ensures View() == Step(old(View()), e)
    {
      clock := e.now;
      if e.ix.Mint? {
        r := MintTokens(e.ix.amount);
      } else {
        r := BurnTokens(e.ix.amount);
      }
    }

    method Execute(e: Event) returns (r: Result<(), Error>)
      modifies this, lottery, if lottery == null then {} else {lottery.bytes}
      ensures View() == Step(old(View()), e)
    {
      if e.ix.Purchase? || e.ix.Sequence? || e.ix.Adjust? || e.ix.Punch? {
        r := ExecuteTicket(e);
      } else if e.ix.Withdraw? || e.ix.Refund? {
        r := ExecuteCash(e);
      } else if e.ix.Mint? || e.ix.Burn? {
        r := ExecuteSupply(e);
      } else if e.ix.CreateBitmap? || e.ix.UpdateBitmap? {
        r := ExecuteBitmap(e);
      } else {
        r := ExecutePhase(e);
      }
    }
  }
}
