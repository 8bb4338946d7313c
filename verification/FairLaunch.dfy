/**
 The fair launch instructions as steps on the accounts they touch
 (rust/fair-launch/src/lib.rs, rust/fair-launch/src/utils.rs): the launch
 itself, the buyers' tickets, the lottery bitmap, the token mint's supply and
 the treasury balance.  A failed instruction yields an error and no new state.
 */
module FairLaunch {
  import opened Prelude
  import opened Division
  import opened FairLaunchErrors
  import opened Histogram
  import opened Bits
  import opened LotteryBitmap

  type Pubkey = nat

  const MAX_GRANULARITY := 100

  datatype AntiRugSetting = AntiRugSetting(reserveBp: u16, tokenRequirement: u64, selfDestructDate: i64)

  datatype LaunchData = LaunchData(
    uuid: string,
    priceRangeStart: u64,
    priceRangeEnd: u64,
    phaseOneStart: i64,
    phaseOneEnd: i64,
    phaseTwoEnd: i64,
    lotteryDuration: i64,
    tickSize: u64,
    numberOfTokens: u64,
    fee: u64,
    antiRug: Option<AntiRugSetting>
  )

  datatype TicketState = NoSequenceStruct | Unpunched | Punched | Withdrawn

  datatype Ticket = Ticket(amount: u64, state: TicketState, number: u64)

  datatype Launch = Launch(
    data: LaunchData,
    unSeqed: u64,
    sold: u64,
    dropped: u64,
    punched: u64,
    burnedForRefunds: u64,
    preminted: u64,
    phaseThreeStarted: bool,
    snapshot: Option<u64>,
    eligible: u64,
    median: u64,
    counts: seq<u64>,
    tickets: map<Pubkey, Ticket>,
    lottery: Option<Lottery>,
    supply: u64,
    treasury: u64,
    authorityPaid: nat,
    clock: i64
  )

  // ---------------------------------------------------------------------------
  // Set-up

  function AssertDataValid(data: LaunchData): Guard<Error> {
    if data.phaseOneEnd <= data.phaseOneStart then Fail(TimestampsDontLineUp)
    else if data.phaseTwoEnd <= data.phaseOneEnd then Fail(TimestampsDontLineUp)
    else if |data.uuid| != 6 then Fail(UuidMustBeExactly6Length)
    else if data.tickSize == 0 then Fail(TickSizeTooSmall)
    else if data.numberOfTokens == 0 then Fail(CannotGiveZeroTokens)
    else if data.priceRangeEnd <= data.priceRangeStart then Fail(InvalidPriceRanges)
    else if data.lotteryDuration < 0 then Fail(InvalidLotteryDuration)
    else if data.antiRug.Some? && data.antiRug.value.reserveBp > 10000 then Fail(InvalidReserveBp)
    else if data.antiRug.Some? && data.antiRug.value.tokenRequirement > data.numberOfTokens then
      Fail(InvalidAntiRugTokenRequirement)
    else if (data.priceRangeEnd - data.priceRangeStart) % data.tickSize > 0 then
      Fail(CannotUseTickSizeThatGivesRemainder)
    else if (data.priceRangeEnd - data.priceRangeStart) / data.tickSize > MAX_GRANULARITY then
      Fail(TooMuchGranularityInRange)
    else Pass
  }

  /** One empty bin for each price from the start to the end of the range. */
  function EmptyBins(data: LaunchData): Result<seq<u64>, Error>
    requires AssertDataValid(data).Pass?
  {
    if data.priceRangeEnd + data.tickSize > U64_MAX then Err(NumericalOverflowError)
    else
      Ok(seq((data.priceRangeEnd - data.priceRangeStart) / data.tickSize + 1, _ => 0))
  }

  function InitializeFairLaunch(data: LaunchData, now: i64): Result<Launch, Error> {
    var valid := AssertDataValid(data);
    :- valid;
    var counts :- EmptyBins(data);
    Ok(Launch(data, 0, 0, 0, 0, 0, 0, false, None, 0, 0, counts, map[], None, 0, 0, 0, now))
  }

  function UpdateFairLaunch(s: Launch, data: LaunchData, now: i64): Result<Launch, Error> {
    if now > s.data.phaseOneStart then Err(CannotUpdateFairLaunchDataOnceInProgress)
    else
      :- AssertDataValid(data);
      var counts :- EmptyBins(data);
      Ok(s.(data := data, counts := counts))
  }

  // ---------------------------------------------------------------------------
  // The histogram of bids

  /** The bin of a price: its tick counted from the range's first tick. */
  function BinOf(data: LaunchData, amount: nat): int
    requires data.tickSize > 0
  {
    amount / data.tickSize - data.priceRangeStart / data.tickSize
  }

  function RemoveBid(data: LaunchData, counts: seq<u64>, amount: nat): Result<seq<u64>, Error>
    requires data.tickSize > 0
  {
    if amount < data.priceRangeStart then Ok(counts)
    else
      var place := BinOf(data, amount);
      :- Need(place >= 0, NumericalOverflowError);
      :- Need(place < |counts|, Aborted);
      :- Need(counts[place] > 0, NumericalOverflowError);
      Ok(counts[place := counts[place] - 1])
  }

  function InsertBid(data: LaunchData, counts: seq<u64>, amount: nat): Result<seq<u64>, Error>
    requires data.tickSize > 0
  {
    if amount < data.priceRangeStart then Ok(counts)
    else
      var place := BinOf(data, amount);
      :- Need(place >= 0, NumericalOverflowError);
      :- Need(place < |counts|, Aborted);
      :- Need(counts[place] < U64_MAX, NumericalOverflowError);
      Ok(counts[place := counts[place] + 1])
  }

  /** The part of the launch that a bid changes. */
  datatype Book = Book(counts: seq<u64>, median: u64, eligible: u64)

  ghost function AdjustCounts(data: LaunchData, counts: seq<u64>, newAmount: nat, oldAmount: Option<nat>)
    : Result<Book, Error>
  {
    if data.tickSize == 0 then Err(NumericalOverflowError)
    else
      var removed :- if oldAmount.Some? then RemoveBid(data, counts, oldAmount.value) else Ok(counts);
      var inserted :- InsertBid(data, removed, newAmount);
      var tally := MeasureSpec(inserted, data.priceRangeStart, data.tickSize);
      :- Need(tally.Some?, NumericalOverflowError);
      Ok(Book(inserted, tally.value.median, tally.value.eligible))
  }

  /** After phase one the counts and the median are frozen and only the number of eligible holders moves. */
  function FrozenCounts(s: Launch, newAmount: nat, oldAmount: nat): Result<Book, Error> {
    if newAmount >= s.median && oldAmount < s.median then
      :- Need(s.eligible < U64_MAX, NumericalOverflowError);
      Ok(Book(s.counts, s.median, s.eligible + 1))
    else if newAmount < s.median && oldAmount >= s.median then
      :- Need(s.eligible > 0, NumericalOverflowError);
      Ok(Book(s.counts, s.median, s.eligible - 1))
    else Ok(Book(s.counts, s.median, s.eligible))
  }

  function AssertValidAmount(data: LaunchData, median: u64, amount: u64): Guard<Error> {
    if amount < data.priceRangeStart || amount > data.priceRangeEnd then Fail(InvalidPurchaseAmount)
    else if data.tickSize > 0 && amount % data.tickSize > 0 && amount != median then Fail(InvalidPurchaseAmount)
    else Pass
  }

  // ---------------------------------------------------------------------------
  // Tickets

  /** Who may buy, when and at what price. */
  function PurchaseAllowed(data: LaunchData, median: u64, sold: u64, unSeqed: u64, hasTicket: bool, amount: u64,
                           now: i64): Guard<Error>
  {
    if hasTicket then Fail(AccountAlreadyInUse)
    else if !(data.phaseOneStart <= now <= data.phaseOneEnd) then Fail(CannotBuyTicketsOutsidePhaseOne)
    else if AssertValidAmount(data, median, amount).Fail? then AssertValidAmount(data, median, amount)
    else Need(sold < U64_MAX && unSeqed < U64_MAX, NumericalOverflowError)
  }

  /** The treasury after the buyer has paid amount and fee. */
  function Charge(treasury: u64, amount: u64, fee: u64, funds: u64): Result<u64, Error> {
    if amount + fee > U64_MAX then Err(NumericalOverflowError)
    else
      :- Need(funds >= amount + fee, NotEnoughFunds);
      :- Need(treasury + amount + fee <= U64_MAX, TransferFailed);
      Ok(treasury + amount + fee)
  }

  ghost function PurchaseTicket(s: Launch, buyer: Pubkey, amount: u64, funds: u64, now: i64)
    : Result<Launch, Error>
  {
    var allowed := PurchaseAllowed(s.data, s.median, s.sold, s.unSeqed, buyer in s.tickets, amount, now);
    :- allowed;
    var book :- AdjustCounts(s.data, s.counts, amount, None);
    var treasury :- Charge(s.treasury, amount, s.data.fee, funds);
    Ok(s.(tickets := s.tickets[buyer := Ticket(amount, NoSequenceStruct, s.sold)],
          sold := s.sold + 1, unSeqed := s.unSeqed + 1,
          counts := book.counts, median := book.median, eligible := book.eligible,
          treasury := treasury))
  }

  function CreateTicketSeq(s: Launch, buyer: Pubkey): Result<Launch, Error> {
    if buyer !in s.tickets then Err(AccountMissing)
    else
      var t := s.tickets[buyer];
      :- Need(t.state == NoSequenceStruct, SeqAlreadyExists);
      :- Need(s.unSeqed > 0, NumericalOverflowError);
      Ok(s.(tickets := s.tickets[buyer := t.(state := Unpunched)], unSeqed := s.unSeqed - 1))
  }

  /** Which adjustments a ticket may make: any by its buyer until phase two ends, only the way out in phase three. */
  function AdjustmentAllowed(s: Launch, t: Ticket, amount: u64, buyerSigned: bool, now: i64): Guard<Error> {
    if s.phaseThreeStarted then
      if t.amount < s.median then Need(amount == 0, CanOnlySubmitZeroDuringPhaseThree)
      else
        match (if s.lottery.Some? then IsWinner(s.lottery.value.bytes, t.number) else None)
        case None => Fail(Aborted)
        case Some(true) => Need(amount == s.median, CanOnlySubmitDifferenceDuringPhaseThree)
        case Some(false) => Need(amount == 0, DidNotWinLotteryCanOnlyWithdraw)
    else if !buyerSigned then Fail(DuringPhaseTwoAndOneBuyerMustBeSigner)
    else Need(now <= s.data.phaseTwoEnd, PhaseTwoEnded)
  }

  /** The new amount is a valid price, or the ticket is dropped. */
  function AmountAllowed(data: LaunchData, median: u64, dropped: u64, amount: u64): Guard<Error> {
    if amount != 0 then AssertValidAmount(data, median, amount)
    else Need(dropped < U64_MAX, NumericalOverflowError)
  }

  /** The treasury after the buyer has paid the difference or been paid it back. */
  function Settle(treasury: u64, newAmount: u64, oldAmount: u64, funds: u64): Result<u64, Error> {
    if newAmount > oldAmount && funds < newAmount - oldAmount then Err(NotEnoughFunds)
    else
      :- Need(0 <= treasury + newAmount - oldAmount <= U64_MAX, TransferFailed);
      Ok(treasury + newAmount - oldAmount)
  }

  ghost function AdjustTicket(s: Launch, buyer: Pubkey, amount: u64, buyerSigned: bool, funds: u64, now: i64)
    : Result<Launch, Error>
  {
    if buyer !in s.tickets then Err(AccountMissing)
    else
      var t := s.tickets[buyer];
      :- Need(t.state == Unpunched, InvalidFairLaunchTicketState);
      :- AdjustmentAllowed(s, t, amount, buyerSigned, now);
      :- AmountAllowed(s.data, s.median, s.dropped, amount);
      var book :- if now <= s.data.phaseOneEnd then AdjustCounts(s.data, s.counts, amount, Some(t.amount))
                  else FrozenCounts(s, amount, t.amount);
      var treasury :- Settle(s.treasury, amount, t.amount, funds);
      Ok(s.(tickets := s.tickets[buyer := t.(amount := amount, state := if amount == 0 then Withdrawn else t.state)],
            dropped := if amount == 0 then s.dropped + 1 else s.dropped,
            counts := book.counts, median := book.median, eligible := book.eligible,
            treasury := treasury))
  }

  function PunchTicket(s: Launch, buyer: Pubkey): Result<Launch, Error> {
    if buyer !in s.tickets || s.lottery.None? then Err(AccountMissing)
    else
      var t := s.tickets[buyer];
      :- Need(t.state == Unpunched, InvalidFairLaunchTicketState);
      :- Need(s.phaseThreeStarted, CannotPunchTicketUntilPhaseThree);
      :- Need(t.amount == s.median, CannotPunchTicketUntilEqualized);
      var winner := IsWinner(s.lottery.value.bytes, t.number);
      :- Need(winner.Some?, Aborted);
      :- Need(winner.value, DidNotWinLotteryCanOnlyWithdraw);
      :- Need(s.punched < U64_MAX, NumericalOverflowError);
      :- Need(s.supply < U64_MAX, TokenMintToFailed);
      Ok(s.(tickets := s.tickets[buyer := t.(state := Punched)], punched := s.punched + 1, supply := s.supply + 1))
  }

  // ---------------------------------------------------------------------------
  // Phases and the lottery

  function CreateLotteryBitmap(s: Launch, now: i64): Result<Launch, Error> {
    if s.lottery.Some? then Err(AccountAlreadyInUse)
    else
      :- Need(now >= s.data.phaseTwoEnd, CannotCreateFairLaunchLotteryBitmapBeforePhaseTwoEnd);
      Ok(s.(lottery := Some(Lottery(Zeros(s.sold / 8 + 1), 0))))
  }

  function UpdateLotteryBitmap(s: Launch, index: u32, strip: seq<byte>): Result<Launch, Error> {
    if s.lottery.None? then Err(AccountMissing)
    else
      :- Need(s.unSeqed == 0, CannotSetFairLaunchLotteryUntilAllTicketsAreSequenced);
      var lottery :- WriteStrip(s.lottery.value, index, strip);
      Ok(s.(lottery := Some(lottery)))
  }

  function StartPhaseThree(s: Launch): Result<Launch, Error> {
    if s.lottery.None? then Err(AccountMissing)
    else
      :- Need(s.supply <= s.data.numberOfTokens, NumericalOverflowError);
      :- Need(s.lottery.value.ones == Min(s.data.numberOfTokens - s.supply, s.eligible),
              LotteryBitmapOnesMustEqualNumberOfTicketsSold);
      Ok(s.(phaseThreeStarted := true))
  }

  function RestartPhaseTwo(s: Launch, now: i64): Result<Launch, Error> {
    if s.phaseThreeStarted then Err(PhaseThreeAlreadyStarted)
    else
      :- Need(now >= s.data.phaseTwoEnd, PhaseTwoHasntEndedYet);
      :- Need(s.data.phaseTwoEnd + s.data.lotteryDuration <= I64_MAX, NumericalOverflowError);
      :- Need(now >= s.data.phaseTwoEnd + s.data.lotteryDuration, LotteryDurationHasntEndedYet);
      Ok(s.(data := s.data.(phaseTwoEnd := WrapI64(now + s.data.lotteryDuration))))
  }

  // ---------------------------------------------------------------------------
  // Money

  /** Some ticket is neither dropped nor punched; the sum is an unchecked u64 addition. */
  predicate Unresolved(s: Launch) {
    s.sold > (s.dropped + s.punched) % (U64_MAX + 1)
  }

  /** The share of the treasury that the authority may take before keeping its promise. */
  function CapitalAllotment(reserveBp: u16, snapshot: u64): (r: u64)
    requires reserveBp <= 10000
    ensures r <= snapshot
    ensures 10000 * r <= snapshot * (10000 - reserveBp) < 10000 * (r + 1)
  {
    ShareWithin(snapshot, 10000 - reserveBp, 10000);
    snapshot * (10000 - reserveBp) / 10000
  }

  lemma ShareWithin(whole: nat, part: nat, parts: nat)
    requires part <= parts && parts > 0
    ensures 0 <= whole * part / parts <= whole
  {
    MulMonotone(whole, part, parts);
    DivMonotone(whole * part, parts * whole, parts);
    DivUnique(parts * whole, parts, whole);
  }

  function WithdrawAmount(data: LaunchData, supply: u64, snapshot: u64, balance: u64): Result<u64, Error> {
    if data.antiRug.None? || supply <= data.antiRug.value.tokenRequirement then Ok(balance)
    else
      :- Need(snapshot == balance, AlreadyWithdrawnCapitalAlotment);
      :- Need(data.antiRug.value.reserveBp <= 10000, NumericalOverflowError);
      Ok(CapitalAllotment(data.antiRug.value.reserveBp, snapshot))
  }

  function WithdrawFunds(s: Launch): Result<Launch, Error> {
    if Unresolved(s) then Err(CannotCashOutUntilAllRefundsAndPunchesHaveBeenProcessed)
    else
      :- Need(s.phaseThreeStarted, CannotCashOutUntilPhaseThree);
      var snapshot := if s.snapshot.Some? then s.snapshot.value else s.treasury;
      var amount :- WithdrawAmount(s.data, s.supply, snapshot, s.treasury);
      :- Need(s.treasury >= amount, TransferFailed);
      Ok(s.(snapshot := Some(snapshot), treasury := s.treasury - amount, authorityPaid := s.authorityPaid + amount))
  }

  /** One refund: an equal part of the reserve for each punched ticket. */
  function RefundSlice(reserveBp: u16, snapshot: u64, punched: u64): (r: u64)
    requires reserveBp <= 10000 && punched > 0
  {
    (snapshot - CapitalAllotment(reserveBp, snapshot)) / punched
  }

  function RefundAmount(data: LaunchData, snapshot: u64, punched: u64, now: i64): Result<u64, Error> {
    if data.antiRug.None? then Err(NoAntiRugSetting)
    else
      :- Need(now >= data.antiRug.value.selfDestructDate, SelfDestructNotPassed);
      :- Need(data.antiRug.value.reserveBp <= 10000, NumericalOverflowError);
      :- Need(punched > 0, NumericalOverflowError);
      Ok(RefundSlice(data.antiRug.value.reserveBp, snapshot, punched))
  }

  function ReceiveRefund(s: Launch, now: i64): Result<Launch, Error> {
    if Unresolved(s) then Err(CannotRefundUntilAllTicketsHaveBeenPunchedOrDropped)
    else
      :- Need(s.phaseThreeStarted, CannotRefundUntilPhaseThree);
      :- Need(s.burnedForRefunds < U64_MAX, NumericalOverflowError);
      :- Need(s.supply > 0, TokenBurnFailed);
      var snapshot := if s.snapshot.Some? then s.snapshot.value else s.treasury;
      var amount :- RefundAmount(s.data, snapshot, s.punched, now);
      :- Need(s.treasury >= amount, TransferFailed);
      Ok(s.(burnedForRefunds := s.burnedForRefunds + 1, supply := s.supply - 1,
            snapshot := Some(snapshot), treasury := s.treasury - amount))
  }

  function MintTokens(s: Launch, amount: u64): Result<Launch, Error> {
    if Unresolved(s) then Err(CannotMintTokensUntilAllCashedOut)
    else
      :- Need(s.supply + amount <= U64_MAX, NumericalOverflowError);
      :- Need(s.supply + amount <= s.data.numberOfTokens, CannotMintMoreTokensThanTotal);
      Ok(s.(supply := s.supply + amount,
            preminted := if s.phaseThreeStarted then s.preminted else s.supply + amount))
  }

  /** A token holder burns tokens through the token program, outside the launch. */
  function BurnTokens(s: Launch, amount: u64): Result<Launch, Error> {
    if amount > s.supply then Err(TokenBurnFailed)
    else
      Ok(s.(supply := s.supply - amount))
  }

  // ---------------------------------------------------------------------------
  // Runs

  datatype Instruction =
    | Update(data: LaunchData)
    | Purchase(buyer: Pubkey, amount: u64, funds: u64)
    | Sequence(buyer: Pubkey)
    | Adjust(buyer: Pubkey, amount: u64, buyerSigned: bool, funds: u64)
    | CreateBitmap
    | UpdateBitmap(index: u32, strip: seq<byte>)
    | PhaseThree
    | Punch(buyer: Pubkey)
    | Withdraw
    | Refund
    | Restart
    | Mint(amount: u64)
    | Burn(amount: u64)

  datatype Event = Event(now: i64, ix: Instruction)

  ghost function Apply(s: Launch, e: Event): Result<Launch, Error> {
    match e.ix
    case Update(data) => UpdateFairLaunch(s, data, e.now)
    case Purchase(buyer, amount, funds) => PurchaseTicket(s, buyer, amount, funds, e.now)
    case Sequence(buyer) => CreateTicketSeq(s, buyer)
    case Adjust(buyer, amount, buyerSigned, funds) => AdjustTicket(s, buyer, amount, buyerSigned, funds, e.now)
    case CreateBitmap => CreateLotteryBitmap(s, e.now)
    case UpdateBitmap(index, strip) => UpdateLotteryBitmap(s, index, strip)
    case PhaseThree => StartPhaseThree(s)
    case Punch(buyer) => PunchTicket(s, buyer)
    case Withdraw => WithdrawFunds(s)
    case Refund => ReceiveRefund(s, e.now)
    case Restart => RestartPhaseTwo(s, e.now)
    case Mint(amount) => MintTokens(s, amount)
    case Burn(amount) => BurnTokens(s, amount)
  }

  /** A failed instruction changes nothing; time passes either way. */
  ghost function Step(s: Launch, e: Event): Launch {
    var present := s.(clock := e.now);
    var r := Apply(present, e);
    if r.Ok? then r.value else present
  }

  ghost function Run(s: Launch, events: seq<Event>): Launch
    decreases |events|
  {
    if |events| == 0 then s else Step(Run(s, events[..|events| - 1]), events[|events| - 1])
  }
}
