/** Each instruction of the fair launch keeps the invariant, one lemma an instruction. */
module LaunchSteps {
  import opened Prelude
  import opened FairLaunchErrors
  import opened MapSums
  import opened Histogram
  import opened Bits
  import opened LotteryBitmap
  import opened FairLaunch
  import opened LaunchInvariant

  /**
   The hypotheses on a run that the program leaves to its authority: the clock
   does not go back; the data is updated only before the first ticket is sold,
   with a positive first price and no fewer tokens than exist; once phase three
   has started, the bitmap is not rewritten in a way that does harm.
   */
  ghost predicate WellBehaved(s: Launch, e: Event) {
    && s.clock <= e.now
    && (e.ix.Update? ==> s.sold == 0 && e.ix.data.priceRangeStart > 0 && s.supply <= e.ix.data.numberOfTokens)
    && (e.ix.UpdateBitmap? && s.phaseThreeStarted ==> HarmlessRewrite(s, e.ix.index, e.ix.strip))
  }

  /**
   A rewrite of the bitmap that leaves every punched ticket its bit and, while
   a ticket is open, names no more winners than there are tokens for.
   */
  ghost predicate HarmlessRewrite(s: Launch, index: u32, strip: seq<byte>) {
    var r := UpdateLotteryBitmap(s, index, strip);
    r.Ok? ==>
      && (forall k :: k in s.tickets && s.tickets[k].state == Punched ==>
            IsWinner(r.value.lottery.value.bytes, s.tickets[k].number) == Some(true))
      && (s.sold > s.dropped + s.punched ==>
            s.supply + r.value.lottery.value.ones - s.punched <= s.data.numberOfTokens)
  }

  lemma ValidDataOk(data: LaunchData)
    requires AssertDataValid(data).Pass? && EmptyBins(data).Ok? && data.priceRangeStart > 0
    ensures DataOk(data) && BinsOk(data, EmptyBins(data).value)
    ensures Total(EmptyBins(data).value) == 0
  {
    BelowZeros(EmptyBins(data).value, |EmptyBins(data).value|);
  }

  lemma InitializeGivesInv(data: LaunchData, now: i64)
    requires InitializeFairLaunch(data, now).Ok? && data.priceRangeStart > 0
    ensures Inv(InitializeFairLaunch(data, now).value)
  {
    ValidDataOk(data);
  }

  lemma ClockKeepsInv(s: Launch, now: i64)
    requires Inv(s) && s.clock <= now
    ensures Inv(s.(clock := now))
  {
  }

  lemma NoTicketYet(s: Launch)
    requires Inv(s) && s.sold == 0
    ensures s.tickets == map[] && s.dropped == 0 && s.punched == 0 && s.unSeqed == 0
  {
    TicketsPartition(s.tickets);
  }

  lemma UpdateKeepsInv(s: Launch, data: LaunchData)
    requires Inv(s) && s.sold == 0 && data.priceRangeStart > 0 && s.supply <= data.numberOfTokens
    requires UpdateFairLaunch(s, data, s.clock).Ok?
    ensures Inv(UpdateFairLaunch(s, data, s.clock).value)
  {
    ValidDataOk(data);
    NoTicketYet(s);
  }

  // ---------------------------------------------------------------------------
  // Purchases

  /** A ticket enters: every count and sum moves by its own weight. */
  lemma EnterTicket(tickets: map<Pubkey, Ticket>, fee: nat, k: Pubkey, t: Ticket)
    requires k !in tickets
    ensures forall st: TicketState ::
      CountIn(tickets[k := t], st) == CountIn(tickets, st) + if t.state == st then 1 else 0
    ensures SumBy(tickets[k := t], Paid(fee)) == SumBy(tickets, Paid(fee)) + t.amount + fee
  {
    forall st: TicketState
      ensures CountIn(tickets[k := t], st) == CountIn(tickets, st) + if t.state == st then 1 else 0
    {
      SumByUpdate(tickets, InState(st), k, t);
    }
    SumByUpdate(tickets, Paid(fee), k, t);
  }

  /** A ticket changes: every count and sum trades its old weight for its new one. */
  lemma ChangeTicket(tickets: map<Pubkey, Ticket>, fee: nat, k: Pubkey, t: Ticket)
    requires k in tickets
    ensures forall st: TicketState ::
      CountIn(tickets[k := t], st) + (if tickets[k].state == st then 1 else 0)
        == CountIn(tickets, st) + if t.state == st then 1 else 0
    ensures SumBy(tickets[k := t], Paid(fee)) + tickets[k].amount == SumBy(tickets, Paid(fee)) + t.amount
  {
    forall st: TicketState
      ensures CountIn(tickets[k := t], st) + (if tickets[k].state == st then 1 else 0)
        == CountIn(tickets, st) + if t.state == st then 1 else 0
    {
      SumByUpdate(tickets, InState(st), k, t);
    }
    SumByUpdate(tickets, Paid(fee), k, t);
  }

  lemma ChangeKeepsTicketsOk(d: LaunchData, tickets: map<Pubkey, Ticket>, sold: nat, k: Pubkey, t: Ticket)
    requires TicketsOk(d, tickets, sold) && k in tickets && t.number == tickets[k].number
    requires if t.state == Withdrawn then t.amount == 0 else d.priceRangeStart <= t.amount <= d.priceRangeEnd
    ensures TicketsOk(d, tickets[k := t], sold)
  {
    assert tickets[k := t].Keys == tickets.Keys;
    assert |tickets[k := t]| == |tickets.Keys|;
  }

  lemma EnterKeepsTicketsOk(d: LaunchData, tickets: map<Pubkey, Ticket>, sold: nat, k: Pubkey, t: Ticket)
    requires TicketsOk(d, tickets, sold) && k !in tickets && t.number == sold
    requires t.state != Withdrawn && d.priceRangeStart <= t.amount <= d.priceRangeEnd
    ensures TicketsOk(d, tickets[k := t], sold + 1)
  {
    assert |tickets[k := t]| == |tickets| + 1;
  }

  /** The histogram after a purchase, on its own. */
  lemma PurchaseBook(s: Launch, buyer: Pubkey, amount: u64)
    requires Inv(s) && s.clock <= s.data.phaseOneEnd && buyer !in s.tickets && s.sold < U64_MAX
    requires s.data.priceRangeStart <= amount <= s.data.priceRangeEnd
    requires AdjustCounts(s.data, s.counts, amount, None).Ok?
    ensures var book := AdjustCounts(s.data, s.counts, amount, None).value;
      && BinsOk(s.data, book.counts)
      && HistogramOk(s.data, book.counts, s.tickets[buyer := Ticket(amount, NoSequenceStruct, s.sold)])
      && TallyOk(s.data, book.counts, book.median, book.eligible, s.sold + 1)
  {
    InsertKeepsHistogram(s.data, s.counts, s.tickets, buyer, Ticket(amount, NoSequenceStruct, s.sold));
  }

  /** A purchase happens in phase one, before there is a lottery: nobody has punched. */
  lemma EnterKeepsPunched(s: Launch, buyer: Pubkey, t: Ticket, median: u64)
    requires Inv(s) && s.clock <= s.data.phaseOneEnd && t.state == NoSequenceStruct
    ensures PunchedOk(s.tickets[buyer := t], s.lottery, median)
  {
  }

  /** A new ticket with its money and a matching histogram keeps the invariant. */
  lemma EnterKeepsInv(s: Launch, buyer: Pubkey, t: Ticket, book: Book, r: Launch)
    requires Inv(s) && s.clock <= s.data.phaseOneEnd && buyer !in s.tickets
    requires t.state == NoSequenceStruct && t.number == s.sold
    requires s.data.priceRangeStart <= t.amount <= s.data.priceRangeEnd
    requires BinsOk(s.data, book.counts) && HistogramOk(s.data, book.counts, s.tickets[buyer := t])
    requires TallyOk(s.data, book.counts, book.median, book.eligible, s.sold + 1)
    requires s.sold < U64_MAX && s.unSeqed < U64_MAX && s.treasury + t.amount + s.data.fee <= U64_MAX
    requires r == s.(tickets := s.tickets[buyer := t], sold := s.sold + 1, unSeqed := s.unSeqed + 1,
                     counts := book.counts, median := book.median, eligible := book.eligible,
                     treasury := s.treasury + t.amount + s.data.fee)
    ensures Inv(r)
  {
    EnterKeepsPunched(s, buyer, t, book.median);
    EnterKeepsTicketsOk(s.data, s.tickets, s.sold, buyer, t);
    assert CountersOk(r.tickets, r.unSeqed, r.dropped, r.punched) && MoneyOk(r.tickets, Held(r), r.data.fee) by {
      EnterTicket(s.tickets, s.data.fee, buyer, t);
    }
  }

  lemma PurchaseKeepsInv(s: Launch, buyer: Pubkey, amount: u64, funds: u64)
    requires Inv(s)
    requires PurchaseTicket(s, buyer, amount, funds, s.clock).Ok?
    ensures Inv(PurchaseTicket(s, buyer, amount, funds, s.clock).value)
  {
    var r := PurchaseTicket(s, buyer, amount, funds, s.clock).value;
    var book := PurchaseEffect(s, buyer, amount, funds, r);
    PurchaseBook(s, buyer, amount);
    EnterKeepsInv(s, buyer, Ticket(amount, NoSequenceStruct, s.sold), book, r);
  }

  lemma PurchaseEffect(s: Launch, buyer: Pubkey, amount: u64, funds: u64, r: Launch) returns (book: Book)
    requires PurchaseTicket(s, buyer, amount, funds, s.clock) == Ok(r)
    ensures s.clock <= s.data.phaseOneEnd && buyer !in s.tickets
    ensures s.data.priceRangeStart <= amount <= s.data.priceRangeEnd
    ensures s.sold < U64_MAX && s.unSeqed < U64_MAX && s.treasury + amount + s.data.fee <= U64_MAX
    ensures AdjustCounts(s.data, s.counts, amount, None) == Ok(book)
    ensures r == s.(tickets := s.tickets[buyer := Ticket(amount, NoSequenceStruct, s.sold)],
                    sold := s.sold + 1, unSeqed := s.unSeqed + 1,
                    counts := book.counts, median := book.median, eligible := book.eligible,
                    treasury := s.treasury + amount + s.data.fee)
  {
    book := AdjustCounts(s.data, s.counts, amount, None).value;
  }

  lemma SequenceKeepsInv(s: Launch, buyer: Pubkey)
    requires Inv(s) && CreateTicketSeq(s, buyer).Ok?
    ensures Inv(CreateTicketSeq(s, buyer).value)
  {
    SequencedKeepsInv(s, buyer, s.tickets[buyer].(state := Unpunched), CreateTicketSeq(s, buyer).value);
  }

  lemma SequencedKeepsInv(s: Launch, buyer: Pubkey, t: Ticket, r: Launch)
    requires Inv(s) && buyer in s.tickets && s.tickets[buyer].state == NoSequenceStruct
    requires t == s.tickets[buyer].(state := Unpunched) && s.unSeqed > 0
    requires r == s.(tickets := s.tickets[buyer := t], unSeqed := s.unSeqed - 1)
    ensures Inv(r)
  {
    assert PunchedOk(r.tickets, r.lottery, r.median);
    RestateParts(s, buyer, t, r);
  }

  /** A live ticket changes its state and keeps its amount: what that does not depend on the lottery. */
  lemma RestateParts(s: Launch, buyer: Pubkey, t: Ticket, r: Launch)
    requires Inv(s) && buyer in s.tickets && s.tickets[buyer].state != Withdrawn && t.state != Withdrawn
    requires t == s.tickets[buyer].(state := t.state)
    requires r == s.(tickets := s.tickets[buyer := t], unSeqed := r.unSeqed, punched := r.punched, supply := r.supply)
    requires r.unSeqed == s.unSeqed - Is(s.tickets[buyer], NoSequenceStruct) + Is(t, NoSequenceStruct)
    requires r.punched == s.punched - Is(s.tickets[buyer], Punched) + Is(t, Punched)
    ensures TicketsOk(r.data, r.tickets, r.sold) && CountersOk(r.tickets, r.unSeqed, r.dropped, r.punched)
    ensures MoneyOk(r.tickets, Held(r), r.data.fee)
    ensures r.clock <= r.data.phaseOneEnd ==> HistogramOk(r.data, r.counts, r.tickets)
  {
    assert TicketsOk(r.data, r.tickets, r.sold) by {
      ChangeKeepsTicketsOk(s.data, s.tickets, s.sold, buyer, t);
    }
    assert CountersOk(r.tickets, r.unSeqed, r.dropped, r.punched) && MoneyOk(r.tickets, Held(r), r.data.fee) by {
      RestateCounts(s.tickets, s.data.fee, buyer, t, s.unSeqed, s.dropped, s.punched, r.unSeqed, r.punched, Held(s));
    }
    RestateKeepsHistogram(s.data, s.counts, s.tickets, buyer, t);
  }

  function Is(t: Ticket, state: TicketState): nat {
    if t.state == state then 1 else 0
  }

  lemma RestateCounts(tickets: map<Pubkey, Ticket>, fee: nat, k: Pubkey, t: Ticket, unSeqed: nat, dropped: nat,
                      punched: nat, unSeqedNow: nat, punchedNow: nat, held: nat)
    requires CountersOk(tickets, unSeqed, dropped, punched) && MoneyOk(tickets, held, fee)
    requires k in tickets && t == tickets[k].(state := t.state)
    requires t.state != Withdrawn && tickets[k].state != Withdrawn
    requires unSeqedNow == unSeqed - Is(tickets[k], NoSequenceStruct) + Is(t, NoSequenceStruct)
    requires punchedNow == punched - Is(tickets[k], Punched) + Is(t, Punched)
    ensures CountersOk(tickets[k := t], unSeqedNow, dropped, punchedNow) && MoneyOk(tickets[k := t], held, fee)
  {
    ChangeTicket(tickets, fee, k, t);
  }

  /** Bins look at amounts, not at the kind of live ticket. */
  lemma RestateKeepsHistogram(d: LaunchData, counts: seq<u64>, tickets: map<Pubkey, Ticket>, k: Pubkey, t: Ticket)
    requires d.tickSize > 0 && k in tickets && t.amount == tickets[k].amount
    requires t.state != Withdrawn && tickets[k].state != Withdrawn
    ensures HistogramOk(d, counts, tickets) ==> HistogramOk(d, counts, tickets[k := t])
  {
    forall p | 0 <= p < |counts|
      ensures SumBy(tickets[k := t], InBin(d.priceRangeStart, d.tickSize, p))
           == SumBy(tickets, InBin(d.priceRangeStart, d.tickSize, p))
    {
      SumByUpdate(tickets, InBin(d.priceRangeStart, d.tickSize, p), k, t);
    }
  }

  // ---------------------------------------------------------------------------
  // Adjustments

  /** Moving a bid in phase one: out of its old bin, into its new one. */
  lemma MoveKeepsHistogram(s: Launch, k: Pubkey, t: Ticket)
    requires Inv(s) && s.clock <= s.data.phaseOneEnd
    requires k in s.tickets && s.tickets[k].state != Withdrawn
    requires if t.state == Withdrawn then t.amount == 0
             else s.data.priceRangeStart <= t.amount <= s.data.priceRangeEnd
    requires AdjustCounts(s.data, s.counts, t.amount, Some(s.tickets[k].amount)).Ok?
    ensures HistogramOk(s.data, AdjustCounts(s.data, s.counts, t.amount, Some(s.tickets[k].amount)).value.counts,
                        s.tickets[k := t])
  {
    RemoveKeepsHistogram(s.data, s.counts, s.tickets, k);
    var removed := RemoveBid(s.data, s.counts, s.tickets[k].amount).value;
    var gone := s.tickets[k := s.tickets[k].(state := Withdrawn, amount := 0)];
    InsertKeepsHistogram(s.data, removed, gone, k, t);
    assert gone[k := t] == s.tickets[k := t];
  }

  lemma BooksMatch(s: Launch, k: Pubkey, t: Ticket)
    requires Inv(s) && s.clock <= s.data.phaseOneEnd
    requires k in s.tickets && s.tickets[k].state != Withdrawn
    requires if t.state == Withdrawn then t.amount == 0
             else s.data.priceRangeStart <= t.amount <= s.data.priceRangeEnd
    requires AdjustCounts(s.data, s.counts, t.amount, Some(s.tickets[k].amount)).Ok?
    ensures var book := AdjustCounts(s.data, s.counts, t.amount, Some(s.tickets[k].amount)).value;
      && BinsOk(s.data, book.counts)
      && HistogramOk(s.data, book.counts, s.tickets[k := t])
      && TallyOk(s.data, book.counts, book.median, book.eligible, s.sold)
  {
    MoveKeepsHistogram(s, k, t);
    assert s.sold > 0;
  }

  /** A live ticket that moves its money, in whatever way its bids are booked, keeps the invariant. */
  lemma MoveKeepsInv(s: Launch, buyer: Pubkey, t: Ticket, book: Book, r: Launch)
    requires Inv(s) && buyer in s.tickets && s.tickets[buyer].state == Unpunched
    requires t.number == s.tickets[buyer].number
    requires if t.amount == 0 then t.state == Withdrawn && s.dropped < U64_MAX
             else t.state == Unpunched && s.data.priceRangeStart <= t.amount <= s.data.priceRangeEnd
    requires BinsOk(s.data, book.counts)
    requires s.clock <= s.data.phaseOneEnd ==>
      && HistogramOk(s.data, book.counts, s.tickets[buyer := t])
      && TallyOk(s.data, book.counts, book.median, book.eligible, s.sold)
    requires s.clock > s.data.phaseOneEnd ==> book.median == s.median
    requires 0 <= s.treasury + t.amount - s.tickets[buyer].amount <= U64_MAX
    requires r == s.(tickets := s.tickets[buyer := t],
                     dropped := if t.amount == 0 then s.dropped + 1 else s.dropped,
                     counts := book.counts, median := book.median, eligible := book.eligible,
                     treasury := s.treasury + t.amount - s.tickets[buyer].amount)
    ensures Inv(r)
  {
    OpenTicket(s, buyer);
    assert TicketsOk(r.data, r.tickets, r.sold) by {
      ChangeKeepsTicketsOk(s.data, s.tickets, s.sold, buyer, t);
    }
    MoveCounts(s.tickets, s.data.fee, buyer, t, s.unSeqed, s.dropped, s.punched, r.dropped, s.treasury, r.treasury);
  }

  lemma MoveCounts(tickets: map<Pubkey, Ticket>, fee: nat, k: Pubkey, t: Ticket, unSeqed: nat, dropped: nat,
                   punched: nat, droppedNow: nat, held: nat, heldNow: nat)
    requires CountersOk(tickets, unSeqed, dropped, punched) && MoneyOk(tickets, held, fee)
    requires k in tickets && tickets[k].state == Unpunched && (t.state == Unpunched || t.state == Withdrawn)
    requires droppedNow == dropped + Is(t, Withdrawn) && heldNow == held + t.amount - tickets[k].amount
    ensures CountersOk(tickets[k := t], unSeqed, droppedNow, punched) && MoneyOk(tickets[k := t], heldNow, fee)
  {
    ChangeTicket(tickets, fee, k, t);
  }

  /** An unpunched ticket is unresolved, so no cash-out has happened. */
  lemma OpenTicket(s: Launch, buyer: Pubkey)
    requires Inv(s) && buyer in s.tickets && s.tickets[buyer].state == Unpunched
    ensures s.sold > s.dropped + s.punched && s.snapshot.None?
  {
    TicketsPartition(s.tickets);
    SumByEntry(s.tickets, InState(Unpunched), buyer);
  }

  /** The ticket as an adjustment leaves it. */
  function Adjusted(t: Ticket, amount: u64): Ticket {
    t.(amount := amount, state := if amount == 0 then Withdrawn else t.state)
  }

  /** What an adjustment does: recount in phase one, and afterwards only move the number of eligible holders. */
  ghost predicate IsAdjusted(s: Launch, buyer: Pubkey, amount: u64, r: Launch) {
    && buyer in s.tickets && s.tickets[buyer].state == Unpunched
    && (if amount == 0 then s.dropped < U64_MAX else s.data.priceRangeStart <= amount <= s.data.priceRangeEnd)
    && 0 <= s.treasury + amount - s.tickets[buyer].amount <= U64_MAX
    && r == s.(tickets := s.tickets[buyer := Adjusted(s.tickets[buyer], amount)],
               dropped := if amount == 0 then s.dropped + 1 else s.dropped,
               counts := r.counts, median := r.median, eligible := r.eligible,
               treasury := s.treasury + amount - s.tickets[buyer].amount)
    && if s.clock <= s.data.phaseOneEnd
       then
         AdjustCounts(s.data, s.counts, amount, Some(s.tickets[buyer].amount)) ==
         Ok(Book(r.counts, r.median, r.eligible))
       else r.counts == s.counts && r.median == s.median
  }

  lemma AdjustEffect(s: Launch, buyer: Pubkey, amount: u64, buyerSigned: bool, funds: u64, r: Launch)
    requires AdjustTicket(s, buyer, amount, buyerSigned, funds, s.clock) == Ok(r)
    ensures IsAdjusted(s, buyer, amount, r)
  {
  }

  lemma AdjustKeepsInv(s: Launch, buyer: Pubkey, amount: u64, buyerSigned: bool, funds: u64)
    requires Inv(s)
    requires AdjustTicket(s, buyer, amount, buyerSigned, funds, s.clock).Ok?
    ensures Inv(AdjustTicket(s, buyer, amount, buyerSigned, funds, s.clock).value)
  {
    var r := AdjustTicket(s, buyer, amount, buyerSigned, funds, s.clock).value;
    AdjustEffect(s, buyer, amount, buyerSigned, funds, r);
    AdjustedKeepsInv(s, buyer, amount, r);
  }

  lemma AdjustedKeepsInv(s: Launch, buyer: Pubkey, amount: u64, r: Launch)
    requires Inv(s) && IsAdjusted(s, buyer, amount, r)
    ensures Inv(r)
  {
    var t := Adjusted(s.tickets[buyer], amount);
    if s.clock <= s.data.phaseOneEnd {
      BooksMatch(s, buyer, t);
    }
    MoveKeepsInv(s, buyer, t, Book(r.counts, r.median, r.eligible), r);
  }

  lemma PunchKeepsInv(s: Launch, buyer: Pubkey)
    requires Inv(s) && PunchTicket(s, buyer).Ok?
    ensures Inv(PunchTicket(s, buyer).value)
  {
    var t := s.tickets[buyer].(state := Punched);
    OpenTicket(s, buyer);
    PunchedTogether(s, buyer);
    PunchTicketKeepsInv(s, buyer, t, PunchTicket(s, buyer).value);
  }

  lemma PunchTicketKeepsInv(s: Launch, buyer: Pubkey, t: Ticket, r: Launch)
    requires Inv(s) && buyer in s.tickets && s.tickets[buyer].state == Unpunched
    requires s.sold > s.dropped + s.punched
    requires t == s.tickets[buyer].(state := Punched) && t.amount == s.median
    requires s.phaseThreeStarted && s.punched + 1 <= s.lottery.value.ones
    requires IsWinner(s.lottery.value.bytes, t.number) == Some(true)
    requires s.punched < U64_MAX && s.supply < U64_MAX
    requires r == s.(tickets := s.tickets[buyer := t], punched := s.punched + 1, supply := s.supply + 1)
    ensures Inv(r)
  {
    RestateParts(s, buyer, t, r);
  }

  /** A punch uses up one of the winners that the supply bound sets aside. */
  lemma PunchedTogether(s: Launch, buyer: Pubkey)
    requires Inv(s) && PunchTicket(s, buyer).Ok?
    ensures s.punched + 1 <= s.lottery.value.ones
  {
    var bytes := s.lottery.value.bytes;
    var bits := SetBits(bytes, 8 * |bytes|);
    var t := s.tickets[buyer].(state := Punched);
    var after := s.tickets[buyer := t];
    PopCountIsSetBits(bytes);
    forall k | k in after && after[k].state == Punched
      ensures after[k].number in bits
    {
      IsWinnerIsBit(bytes, after[k].number);
    }
    SumByInjection(after, InState(Punched), Number(), bits);
    ChangeTicket(s.tickets, s.data.fee, buyer, t);
  }

  // ---------------------------------------------------------------------------
  // Phases and money

  lemma CreateLotteryKeepsInv(s: Launch)
    requires Inv(s) && CreateLotteryBitmap(s, s.clock).Ok?
    ensures Inv(CreateLotteryBitmap(s, s.clock).value)
  {
    ZeroBitmap(s.sold / 8 + 1);
    SumByZero(s.tickets, InState(Punched));
  }

  lemma UpdateLotteryKeepsInv(s: Launch, index: u32, strip: seq<byte>)
    requires Inv(s) && !s.phaseThreeStarted
    requires UpdateLotteryBitmap(s, index, strip).Ok?
    ensures Inv(UpdateLotteryBitmap(s, index, strip).value)
  {
    WriteStripAccurate(s.lottery.value, index, strip);
    SumByZero(s.tickets, InState(Punched));
  }

  /** In phase three a rewrite keeps the invariant exactly when it does no harm. */
  lemma RewriteKeepsInvIff(s: Launch, index: u32, strip: seq<byte>)
    requires Inv(s) && s.phaseThreeStarted
    requires UpdateLotteryBitmap(s, index, strip).Ok?
    ensures Inv(UpdateLotteryBitmap(s, index, strip).value) <==> HarmlessRewrite(s, index, strip)
  {
    WriteStripAccurate(s.lottery.value, index, strip);
  }

  lemma StartPhaseThreeKeepsInv(s: Launch)
    requires Inv(s) && StartPhaseThree(s).Ok?
    ensures Inv(StartPhaseThree(s).value)
  {
  }

  /** After phase one the end of phase two may move anywhere, even wrap around. */
  lemma PhaseTwoEndKeepsInv(s: Launch, end: i64, r: Launch)
    requires Inv(s) && s.clock > s.data.phaseOneEnd
    requires r == s.(data := s.data.(phaseTwoEnd := end))
    ensures Inv(r)
  {
    PhaseTwoEndKeepsData(s.data, s.counts, s.tickets, s.sold, end, r.data);
  }

  lemma PhaseTwoEndKeepsData(d: LaunchData, counts: seq<u64>, tickets: map<Pubkey, Ticket>, sold: nat, end: i64,
                             moved: LaunchData)
    requires DataOk(d) && BinsOk(d, counts) && TicketsOk(d, tickets, sold)
    requires moved == d.(phaseTwoEnd := end)
    ensures DataOk(moved) && BinsOk(moved, counts) && TicketsOk(moved, tickets, sold)
  {
  }

  lemma RestartKeepsInv(s: Launch)
    requires Inv(s) && RestartPhaseTwo(s, s.clock).Ok?
    ensures Inv(RestartPhaseTwo(s, s.clock).value)
  {
    var r := RestartPhaseTwo(s, s.clock).value;
    RestartEffect(s, r);
    PhaseTwoEndKeepsInv(s, r.data.phaseTwoEnd, r);
  }

  lemma RestartEffect(s: Launch, r: Launch)
    requires PhasesOk(s) && RestartPhaseTwo(s, s.clock) == Ok(r)
    ensures s.clock > s.data.phaseOneEnd
    ensures r == s.(data := s.data.(phaseTwoEnd := r.data.phaseTwoEnd))
  {
  }

  lemma WithdrawKeepsInv(s: Launch)
    requires Inv(s) && WithdrawFunds(s).Ok?
    ensures Inv(WithdrawFunds(s).value)
  {
    ResolvedTickets(s);
  }

  lemma RefundKeepsInv(s: Launch)
    requires Inv(s) && ReceiveRefund(s, s.clock).Ok?
    ensures Inv(ReceiveRefund(s, s.clock).value)
  {
    ResolvedTickets(s);
  }

  lemma MintKeepsInv(s: Launch, amount: u64)
    requires Inv(s) && MintTokens(s, amount).Ok?
    ensures Inv(MintTokens(s, amount).value)
  {
    ResolvedTickets(s);
  }

  lemma BurnKeepsInv(s: Launch, amount: u64)
    requires Inv(s) && BurnTokens(s, amount).Ok?
    ensures Inv(BurnTokens(s, amount).value)
  {
  }

  // ---------------------------------------------------------------------------
  // Every step, every run

  lemma StepKeepsInv(s: Launch, e: Event)
    requires Inv(s) && WellBehaved(s, e)
    ensures Inv(Step(s, e))
  {
    ClockKeepsInv(s, e.now);
    var p := s.(clock := e.now);
    BehavesNow(s, e, p);
    if Apply(p, e).Ok? {
      if OnTicket(e.ix) {
        TicketStepKeepsInv(p, e, Apply(p, e).value);
      } else if OnPhase(e.ix) {
        PhaseStepKeepsInv(p, e, Apply(p, e).value);
      } else {
        MoneyStepKeepsInv(p, e, Apply(p, e).value);
      }
    }
  }

  lemma BehavesNow(s: Launch, e: Event, p: Launch)
    requires WellBehaved(s, e) && p == s.(clock := e.now)
    ensures WellBehaved(p, e)
  {
  }

  predicate OnTicket(ix: Instruction) {
    ix.Purchase? || ix.Sequence? || ix.Adjust? || ix.Punch?
  }

  predicate OnPhase(ix: Instruction) {
    ix.Update? || ix.CreateBitmap? || ix.UpdateBitmap? || ix.PhaseThree? || ix.Restart?
  }

  lemma TicketStepKeepsInv(s: Launch, e: Event, r: Launch)
    requires Inv(s) && s.clock == e.now && OnTicket(e.ix) && Apply(s, e) == Ok(r)
    ensures Inv(r)
  {
    match e.ix
    case Purchase(buyer, amount, funds) => PurchaseKeepsInv(s, buyer, amount, funds);
    case Sequence(buyer) => SequenceKeepsInv(s, buyer);
    case Adjust(buyer, amount, buyerSigned, funds) => AdjustKeepsInv(s, buyer, amount, buyerSigned, funds);
    case Punch(buyer) => PunchKeepsInv(s, buyer);
  }

  lemma PhaseStepKeepsInv(s: Launch, e: Event, r: Launch)
    requires Inv(s) && s.clock == e.now && OnPhase(e.ix) && WellBehaved(s, e) && Apply(s, e) == Ok(r)
    ensures Inv(r)
  {
    match e.ix
    case Update(data) => UpdateKeepsInv(s, data);
    case CreateBitmap => CreateLotteryKeepsInv(s);
    case UpdateBitmap(index, strip) =>
      if s.phaseThreeStarted {
        RewriteKeepsInvIff(s, index, strip);
      } else {
        UpdateLotteryKeepsInv(s, index, strip);
      }
    case PhaseThree => StartPhaseThreeKeepsInv(s);
    case Restart => RestartKeepsInv(s);
  }

  lemma MoneyStepKeepsInv(s: Launch, e: Event, r: Launch)
    requires Inv(s) && s.clock == e.now && !OnTicket(e.ix) && !OnPhase(e.ix) && Apply(s, e) == Ok(r)
    ensures Inv(r)
  {
    match e.ix
    case Withdraw => WithdrawKeepsInv(s);
    case Refund => RefundKeepsInv(s);
    case Mint(amount) => MintKeepsInv(s, amount);
    case Burn(amount) => BurnKeepsInv(s, amount);
  }

  /** Every event of the run is well behaved in the state it meets. */
  ghost predicate WellBehavedRun(s: Launch, events: seq<Event>)
    decreases |events|
  {
    |events| > 0 ==>
      && WellBehavedRun(s, events[..|events| - 1])
      && WellBehaved(Run(s, events[..|events| - 1]), events[|events| - 1])
  }

  lemma {:induction false} RunKeepsInv(s: Launch, events: seq<Event>)
    requires Inv(s) && WellBehavedRun(s, events)
    ensures Inv(Run(s, events))
    decreases |events|
  {
    if |events| > 0 {
      var last := |events| - 1;
      RunKeepsInv(s, events[..last]);
      StepKeepsInv(Run(s, events[..last]), events[last]);
    }
  }
}
