/**
 When each instruction of a fair launch succeeds, in terms of the tickets, the
 clock and the amounts alone, and what it then changes.
 */
module LaunchConditions {
  import opened Prelude
  import opened FairLaunchErrors
  import opened MapSums
  import opened Histogram
  import Bits
  import opened LotteryBitmap
  import opened FairLaunch
  import opened LaunchInvariant
  import opened LaunchSteps
  import opened EligibleHolders
  import opened LaunchTheorems
  import opened PhaseThree
  import opened PhaseThreeRuns
  import opened PhaseThreeTheorems

  // ---------------------------------------------------------------------------
  // Opening a launch

  /** The program accepts exactly these data. */
  lemma InitializeSucceedsIff(data: LaunchData, now: i64)
    ensures InitializeFairLaunch(data, now).Ok? <==>
            && data.phaseOneStart < data.phaseOneEnd < data.phaseTwoEnd
            && |data.uuid| == 6
            && data.tickSize > 0 && data.numberOfTokens > 0 && data.lotteryDuration >= 0
            && data.priceRangeStart < data.priceRangeEnd
            && (data.priceRangeEnd - data.priceRangeStart) % data.tickSize == 0
            && (data.priceRangeEnd - data.priceRangeStart) / data.tickSize <= 100
            && data.priceRangeEnd + data.tickSize <= U64_MAX
            && (data.antiRug.Some? ==>
                  && data.antiRug.value.reserveBp <= 10000
                  && data.antiRug.value.tokenRequirement <= data.numberOfTokens)
    ensures InitializeFairLaunch(data, now).Ok? ==>
            var s := InitializeFairLaunch(data, now).value;
            && s.data == data && s.clock == now && s.tickets == map[] && s.lottery == None
            && s.sold == s.supply == s.treasury == 0 && !s.phaseThreeStarted && s.snapshot == None
            && |s.counts| == (data.priceRangeEnd - data.priceRangeStart) / data.tickSize + 1
            && forall p :: 0 <= p < |s.counts| ==> s.counts[p] == 0
  {
  }

  /** New data are taken up to the first second of phase one, if a launch could be opened with them. */
  lemma UpdateSucceedsIff(s: Launch, data: LaunchData, now: i64)
    ensures UpdateFairLaunch(s, data, now).Ok? <==>
            now <= s.data.phaseOneStart && InitializeFairLaunch(data, now).Ok?
    ensures UpdateFairLaunch(s, data, now).Ok? ==>
            UpdateFairLaunch(s, data, now).value ==
            s.(data := data, counts := InitializeFairLaunch(data, now).value.counts)
  {
  }

  // ---------------------------------------------------------------------------
  // Tickets

  /** A purchase adds the ticket at its price and moves exactly the price and the fee. */
  lemma PurchaseMoves(s: Launch, buyer: Pubkey, amount: u64, funds: u64, now: i64)
    requires PurchaseTicket(s, buyer, amount, funds, now).Ok?
    ensures var r := PurchaseTicket(s, buyer, amount, funds, now).value;
      && r.tickets == s.tickets[buyer := Ticket(amount, NoSequenceStruct, s.sold)]
      && r.treasury == s.treasury + amount + s.data.fee
      && r == s.(tickets := r.tickets, treasury := r.treasury, sold := s.sold + 1, unSeqed := s.unSeqed + 1,
                 counts := r.counts, median := r.median, eligible := r.eligible)
  {
  }

  /** A ticket is sequenced exactly once. */
  lemma SequenceSucceedsIff(data: LaunchData, start: i64, events: seq<Event>, buyer: Pubkey)
    requires LaunchRun(data, start, events)
    ensures var s := Reached(data, start, events);
      && (CreateTicketSeq(s, buyer).Ok? <==> buyer in s.tickets && s.tickets[buyer].state == NoSequenceStruct)
      && (CreateTicketSeq(s, buyer).Ok? ==>
            CreateTicketSeq(s, buyer).value ==
            s.(tickets := s.tickets[buyer := s.tickets[buyer].(state := Unpunched)], unSeqed := s.unSeqed - 1))
  {
    ReachedInv(data, start, events);
    var s := Reached(data, start, events);
    if buyer in s.tickets && s.tickets[buyer].state == NoSequenceStruct {
      SumByEntry(s.tickets, InState(NoSequenceStruct), buyer);
    }
  }

  /** The new amount is nothing, or a price of the range that is on a tick or the median. */
  predicate AmountFits(s: Launch, amount: u64) {
    || amount == 0
    || (&& s.data.priceRangeStart <= amount <= s.data.priceRangeEnd
        && (amount == s.median || (s.data.tickSize > 0 && amount % s.data.tickSize == 0)))
  }

  /** The stored number of eligible holders has room for the move. */
  predicate HoldersFit(s: Launch, was: u64, amount: u64) {
    && (was < s.median <= amount ==> s.eligible < U64_MAX)
    && (amount < s.median <= was ==> s.eligible > 0)
  }

  lemma EarlyAdjustment(s: Launch, buyer: Pubkey, amount: u64, signed: bool, funds: u64, now: i64)
    requires Inv(s) && !s.phaseThreeStarted && now >= s.clock
    ensures AdjustTicket(s, buyer, amount, signed, funds, now).Ok? <==>
            && buyer in s.tickets && s.tickets[buyer].state == Unpunched
            && signed
            && now <= s.data.phaseTwoEnd
            && AmountFits(s, amount)
            && (amount > s.tickets[buyer].amount ==> funds >= amount - s.tickets[buyer].amount)
            && s.treasury + amount - s.tickets[buyer].amount <= U64_MAX
            && (now > s.data.phaseOneEnd ==> HoldersFit(s, s.tickets[buyer].amount, amount))
  {
    if buyer in s.tickets && s.tickets[buyer].state == Unpunched {
      OpenTicket(s, buyer);
      OpenTicketCovered(s, buyer);
      if now <= s.data.phaseOneEnd && AmountFits(s, amount) {
        RecountCannotFail(s, buyer, amount);
      }
    }
  }

  /**
   Before phase three an adjustment succeeds exactly when the ticket's buyer has
   signed by the end of phase two, at a valid amount, with the money for a rise.
   */
  lemma EarlyAdjustmentSucceedsIff(data: LaunchData, start: i64, events: seq<Event>, buyer: Pubkey, amount: u64,
                                   signed: bool, funds: u64, now: i64)
    requires LaunchRun(data, start, events) && now >= Reached(data, start, events).clock
    requires !Reached(data, start, events).phaseThreeStarted
    ensures var s := Reached(data, start, events);
      AdjustTicket(s, buyer, amount, signed, funds, now).Ok? <==>
        && buyer in s.tickets && s.tickets[buyer].state == Unpunched
        && signed
        && now <= s.data.phaseTwoEnd
        && AmountFits(s, amount)
        && (amount > s.tickets[buyer].amount ==> funds >= amount - s.tickets[buyer].amount)
        && s.treasury + amount - s.tickets[buyer].amount <= U64_MAX
        && (now > s.data.phaseOneEnd ==> HoldersFit(s, s.tickets[buyer].amount, amount))
  {
    ReachedInv(data, start, events);
    EarlyAdjustment(Reached(data, start, events), buyer, amount, signed, funds, now);
  }

  lemma LateAdjustment(s: Launch, buyer: Pubkey, amount: u64, signed: bool, funds: u64, now: i64)
    requires Late(s) && now >= s.clock
    ensures AdjustTicket(s, buyer, amount, signed, funds, now).Ok? <==>
            && buyer in s.tickets && s.tickets[buyer].state == Unpunched
            && if s.tickets[buyer].amount >= s.median && s.tickets[buyer].number in SetBits(s) then amount == s.median
               else amount == 0 && (s.tickets[buyer].amount < s.median || s.eligible > 0)
  {
    if buyer in s.tickets && s.tickets[buyer].state == Unpunched {
      OpenIsNotCashedOut(s, buyer);
      TreasuryCovers(s, buyer);
      IsWinnerIsBit(s.lottery.value.bytes, s.tickets[buyer].number);
    }
  }

  /**
   In phase three, signed or not, a winner at the median or above may come down
   to it and nothing else, everybody else may only leave, and of those at the
   median or above only while an eligible holder is left.
   */
  lemma LateAdjustmentSucceedsIff(data: LaunchData, start: i64, events: seq<Event>, buyer: Pubkey, amount: u64,
                                  signed: bool, funds: u64, now: i64)
    requires LaunchRun(data, start, events) && now >= Reached(data, start, events).clock
    requires Reached(data, start, events).phaseThreeStarted
    ensures Reached(data, start, events).lottery.Some?
    ensures var s := Reached(data, start, events);
      AdjustTicket(s, buyer, amount, signed, funds, now).Ok? <==>
        && buyer in s.tickets && s.tickets[buyer].state == Unpunched
        && if s.tickets[buyer].amount >= s.median && s.tickets[buyer].number in SetBits(s) then amount == s.median
           else amount == 0 && (s.tickets[buyer].amount < s.median || s.eligible > 0)
  {
    ReachedLate(data, start, events);
    LateAdjustment(Reached(data, start, events), buyer, amount, signed, funds, now);
  }

  /** An adjustment moves exactly the difference, and after phase one nothing but the number of eligible holders. */
  lemma AdjustmentMoves(s: Launch, buyer: Pubkey, amount: u64, signed: bool, funds: u64, now: i64)
    requires AdjustTicket(s, buyer, amount, signed, funds, now).Ok?
    ensures var r := AdjustTicket(s, buyer, amount, signed, funds, now).value;
      && buyer in s.tickets
      && r.tickets == s.tickets[buyer := Ticket(amount, if amount == 0 then Withdrawn else Unpunched,
                                                s.tickets[buyer].number)]
      && r.treasury == s.treasury + amount - s.tickets[buyer].amount
      && r.dropped == s.dropped + (if amount == 0 then 1 else 0)
      && r == s.(tickets := r.tickets, treasury := r.treasury, dropped := r.dropped,
                 counts := r.counts, median := r.median, eligible := r.eligible)
      && (now > s.data.phaseOneEnd ==>
            && r.counts == s.counts && r.median == s.median
            && r.eligible == s.eligible + (if amount >= s.median then 1 else 0)
                                        - (if s.tickets[buyer].amount >= s.median then 1 else 0))
  {
  }

  lemma Punching(s: Launch, buyer: Pubkey)
    requires Inv(s) && (s.phaseThreeStarted ==> Late(s))
    ensures PunchTicket(s, buyer).Ok? <==>
            && s.phaseThreeStarted && s.lottery.Some?
            && buyer in s.tickets && s.tickets[buyer].state == Unpunched
            && s.tickets[buyer].amount == s.median && s.tickets[buyer].number in SetBits(s)
  {
    if s.phaseThreeStarted && buyer in s.tickets && s.tickets[buyer].state == Unpunched {
      OpenIsNotCashedOut(s, buyer);
      IsWinnerIsBit(s.lottery.value.bytes, s.tickets[buyer].number);
      if s.tickets[buyer].amount == s.median && s.tickets[buyer].number in SetBits(s) {
        LoserCounts(s, buyer);
        WinnersWithinSupply(s);
      }
    }
  }

  /** A punch succeeds exactly for an open ticket at the median whose bit is set; there is a token left for it. */
  lemma PunchSucceedsIff(data: LaunchData, start: i64, events: seq<Event>, buyer: Pubkey)
    requires LaunchRun(data, start, events)
    ensures var s := Reached(data, start, events);
      && (PunchTicket(s, buyer).Ok? <==>
            && s.phaseThreeStarted && s.lottery.Some?
            && buyer in s.tickets && s.tickets[buyer].state == Unpunched
            && s.tickets[buyer].amount == s.median && s.tickets[buyer].number in SetBits(s))
      && (PunchTicket(s, buyer).Ok? ==>
            PunchTicket(s, buyer).value ==
            s.(tickets := s.tickets[buyer := s.tickets[buyer].(state := Punched)],
               punched := s.punched + 1, supply := s.supply + 1))
  {
    ReachedInv(data, start, events);
    if Reached(data, start, events).phaseThreeStarted {
      ReachedLate(data, start, events);
    }
    Punching(Reached(data, start, events), buyer);
    PunchMoves(Reached(data, start, events), buyer);
  }

  lemma PunchMoves(s: Launch, buyer: Pubkey)
    ensures PunchTicket(s, buyer).Ok? ==>
            PunchTicket(s, buyer).value ==
            s.(tickets := s.tickets[buyer := s.tickets[buyer].(state := Punched)],
               punched := s.punched + 1, supply := s.supply + 1)
  {
  }

  // ---------------------------------------------------------------------------
  // The lottery and the phases

  /** One bitmap, from the end of phase two on, with a clear bit for every ticket. */
  lemma CreateBitmapSucceedsIff(s: Launch, now: i64)
    ensures CreateLotteryBitmap(s, now).Ok? <==> s.lottery.None? && now >= s.data.phaseTwoEnd
    ensures CreateLotteryBitmap(s, now).Ok? ==>
            var r := CreateLotteryBitmap(s, now).value;
            && r == s.(lottery := r.lottery) && r.lottery.Some? && r.lottery.value.ones == 0
            && s.sold < 8 * |r.lottery.value.bytes| <= s.sold + 8
            && SetBits(r) == {}
  {
    if s.lottery.None? && now >= s.data.phaseTwoEnd {
      ZeroBitmap(s.sold / 8 + 1);
    }
  }

  /** A strip is written once every ticket is sequenced, if it fits; then its bits hold, and the others as before. */
  lemma UpdateBitmapSucceedsIff(data: LaunchData, start: i64, events: seq<Event>, index: u32, strip: seq<byte>)
    requires LaunchRun(data, start, events) && Reached(data, start, events).sold < U64_MAX - 8
    ensures var s := Reached(data, start, events);
      && (UpdateLotteryBitmap(s, index, strip).Ok? <==>
            && s.lottery.Some?
            && (forall k :: k in s.tickets ==> s.tickets[k].state != NoSequenceStruct)
            && (strip == [] || index + |strip| <= |s.lottery.value.bytes|))
      && (UpdateLotteryBitmap(s, index, strip).Ok? ==>
            var r := UpdateLotteryBitmap(s, index, strip).value;
            && r == s.(lottery := r.lottery) && r.lottery.Some? && r.lottery.value.ones == |SetBits(r)|
            && forall i: nat :: i < 8 * |s.lottery.value.bytes| ==>
                 (i in SetBits(r) <==>
                  if 8 * index <= i < 8 * (index + |strip|) then Bits.BitAt(strip, i - 8 * index)
                  else i in SetBits(s)))
  {
    ReachedInv(data, start, events);
    var s := Reached(data, start, events);
    SumByZero(s.tickets, InState(NoSequenceStruct));
    if s.lottery.Some? {
      WriteStripAccurate(s.lottery.value, index, strip);
      if UpdateLotteryBitmap(s, index, strip).Ok? {
        StripShows(s.lottery.value, index, strip, UpdateLotteryBitmap(s, index, strip).value.lottery.value);
      }
    }
  }

  lemma StripShows(l: Lottery, index: nat, strip: seq<byte>, r: Lottery)
    requires Accurate(l) && WriteStrip(l, index, strip) == Ok(r)
    ensures |r.bytes| == |l.bytes| && r.ones == |Bits.SetBits(r.bytes, 8 * |r.bytes|)|
    ensures forall i: nat :: i < 8 * |l.bytes| ==>
      (Bits.BitAt(r.bytes, i) <==>
       if 8 * index <= i < 8 * (index + |strip|) then Bits.BitAt(strip, i - 8 * index) else Bits.BitAt(l.bytes, i))
  {
    WriteStripAccurate(l, index, strip);
    Bits.PopCountIsSetBits(r.bytes);
    if strip != [] {
      forall i: nat | i < 8 * |l.bytes|
        ensures Bits.BitAt(r.bytes, i) <==>
          if 8 * index <= i < 8 * (index + |strip|) then Bits.BitAt(strip, i - 8 * index) else Bits.BitAt(l.bytes, i)
      {
        BitAtOverwrite(l.bytes, index, strip, i);
      }
    }
  }

  /**
   Phase three starts exactly when the bitmap names as many winners as there are
   tokens left or stored eligible holders, whichever is less.
   */
  lemma StartPhaseThreeSucceedsIff(data: LaunchData, start: i64, events: seq<Event>)
    requires LaunchRun(data, start, events)
    ensures var s := Reached(data, start, events);
      && s.supply <= s.data.numberOfTokens
      && (StartPhaseThree(s).Ok? <==>
            && s.lottery.Some?
            && (|SetBits(s)| == s.eligible <= s.data.numberOfTokens - s.supply
                || |SetBits(s)| == s.data.numberOfTokens - s.supply <= s.eligible))
      && (StartPhaseThree(s).Ok? ==> StartPhaseThree(s).value == s.(phaseThreeStarted := true))
  {
    SupplyNeverExceedsTokens(data, start, events);
  }

  /** On tick marks of two units or more that is the number of tickets at the median or above. */
  lemma StartPhaseThreeOnTicks(data: LaunchData, start: i64, events: seq<Event>)
    requires LaunchRun(data, start, events) && TicksOfTwo(data)
    requires OnTickRun(InitializeFairLaunch(data, start).value, events)
    requires Reached(data, start, events).sold > 0
    ensures var s := Reached(data, start, events);
      var holders := |set k | k in s.tickets && s.tickets[k].amount >= s.median|;
      StartPhaseThree(s).Ok? <==>
        && s.lottery.Some?
        && (|SetBits(s)| == holders <= s.data.numberOfTokens - s.supply
            || |SetBits(s)| == s.data.numberOfTokens - s.supply <= holders)
  {
    EligibleHoldersCounted(data, start, events);
    StartPhaseThreeSucceedsIff(data, start, events);
    var s := Reached(data, start, events);
    assert Reaching(s.tickets, s.median) == set k | k in s.tickets && s.tickets[k].amount >= s.median;
  }

  /** Phase two restarts before phase three only, once the lottery's time is up, and ends that much later. */
  lemma RestartSucceedsIff(s: Launch, now: i64)
    ensures RestartPhaseTwo(s, now).Ok? <==>
            && !s.phaseThreeStarted
            && now >= s.data.phaseTwoEnd
            && now >= s.data.phaseTwoEnd + s.data.lotteryDuration
            && s.data.phaseTwoEnd + s.data.lotteryDuration <= I64_MAX
    ensures RestartPhaseTwo(s, now).Ok? ==>
            var end := now + s.data.lotteryDuration;
            && (-I64_MAX - 1 <= end <= I64_MAX ==>
                  RestartPhaseTwo(s, now).value == s.(data := s.data.(phaseTwoEnd := end)))
            && (end > I64_MAX ==>
                  RestartPhaseTwo(s, now).value ==
                  s.(data := s.data.(phaseTwoEnd := end - 0x1_0000_0000_0000_0000)))
  {
  }

  // ---------------------------------------------------------------------------
  // Money

  /** Every ticket is dropped or punched. */
  predicate TicketsSettled(s: Launch) {
    forall k :: k in s.tickets ==> s.tickets[k].state == Withdrawn || s.tickets[k].state == Punched
  }

  /** Tokens are minted exactly when every ticket is settled and they stay within the number on sale. */
  lemma MintSucceedsIff(data: LaunchData, start: i64, events: seq<Event>, amount: u64)
    requires LaunchRun(data, start, events)
    ensures var s := Reached(data, start, events);
      && (MintTokens(s, amount).Ok? <==> TicketsSettled(s) && s.supply + amount <= s.data.numberOfTokens)
      && (MintTokens(s, amount).Ok? ==>
            var r := MintTokens(s, amount).value;
            && r.supply == s.supply + amount
            && r.preminted == (if s.phaseThreeStarted then s.preminted else r.supply)
            && r == s.(supply := r.supply, preminted := r.preminted))
  {
    ReachedInv(data, start, events);
    ResolvedTickets(Reached(data, start, events));
  }

  /** The authority has kept its promise, or made none. */
  predicate PromiseMet(s: Launch) {
    s.data.antiRug.None? || s.supply <= s.data.antiRug.value.tokenRequirement
  }

  /** a is what is not reserved of the whole, in basis points, rounded down. */
  predicate IsAllotment(a: nat, whole: nat, reserveBp: nat) {
    10000 * a <= whole * (10000 - reserveBp) < 10000 * (a + 1)
  }

  /** p is an equal part of what the allotment leaves, rounded down. */
  predicate IsSlice(p: nat, whole: nat, a: nat, parts: nat) {
    parts * p <= whole - a < parts * (p + 1)
  }

  lemma AllotmentIsUnique(a: nat, b: nat, whole: nat, reserveBp: nat)
    requires IsAllotment(a, whole, reserveBp) && IsAllotment(b, whole, reserveBp)
    ensures a == b
  {
  }

  lemma Times(parts: nat, p: nat, q: nat)
    requires p <= q
    ensures parts * p <= parts * q
  {
    assert parts * q == parts * p + parts * (q - p);
  }

  lemma SliceIsUnique(p: nat, q: nat, whole: nat, a: nat, parts: nat)
    requires IsSlice(p, whole, a, parts) && IsSlice(q, whole, a, parts)
    ensures p == q
  {
    if p < q {
      Times(parts, p + 1, q);
    } else if q < p {
      Times(parts, q + 1, p);
    }
  }

  lemma QuotientIsSlice(rest: nat, parts: nat)
    requires parts > 0
    ensures parts * (rest / parts) <= rest < parts * (rest / parts + 1)
  {
    assert rest == parts * (rest / parts) + rest % parts;
    assert parts * (rest / parts + 1) == parts * (rest / parts) + parts;
  }

  lemma Withdrawal(s: Launch, a: nat)
    requires DataOk(s.data) && (s.data.antiRug.Some? ==> IsAllotment(a, Held(s), s.data.antiRug.value.reserveBp))
    requires !Unresolved(s) && s.phaseThreeStarted
    ensures WithdrawFunds(s).Ok? <==> PromiseMet(s) || s.treasury == Held(s)
    ensures WithdrawFunds(s).Ok? ==>
            var paid := if PromiseMet(s) then s.treasury else a;
            WithdrawFunds(s).value ==
            s.(treasury := s.treasury - paid, snapshot := Some(Held(s)), authorityPaid := s.authorityPaid + paid)
  {
    if s.data.antiRug.Some? {
      AllotmentIsUnique(a, CapitalAllotment(s.data.antiRug.value.reserveBp, Held(s)), Held(s),
                        s.data.antiRug.value.reserveBp);
    }
  }

  /**
   Once every ticket is settled the authority may withdraw: all there is when
   its promise is met or absent, and otherwise, while nothing has left the
   treasury, the part that is not reserved.
   */
  lemma WithdrawalInFigures(data: LaunchData, start: i64, events: seq<Event>, a: nat)
    requires LaunchRun(data, start, events)
    requires var s := Reached(data, start, events);
      s.data.antiRug.Some? ==> IsAllotment(a, Held(s), s.data.antiRug.value.reserveBp)
    ensures var s := Reached(data, start, events);
      && (WithdrawFunds(s).Ok? <==>
            TicketsSettled(s) && s.phaseThreeStarted && (PromiseMet(s) || s.treasury == Held(s)))
      && (WithdrawFunds(s).Ok? ==>
            var paid := if PromiseMet(s) then s.treasury else a;
            WithdrawFunds(s).value ==
            s.(treasury := s.treasury - paid, snapshot := Some(Held(s)), authorityPaid := s.authorityPaid + paid))
  {
    ReachedInv(data, start, events);
    var s := Reached(data, start, events);
    ResolvedTickets(s);
    if !Unresolved(s) && s.phaseThreeStarted {
      Withdrawal(s, a);
    }
  }

  lemma Refunding(s: Launch, now: i64, a: nat, p: nat)
    requires DataOk(s.data) && s.data.antiRug.Some? && s.punched > 0 && !Unresolved(s) && s.phaseThreeStarted
    requires IsAllotment(a, Held(s), s.data.antiRug.value.reserveBp) && IsSlice(p, Held(s), a, s.punched)
    ensures ReceiveRefund(s, now).Ok? <==>
            && now >= s.data.antiRug.value.selfDestructDate && s.supply > 0 && s.burnedForRefunds < U64_MAX
            && s.treasury >= p
    ensures ReceiveRefund(s, now).Ok? ==>
            ReceiveRefund(s, now).value ==
            s.(treasury := s.treasury - p, snapshot := Some(Held(s)), supply := s.supply - 1,
               burnedForRefunds := s.burnedForRefunds + 1)
  {
    SliceIs(s.data.antiRug.value.reserveBp, Held(s), s.punched, a, p);
  }

  lemma SliceIs(reserveBp: u16, whole: u64, parts: u64, a: nat, p: nat)
    requires reserveBp <= 10000 && parts > 0
    requires IsAllotment(a, whole, reserveBp) && IsSlice(p, whole, a, parts)
    ensures RefundSlice(reserveBp, whole, parts) == p
  {
    AllotmentIsUnique(a, CapitalAllotment(reserveBp, whole), whole, reserveBp);
    QuotientIsSlice(whole - a, parts);
    SliceIsUnique(p, (whole - a) / parts, whole, a, parts);
  }

  /**
   Once every ticket is settled and the self-destruct date has come, anybody may
   burn a token for an equal part of the reserve, while the treasury holds one.
   */
  lemma RefundInFigures(data: LaunchData, start: i64, events: seq<Event>, now: i64, a: nat, p: nat)
    requires LaunchRun(data, start, events)
    requires var s := Reached(data, start, events);
      s.data.antiRug.Some? && s.punched > 0 ==>
        IsAllotment(a, Held(s), s.data.antiRug.value.reserveBp) && IsSlice(p, Held(s), a, s.punched)
    ensures var s := Reached(data, start, events);
      && (ReceiveRefund(s, now).Ok? <==>
            && TicketsSettled(s) && s.phaseThreeStarted
            && s.data.antiRug.Some? && now >= s.data.antiRug.value.selfDestructDate
            && s.punched > 0 && s.supply > 0 && s.burnedForRefunds < U64_MAX
            && s.treasury >= p)
      && (ReceiveRefund(s, now).Ok? ==>
            ReceiveRefund(s, now).value ==
            s.(treasury := s.treasury - p, snapshot := Some(Held(s)), supply := s.supply - 1,
               burnedForRefunds := s.burnedForRefunds + 1))
  {
    ReachedInv(data, start, events);
    var s := Reached(data, start, events);
    ResolvedTickets(s);
    if s.data.antiRug.Some? && s.punched > 0 && !Unresolved(s) && s.phaseThreeStarted {
      Refunding(s, now, a, p);
    }
  }

  // ---------------------------------------------------------------------------
  // Refusals

  /** Why an open ticket's adjustment is refused before phase three: by whom, when, and at what amount. */
  lemma EarlyRefusal(s: Launch, buyer: Pubkey, amount: u64, signed: bool, funds: u64, now: i64)
    requires !s.phaseThreeStarted && buyer in s.tickets && s.tickets[buyer].state == Unpunched
    ensures var r := AdjustTicket(s, buyer, amount, signed, funds, now);
      && (r == Err(DuringPhaseTwoAndOneBuyerMustBeSigner) <==> !signed)
      && (r == Err(PhaseTwoEnded) <==> signed && now > s.data.phaseTwoEnd)
      && (s.data.tickSize > 0 ==>
            (r == Err(InvalidPurchaseAmount) <==> signed && now <= s.data.phaseTwoEnd && !AmountFits(s, amount)))
  {
  }

  /** Which of the three phase-three rules an adjustment breaks; won says whether the ticket's bit is set. */
  lemma RuleBroken(s: Launch, t: Ticket, amount: u64, signed: bool, now: i64, won: bool)
    requires s.phaseThreeStarted && s.lottery.Some? && IsWinner(s.lottery.value.bytes, t.number) == Some(won)
    ensures AdjustmentAllowed(s, t, amount, signed, now) ==
            if t.amount < s.median then
              if amount == 0 then Pass else Fail(CanOnlySubmitZeroDuringPhaseThree)
            else if won then
              if amount == s.median then Pass else Fail(CanOnlySubmitDifferenceDuringPhaseThree)
            else
              if amount == 0 then Pass else Fail(DidNotWinLotteryCanOnlyWithdraw)
  {
  }

  lemma RuleFirst(s: Launch, buyer: Pubkey, amount: u64, signed: bool, funds: u64, now: i64)
    requires buyer in s.tickets && s.tickets[buyer].state == Unpunched
    ensures AdjustmentAllowed(s, s.tickets[buyer], amount, signed, now).Fail? ==>
            AdjustTicket(s, buyer, amount, signed, funds, now) ==
            Err(AdjustmentAllowed(s, s.tickets[buyer], amount, signed, now).error)
  {
  }

  /** And in phase three. */
  lemma LateRefusal(s: Launch, buyer: Pubkey, amount: u64, signed: bool, funds: u64, now: i64)
    requires Late(s) && buyer in s.tickets && s.tickets[buyer].state == Unpunched
    ensures var r, t := AdjustTicket(s, buyer, amount, signed, funds, now), s.tickets[buyer];
      && (t.amount < s.median && amount != 0 ==> r == Err(CanOnlySubmitZeroDuringPhaseThree))
      && (t.amount >= s.median && t.number in SetBits(s) && amount != s.median ==>
            r == Err(CanOnlySubmitDifferenceDuringPhaseThree))
      && (t.amount >= s.median && t.number !in SetBits(s) && amount != 0 ==> r == Err(DidNotWinLotteryCanOnlyWithdraw))
  {
    var t := s.tickets[buyer];
    NumberHasBit(s, buyer);
    IsWinnerIsBit(s.lottery.value.bytes, t.number);
    RuleBroken(s, t, amount, signed, now, t.number in SetBits(s));
    RuleFirst(s, buyer, amount, signed, funds, now);
  }

  /** Why the authority is paid nothing. */
  lemma WithdrawalRefusal(data: LaunchData, start: i64, events: seq<Event>)
    requires LaunchRun(data, start, events) && WithdrawFunds(Reached(data, start, events)).Err?
    ensures var s := Reached(data, start, events);
      WithdrawFunds(s).error ==
        if !TicketsSettled(s) then CannotCashOutUntilAllRefundsAndPunchesHaveBeenProcessed
        else if !s.phaseThreeStarted then CannotCashOutUntilPhaseThree
        else AlreadyWithdrawnCapitalAlotment
  {
    ReachedInv(data, start, events);
    ResolvedTickets(Reached(data, start, events));
    WithdrawalRefused(Reached(data, start, events));
  }

  lemma WithdrawalRefused(s: Launch)
    requires DataOk(s.data) && WithdrawFunds(s).Err?
    ensures WithdrawFunds(s).error ==
            if Unresolved(s) then CannotCashOutUntilAllRefundsAndPunchesHaveBeenProcessed
            else if !s.phaseThreeStarted then CannotCashOutUntilPhaseThree
            else AlreadyWithdrawnCapitalAlotment
  {
  }

  /** Why a holder is, in this order. */
  lemma RefundRefusal(data: LaunchData, start: i64, events: seq<Event>, now: i64)
    requires LaunchRun(data, start, events)
    ensures var s := Reached(data, start, events);
      ReceiveRefund(s, now).Err? ==>
        && (!TicketsSettled(s) ==>
              ReceiveRefund(s, now).error == CannotRefundUntilAllTicketsHaveBeenPunchedOrDropped)
        && (TicketsSettled(s) && !s.phaseThreeStarted ==> ReceiveRefund(s, now).error == CannotRefundUntilPhaseThree)
        && (TicketsSettled(s) && s.phaseThreeStarted && s.supply == 0 && s.burnedForRefunds < U64_MAX ==>
              ReceiveRefund(s, now).error == TokenBurnFailed)
  {
    ReachedInv(data, start, events);
    ResolvedTickets(Reached(data, start, events));
  }

  /** Why phase three does not start. */
  lemma StartRefusal(data: LaunchData, start: i64, events: seq<Event>)
    requires LaunchRun(data, start, events) && StartPhaseThree(Reached(data, start, events)).Err?
    ensures var s := Reached(data, start, events);
      StartPhaseThree(s).error ==
        if s.lottery.None? then AccountMissing else LotteryBitmapOnesMustEqualNumberOfTicketsSold
  {
    SupplyNeverExceedsTokens(data, start, events);
  }
}
