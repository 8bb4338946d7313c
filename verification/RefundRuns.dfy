/** Whether every token of a finished launch is still good for a refund, preminted ones included. */
module RefundRuns {
  import opened Prelude
  import opened FairLaunchErrors
  import opened Histogram
  import opened LotteryBitmap
  import opened FairLaunch
  import opened LaunchInvariant
  import opened LaunchSteps
  import opened LaunchTheorems
  import opened AntiRug

  /** Every ticket is dropped or punched, and the launch promises refunds. */
  ghost predicate Settled(s: Launch) {
    && Inv(s) && ReserveKept(s)
    && s.data.antiRug.Some? && s.phaseThreeStarted && !Unresolved(s)
  }

  function SliceOf(s: Launch): u64
    requires DataOk(s.data) && s.data.antiRug.Some?
  {
    Slice(s.data, Held(s), s.punched)
  }

  /** What the authority may still withdraw before its promise is met: the allotment, if nothing has been paid out. */
  function OpenAllotment(s: Launch): u64
    requires DataOk(s.data) && s.data.antiRug.Some?
  {
    if s.treasury == Held(s) && s.supply > s.data.antiRug.value.tokenRequirement then Allotment(s.data, Held(s)) else 0
  }

  /** A slice for every token there is, and the allotment, are in the treasury; and the counter of refunds has room. */
  ghost predicate AllCovered(s: Launch)
    requires DataOk(s.data) && s.data.antiRug.Some?
  {
    s.supply > 0 ==>
      && s.punched > 0
      && s.burnedForRefunds + s.supply <= U64_MAX
      && SliceOf(s) * s.supply + OpenAllotment(s) <= s.treasury
  }

  ghost predicate NoMint(events: seq<Event>) {
    forall i :: 0 <= i < |events| ==> !events[i].ix.Mint?
  }

  /** After these events somebody who holds a token asks for a refund in time, and is refused. */
  ghost predicate ShutsOut(s: Launch, events: seq<Event>, now: i64)
    requires s.data.antiRug.Some?
  {
    && PromiseOpenRun(s, events) && NoMint(events)
    && now >= s.data.antiRug.value.selfDestructDate
    && Run(s, events).supply > 0 && ReceiveRefund(Run(s, events), now).Err?
  }

  ghost predicate EveryTokenRefundable(s: Launch)
    requires s.data.antiRug.Some?
  {
    forall events: seq<Event>, now: i64 :: !ShutsOut(s, events, now)
  }

  // ---------------------------------------------------------------------------
  // Steps

  /** With every ticket resolved in phase three, other instructions only rewrite the bitmap. */
  lemma OtherStep(s: Launch, e: Event)
    requires s.data.phaseOneStart < s.data.phaseOneEnd < e.now && AllResolved(s.tickets)
    requires s.phaseThreeStarted && s.lottery.Some?
    requires !e.ix.Withdraw? && !e.ix.Refund? && !e.ix.Mint? && !e.ix.Burn?
    ensures Step(s, e) == s.(clock := e.now, lottery := Step(s, e).lottery)
  {
  }

  lemma SettledFacts(s: Launch)
    requires Settled(s)
    ensures s.data.phaseOneStart < s.data.phaseOneEnd < s.clock && AllResolved(s.tickets)
    ensures s.lottery.Some? && s.treasury <= Held(s)
  {
    ResolvedTickets(s);
  }

  /** What a step can change of a settled launch's money. */
  ghost predicate MoneyMoves(s: Launch, e: Event, r: Launch)
    requires DataOk(s.data) && s.data.antiRug.Some?
  {
    && r.data == s.data && r.phaseThreeStarted == s.phaseThreeStarted && Held(r) == Held(s)
    && r.sold == s.sold && r.dropped == s.dropped && r.punched == s.punched
    && if e.ix.Refund? && ReceiveRefund(s, e.now).Ok? then
         && r.supply == s.supply - 1 && r.treasury == s.treasury - SliceOf(s)
         && r.burnedForRefunds == s.burnedForRefunds + 1
       else if e.ix.Withdraw? then
         && r.supply == s.supply && r.burnedForRefunds == s.burnedForRefunds
         && (r.treasury == s.treasury || r.treasury == s.treasury - OpenAllotment(s))
       else
         r.supply <= s.supply && r.treasury == s.treasury && r.burnedForRefunds == s.burnedForRefunds
  }

  lemma RefundMoves(s: Launch, e: Event)
    requires DataOk(s.data) && s.data.antiRug.Some? && e.ix.Refund?
    ensures MoneyMoves(s, e, Step(s, e))
  {
    var p := s.(clock := e.now);
    assert ReceiveRefund(p, e.now).Ok? <==> ReceiveRefund(s, e.now).Ok?;
    if ReceiveRefund(p, e.now).Ok? {
      RefundTakesSlice(p);
      assert Step(s, e).supply == s.supply - 1;
    }
  }

  lemma WithdrawMoves(s: Launch, e: Event)
    requires DataOk(s.data) && s.data.antiRug.Some? && e.ix.Withdraw?
    requires s.supply > s.data.antiRug.value.tokenRequirement
    ensures MoneyMoves(s, e, Step(s, e))
  {
    var p := s.(clock := e.now);
    if WithdrawFunds(p).Ok? {
      WithdrawTakesAllotment(p);
    }
  }

  lemma BurnMoves(s: Launch, e: Event)
    requires DataOk(s.data) && s.data.antiRug.Some? && e.ix.Burn?
    ensures MoneyMoves(s, e, Step(s, e))
  {
  }

  lemma OtherMoves(s: Launch, e: Event, r: Launch)
    requires DataOk(s.data) && s.data.antiRug.Some? && r == Step(s, e)
    requires s.data.phaseOneStart < s.data.phaseOneEnd < e.now && AllResolved(s.tickets)
    requires s.phaseThreeStarted && s.lottery.Some?
    requires !e.ix.Withdraw? && !e.ix.Refund? && !e.ix.Mint? && !e.ix.Burn?
    ensures MoneyMoves(s, e, r)
  {
    OtherStep(s, e);
  }

  lemma StepMoves(s: Launch, e: Event)
    requires Settled(s) && PromiseOpen(s, e) && !e.ix.Mint?
    ensures MoneyMoves(s, e, Step(s, e))
  {
    SettledFacts(s);
    if e.ix.Refund? {
      RefundMoves(s, e);
    } else if e.ix.Withdraw? {
      WithdrawMoves(s, e);
    } else if e.ix.Burn? {
      BurnMoves(s, e);
    } else {
      OtherMoves(s, e, Step(s, e));
    }
  }

  lemma SameGate(s: Launch, r: Launch)
    requires r.sold == s.sold && r.dropped == s.dropped && r.punched == s.punched
    ensures Unresolved(r) <==> Unresolved(s)
  {
  }

  lemma StepKeepsSettled(s: Launch, e: Event, r: Launch)
    requires Settled(s) && PromiseOpen(s, e) && !e.ix.Mint? && r == Step(s, e)
    ensures Settled(r) && r.data == s.data && MoneyMoves(s, e, r)
  {
    StepMoves(s, e);
    SameGate(s, r);
    assert Inv(r) && ReserveKept(r) by { StepKeepsReserve(s, e); }
  }

  lemma OneLess(slice: nat, n: nat)
    requires n > 0
    ensures slice * n == slice * (n - 1) + slice
  {
  }

  lemma Fewer(slice: nat, fewer: nat, n: nat)
    requires fewer <= n
    ensures slice * fewer <= slice * n
  {
    assert slice * n == slice * fewer + slice * (n - fewer);
  }

  lemma MovesKeepCovered(s: Launch, e: Event, r: Launch)
    requires DataOk(s.data) && s.data.antiRug.Some? && s.treasury <= Held(s)
    requires MoneyMoves(s, e, r) && AllCovered(s)
    ensures AllCovered(r)
  {
    if r.supply > 0 {
      if e.ix.Refund? && ReceiveRefund(s, e.now).Ok? {
        OneLess(SliceOf(s), s.supply);
      } else {
        Fewer(SliceOf(s), r.supply, s.supply);
      }
    }
  }

  // ---------------------------------------------------------------------------
  // Covered: nobody is shut out

  lemma CoveredRefund(s: Launch, now: i64)
    requires Settled(s) && AllCovered(s) && s.supply > 0
    requires now >= s.data.antiRug.value.selfDestructDate
    ensures ReceiveRefund(s, now).Ok?
  {
    OneLess(SliceOf(s), s.supply);
    Fewer(SliceOf(s), 0, s.supply - 1);
  }

  lemma {:induction false} RunKeepsCovered(s: Launch, events: seq<Event>)
    requires Settled(s) && AllCovered(s) && PromiseOpenRun(s, events) && NoMint(events)
    ensures Settled(Run(s, events)) && AllCovered(Run(s, events)) && Run(s, events).data == s.data
    decreases |events|
  {
    if events != [] {
      var last := |events| - 1;
      RunKeepsCovered(s, events[..last]);
      StepKeepsCovered(Run(s, events[..last]), events[last], Run(s, events));
    }
  }

  lemma StepKeepsCovered(s: Launch, e: Event, r: Launch)
    requires Settled(s) && AllCovered(s) && PromiseOpen(s, e) && !e.ix.Mint? && r == Step(s, e)
    ensures Settled(r) && AllCovered(r) && r.data == s.data
  {
    SettledFacts(s);
    StepKeepsSettled(s, e, r);
    MovesKeepCovered(s, e, r);
  }

  // ---------------------------------------------------------------------------
  // Not covered: somebody is shut out

  /** The slices alone are too many. */
  ghost predicate Short(s: Launch)
    requires DataOk(s.data) && s.data.antiRug.Some?
  {
    && s.supply > 0
    && (s.punched == 0 || s.burnedForRefunds + s.supply > U64_MAX || SliceOf(s) * s.supply > s.treasury)
  }

  lemma RefundKeepsShort(s: Launch, e: Event, r: Launch)
    requires DataOk(s.data) && s.data.antiRug.Some? && e.ix.Refund? && ReceiveRefund(s, e.now).Ok?
    requires MoneyMoves(s, e, r) && Short(s)
    ensures Short(r)
  {
    OneLess(SliceOf(s), s.supply);
  }

  /** These promise-open events without a mint lead from s0 to s. */
  ghost predicate LeadsTo(s0: Launch, events: seq<Event>, s: Launch) {
    PromiseOpenRun(s0, events) && NoMint(events) && Run(s0, events) == s
  }

  lemma Longer(s0: Launch, events: seq<Event>, s: Launch, e: Event, more: seq<Event>)
    requires LeadsTo(s0, events, s) && PromiseOpen(s, e) && !e.ix.Mint? && more == events + [e]
    ensures LeadsTo(s0, more, Step(s, e))
  {
    assert more[..|more| - 1] == events;
  }

  /** Refunds are paid until one fails. */
  lemma {:induction false} Exhaust(s0: Launch, events: seq<Event>, s: Launch, now: i64) returns (more: seq<Event>)
    requires LeadsTo(s0, events, s) && Settled(s) && Short(s) && s.data == s0.data
    requires now >= s.clock && now >= s.data.antiRug.value.selfDestructDate
    ensures ShutsOut(s0, more, now)
    decreases s.supply
  {
    more := events;
    if ReceiveRefund(s, now).Ok? {
      var r := OneRefund(s0, events, s, Event(now, Refund), events + [Event(now, Refund)]);
      more := Exhaust(s0, events + [Event(now, Refund)], r, now);
    }
  }

  lemma OneRefund(s0: Launch, events: seq<Event>, s: Launch, e: Event, more: seq<Event>) returns (r: Launch)
    requires LeadsTo(s0, events, s) && Settled(s) && Short(s) && s.clock <= e.now && more == events + [e]
    requires e.ix.Refund? && ReceiveRefund(s, e.now).Ok?
    ensures LeadsTo(s0, more, r) && Settled(r) && Short(r) && r.data == s.data && r.clock == e.now
    ensures r.supply < s.supply
  {
    r := Step(s, e);
    StepKeepsSettled(s, e, r);
    RefundKeepsShort(s, e, r);
    Longer(s0, events, s, e, more);
    StepClock(s, e);
  }

  lemma StepClock(s: Launch, e: Event)
    ensures Step(s, e).clock == e.now
  {
  }

  /** The authority takes its allotment. */
  lemma TakeAllotment(s: Launch, e: Event)
    requires DataOk(s.data) && s.data.antiRug.Some? && s.phaseThreeStarted && !Unresolved(s) && e.ix.Withdraw?
    requires s.treasury == Held(s) && s.supply > s.data.antiRug.value.tokenRequirement
    ensures Step(s, e).treasury == s.treasury - OpenAllotment(s) && Step(s, e).supply == s.supply
  {
    var p := s.(clock := e.now);
    CanWithdraw(p);
    WithdrawTakesAllotment(p);
  }

  lemma CanWithdraw(s: Launch)
    requires DataOk(s.data) && s.data.antiRug.Some? && s.phaseThreeStarted && !Unresolved(s)
    requires s.treasury == Held(s) && s.supply > s.data.antiRug.value.tokenRequirement
    ensures WithdrawFunds(s).Ok?
  {
  }

  lemma SomebodyShutOut(s: Launch) returns (events: seq<Event>, now: i64)
    requires Settled(s) && !AllCovered(s)
    ensures ShutsOut(s, events, now)
  {
    var date := s.data.antiRug.value.selfDestructDate;
    now := if s.clock >= date then s.clock else date;
    if Short(s) {
      events := Exhaust(s, [], s, now);
    } else {
      var r := AllotmentTaken(s, Event(now, Withdraw), [] + [Event(now, Withdraw)]);
      events := Exhaust(s, [] + [Event(now, Withdraw)], r, now);
    }
  }

  lemma AllotmentTaken(s: Launch, e: Event, more: seq<Event>) returns (r: Launch)
    requires Settled(s) && !AllCovered(s) && !Short(s)
    requires e.ix.Withdraw? && s.clock <= e.now && more == [] + [e]
    ensures LeadsTo(s, more, r) && Settled(r) && Short(r) && r.data == s.data && r.clock == e.now
  {
    r := Step(s, e);
    StepKeepsSettled(s, e, r);
    TakeAllotment(s, e);
    Longer(s, [], s, e, more);
    StepClock(s, e);
  }

  // ---------------------------------------------------------------------------
  // The theorem

  lemma EveryTokenRefundableIff(s: Launch)
    requires Settled(s)
    ensures EveryTokenRefundable(s) <==> AllCovered(s)
  {
    if AllCovered(s) {
      forall events: seq<Event>, now: i64
        ensures !ShutsOut(s, events, now)
      {
        if ShutsOut(s, events, now) {
          RunKeepsCovered(s, events);
          CoveredRefund(Run(s, events), now);
          assert false;
        }
      }
    } else {
      var events, now := SomebodyShutOut(s);
    }
  }

  /**
   After any run in which the authority keeps to its allotment and every ticket
   is resolved, no holder of a token can be shut out, however refunds, burns
   and the authority's withdrawal follow, exactly when the treasury holds a
   slice for every token there is and the allotment if that is still open.
   */
  lemma RefundsCoveredIff(data: LaunchData, start: i64, events: seq<Event>)
    requires data.priceRangeStart > 0 && InitializeFairLaunch(data, start).Ok?
    requires PromiseOpenRun(InitializeFairLaunch(data, start).value, events)
    requires var s := Run(InitializeFairLaunch(data, start).value, events);
      s.data.antiRug.Some? && s.phaseThreeStarted && !Unresolved(s)
    ensures var s := Run(InitializeFairLaunch(data, start).value, events);
      DataOk(s.data) && (EveryTokenRefundable(s) <==> AllCovered(s))
  {
    InitializeGivesInv(data, start);
    var s0 := InitializeFairLaunch(data, start).value;
    BeforeSnapshot(s0);
    RunKeepsReserve(s0, events);
    EveryTokenRefundableIff(Run(s0, events));
  }

  /** It is enough that no more tokens were ever handed out, burned for refunds or left, than tickets were punched. */
  lemma PunchedTokensCovered(s: Launch)
    requires Settled(s) && s.supply + s.burnedForRefunds <= s.punched
    ensures AllCovered(s)
  {
    if s.supply > 0 {
      SlicesFit(s.data, Held(s), s.punched);
      Enough(SliceOf(s), s.supply, s.burnedForRefunds, s.punched, Held(s), Allotment(s.data, Held(s)), s.authorityPaid,
             s.treasury, OpenAllotment(s));
    }
  }

  lemma Enough(slice: nat, supply: nat, burned: nat, punched: nat, held: nat, allotment: nat, paid: nat, treasury: nat,
               open: nat)
    requires supply + burned <= punched && Ticks(slice, punched) <= held - allotment
    requires (paid == 0 || paid == allotment) && treasury + paid + Ticks(slice, burned) == held
    requires open == 0 || (open == allotment && treasury == held)
    ensures slice * supply + open <= treasury
  {
    TicksIsProduct(slice, punched);
    TicksIsProduct(slice, burned);
    SlicesLeft(slice, supply, burned, punched, slice * supply, slice * burned, slice * punched);
  }

  lemma SlicesLeft(slice: nat, supply: nat, burned: nat, punched: nat, left: nat, gone: nat, all: nat)
    requires supply + burned <= punched
    requires left == slice * supply && gone == slice * burned && all == slice * punched
    ensures left + gone <= all
  {
    Fewer(slice, supply + burned, punched);
    assert slice * (supply + burned) == left + gone;
  }
}
