/** The anti-rug reserve: what withdrawals and refunds can take out of a launch's treasury. */
module AntiRug {
  import opened Prelude
  import opened FairLaunchErrors
  import opened Histogram
  import opened LotteryBitmap
  import opened FairLaunch
  import opened LaunchInvariant
  import opened LaunchSteps
  import opened LaunchTheorems

  function Allotment(d: LaunchData, held: u64): u64
    requires DataOk(d) && d.antiRug.Some?
  {
    CapitalAllotment(d.antiRug.value.reserveBp, held)
  }

  function Slice(d: LaunchData, held: u64, punched: u64): u64
    requires DataOk(d) && d.antiRug.Some?
  {
    if punched == 0 then 0 else RefundSlice(d.antiRug.value.reserveBp, held, punched)
  }

  /** The authority withdraws only while it has not met its promise. */
  ghost predicate PromiseOpen(s: Launch, e: Event) {
    && WellBehaved(s, e)
    && (e.ix.Withdraw? ==> s.data.antiRug.Some? && s.supply > s.data.antiRug.value.tokenRequirement)
  }

  /** What has left the treasury since the snapshot: at most one allotment, and one slice a refund. */
  ghost predicate ReserveKept(s: Launch)
    requires DataOk(s.data)
  {
    s.data.antiRug.Some? ==>
      && (s.authorityPaid == 0 || s.authorityPaid == Allotment(s.data, Held(s)))
      && s.treasury + s.authorityPaid + Ticks(Slice(s.data, Held(s), s.punched), s.burnedForRefunds) == Held(s)
  }

  /** Before the snapshot nothing has left. */
  lemma BeforeSnapshot(s: Launch)
    requires Inv(s) && s.snapshot.None?
    ensures ReserveKept(s)
  {
  }

  lemma WithdrawTakesAllotment(s: Launch)
    requires DataOk(s.data) && s.data.antiRug.Some? && s.supply > s.data.antiRug.value.tokenRequirement
    requires WithdrawFunds(s).Ok?
    ensures var r := WithdrawFunds(s).value;
      && s.treasury == Held(s)
      && r.data == s.data && r.punched == s.punched && r.burnedForRefunds == s.burnedForRefunds
      && r.snapshot == Some(Held(s))
      && r.authorityPaid == s.authorityPaid + Allotment(s.data, Held(s))
      && r.treasury == s.treasury - Allotment(s.data, Held(s))
  {
  }

  lemma WithdrawKeepsReserve(s: Launch)
    requires DataOk(s.data) && ReserveKept(s) && s.data.antiRug.Some?
    requires s.supply > s.data.antiRug.value.tokenRequirement
    requires WithdrawFunds(s).Ok?
    ensures ReserveKept(WithdrawFunds(s).value)
  {
    WithdrawTakesAllotment(s);
  }

  lemma RefundTakesSlice(s: Launch)
    requires DataOk(s.data) && s.data.antiRug.Some? && ReceiveRefund(s, s.clock).Ok?
    ensures var r := ReceiveRefund(s, s.clock).value;
      && r.data == s.data && r.punched == s.punched && r.burnedForRefunds == s.burnedForRefunds + 1
      && r.snapshot == Some(Held(s))
      && r.authorityPaid == s.authorityPaid
      && r.treasury == s.treasury - Slice(s.data, Held(s), s.punched)
  {
  }

  lemma RefundKeepsReserve(s: Launch)
    requires DataOk(s.data) && ReserveKept(s) && s.data.antiRug.Some?
    requires ReceiveRefund(s, s.clock).Ok?
    ensures ReserveKept(ReceiveRefund(s, s.clock).value)
  {
    RefundTakesSlice(s);
  }

  /** The part of the state that the reserve depends on. */
  ghost predicate SameMoney(s: Launch, r: Launch) {
    && Held(r) == Held(s) && r.treasury == s.treasury && r.authorityPaid == s.authorityPaid
    && r.punched == s.punched && r.burnedForRefunds == s.burnedForRefunds
    && r.data.antiRug == s.data.antiRug
  }

  /** With every ticket resolved, only withdrawals and refunds touch the money or what the slice depends on. */
  lemma MoneyFrozen(s: Launch, e: Event)
    requires s.snapshot.Some? && s.data.phaseOneStart < s.data.phaseOneEnd < e.now
    requires AllResolved(s.tickets)
    requires !e.ix.Withdraw? && !e.ix.Refund?
    ensures SameMoney(s, Step(s, e))
  {
  }

  /** Only a withdrawal or a refund takes the snapshot. */
  lemma NoSnapshotYet(s: Launch, e: Event)
    requires !e.ix.Withdraw? && !e.ix.Refund?
    ensures Step(s, e).snapshot == s.snapshot
  {
  }

  lemma OtherStepKeepsReserve(s: Launch, e: Event)
    requires Inv(s) && s.clock <= e.now && ReserveKept(s)
    requires !e.ix.Withdraw? && !e.ix.Refund?
    requires Inv(Step(s, e))
    ensures ReserveKept(Step(s, e))
  {
    NoSnapshotYet(s, e);
    if s.snapshot.Some? {
      ResolvedTickets(s);
      MoneyFrozen(s, e);
    } else {
      BeforeSnapshot(Step(s, e));
    }
  }

  lemma CashStepKeepsReserve(s: Launch, e: Event)
    requires DataOk(s.data) && ReserveKept(s)
    requires e.ix.Refund? || (e.ix.Withdraw? && s.data.antiRug.Some? &&
                                s.supply > s.data.antiRug.value.tokenRequirement)
    ensures DataOk(Step(s, e).data) && ReserveKept(Step(s, e))
  {
    var p := s.(clock := e.now);
    if e.ix.Withdraw? && WithdrawFunds(p).Ok? {
      WithdrawKeepsReserve(p);
    } else if e.ix.Refund? && ReceiveRefund(p, e.now).Ok? {
      RefundKeepsReserve(p);
    }
  }

  lemma StepKeepsReserve(s: Launch, e: Event)
    requires Inv(s) && PromiseOpen(s, e) && ReserveKept(s)
    ensures Inv(Step(s, e)) && ReserveKept(Step(s, e))
  {
    StepKeepsInv(s, e);
    if e.ix.Withdraw? || e.ix.Refund? {
      CashStepKeepsReserve(s, e);
    } else {
      OtherStepKeepsReserve(s, e);
    }
  }

  ghost predicate PromiseOpenRun(s: Launch, events: seq<Event>)
    decreases |events|
  {
    |events| > 0 ==>
      && PromiseOpenRun(s, events[..|events| - 1])
      && PromiseOpen(Run(s, events[..|events| - 1]), events[|events| - 1])
  }

  lemma {:induction false} RunKeepsReserve(s: Launch, events: seq<Event>)
    requires Inv(s) && ReserveKept(s) && PromiseOpenRun(s, events)
    ensures Inv(Run(s, events)) && ReserveKept(Run(s, events))
    ensures WellBehavedRun(s, events)
    decreases |events|
  {
    if |events| > 0 {
      var last := |events| - 1;
      RunKeepsReserve(s, events[..last]);
      StepKeepsReserve(Run(s, events[..last]), events[last]);
    }
  }

  lemma SlicesFit(d: LaunchData, held: u64, punched: u64)
    requires DataOk(d) && d.antiRug.Some?
    ensures Ticks(Slice(d, held, punched), punched) <= held - Allotment(d, held)
  {
    if punched > 0 {
      TicksIsProduct(Slice(d, held, punched), punched);
      QuotientTimes(held - Allotment(d, held), punched);
    }
  }

  lemma QuotientTimes(whole: nat, parts: nat)
    requires parts > 0
    ensures whole / parts * parts <= whole
  {
  }

  ghost predicate Solvent(s: Launch)
    requires DataOk(s.data)
  {
    s.data.antiRug.Some? ==>
      && s.authorityPaid <= Allotment(s.data, Held(s))
      && s.treasury == Held(s) - s.authorityPaid - Slice(s.data, Held(s), s.punched) * s.burnedForRefunds
      && (s.burnedForRefunds < s.punched ==> s.treasury >= Slice(s.data, Held(s), s.punched))
  }

  lemma ReserveCovers(s: Launch)
    requires DataOk(s.data) && ReserveKept(s)
    ensures Solvent(s)
  {
    if s.data.antiRug.Some? {
      var slice := Slice(s.data, Held(s), s.punched);
      TicksIsProduct(slice, s.burnedForRefunds);
      SlicesFit(s.data, Held(s), s.punched);
      if s.burnedForRefunds < s.punched {
        TicksMonotone(slice, s.burnedForRefunds + 1, s.punched);
      }
    }
  }

  /**
   While the authority has not met its promise it takes at most one allotment,
   however withdrawals and refunds interleave, and each of as many refunds as
   there are punched tickets is covered.
   */
  lemma ReserveSolvent(data: LaunchData, start: i64, events: seq<Event>)
    requires data.priceRangeStart > 0 && InitializeFairLaunch(data, start).Ok?
    requires PromiseOpenRun(InitializeFairLaunch(data, start).value, events)
    ensures var s := Run(InitializeFairLaunch(data, start).value, events);
      DataOk(s.data) && Solvent(s)
  {
    InitializeGivesInv(data, start);
    var s0 := InitializeFairLaunch(data, start).value;
    BeforeSnapshot(s0);
    RunKeepsReserve(s0, events);
    ReserveCovers(Run(s0, events));
  }

  /** Hence a refund due to a punched ticket succeeds exactly when the self-destruct date has come, given a token. */
  lemma RefundSucceedsWhen(data: LaunchData, start: i64, events: seq<Event>, now: i64)
    requires data.priceRangeStart > 0 && InitializeFairLaunch(data, start).Ok?
    requires PromiseOpenRun(InitializeFairLaunch(data, start).value, events)
    requires var s := Run(InitializeFairLaunch(data, start).value, events);
      s.data.antiRug.Some? && s.phaseThreeStarted && !Unresolved(s) && s.burnedForRefunds < s.punched
    ensures var s := Run(InitializeFairLaunch(data, start).value, events);
      ReceiveRefund(s, now).Ok? <==> now >= s.data.antiRug.value.selfDestructDate && s.supply > 0
  {
    ReserveSolvent(data, start, events);
  }

  /** The snapshot, once taken, never changes. */
  lemma SnapshotStays(s: Launch, e: Event)
    requires s.snapshot.Some?
    ensures Step(s, e).snapshot == s.snapshot
  {
  }
}
