/**
 A concrete launch that locks: its only token is minted before the sale, so both
 bidders lose, and the median of a split counts one of them.
 */
module LockedScenario {
  import opened Prelude
  import opened FairLaunchErrors
  import opened MapSums
  import opened Histogram
  import opened Bits
  import opened LotteryBitmap
  import opened FairLaunch
  import opened LaunchInvariant
  import opened LaunchSteps
  import opened LaunchCounterexamples
  import opened LaunchScenarios
  import opened LaunchTheorems
  import opened PhaseThree
  import opened PhaseThreeRuns
  import opened PhaseThreeTheorems

  function Preminted(tickets: map<Pubkey, Ticket>, sold: u64, counts: seq<u64>, treasury: u64, lottery: Option<Lottery>,
                     started: bool, now: i64): Launch {
    Launch(OneToken(), sold, sold, 0, 0, 0, 1, started, None, if sold == 0 then 0 else 1, if sold == 0 then 0 else 1,
           counts, tickets, lottery, 1, treasury, 0, now)
  }

  function AliceAlone(): map<Pubkey, Ticket> {
    map[ALICE := Ticket(1, NoSequenceStruct, 0)]
  }

  function Split(): map<Pubkey, Ticket> {
    AliceAlone()[BOB := Ticket(2, NoSequenceStruct, 1)]
  }

  lemma Premints(s: Launch, r: Launch)
    requires s == Start() && r == Preminted(map[], 0, [0, 0], 0, None, false, 0)
    ensures Step(s, Event(0, Mint(1))) == r
  {
  }

  lemma BinsAfter(d: LaunchData, counts: seq<u64>, amount: u64, p: nat, bins: seq<u64>)
    requires d == OneToken() && amount == p + 1 && p < |counts| && counts[p] < U64_MAX
    requires bins == counts[p := counts[p] + 1]
    ensures InsertBid(d, counts, amount) == Ok(bins)
  {
    BinOfUnit(d, amount);
    InsertAt(d, counts, amount, p);
  }

  lemma InsertAt(d: LaunchData, counts: seq<u64>, amount: u64, p: nat)
    requires d.tickSize > 0 && d.priceRangeStart <= amount && BinOf(d, amount) == p
    requires p < |counts| && counts[p] < U64_MAX
    ensures InsertBid(d, counts, amount) == Ok(counts[p := counts[p] + 1])
  {
  }

  lemma BinOfUnit(d: LaunchData, amount: u64)
    requires d == OneToken()
    ensures BinOf(d, amount) == amount - 1
  {
  }

  lemma MayBuy(d: LaunchData, median: u64, sold: u64, amount: u64)
    requires d == OneToken() && 1 <= amount <= 2 && sold < 10
    ensures PurchaseAllowed(d, median, sold, sold, false, amount, 0) == Pass
  {
  }

  lemma AliceBids(s: Launch, r: Launch, empty: seq<u64>, bins: seq<u64>, one: u64)
    requires one == 1 && empty == [0, 0] && bins == [one, 0]
    requires s == Preminted(map[], 0, empty, 0, None, false, 0)
    requires r == Preminted(AliceAlone(), 1, bins, 1, None, false, 0)
    ensures Apply(s, Event(0, Purchase(ALICE, 1, 1))) == Ok(r)
  {
    FirstBinTally(one);
    assert bins == empty[0 := one];
    BinsAfter(s.data, empty, 1, 0, bins);
    MayBuy(s.data, s.median, s.sold, 1);
    PurchaseIs(s, ALICE, 1, bins, Tally(1, 1), r);
  }

  lemma SplitTally(counts: seq<u64>)
    requires counts == [1, 1]
    ensures MeasureSpec(counts, 1, 1) == Some(Tally(1, 1))
  {
    OneInEachBin(counts);
  }

  lemma BobBids(s: Launch, r: Launch, before: seq<u64>, bins: seq<u64>)
    requires before == [1, 0] && bins == [1, 1]
    requires s == Preminted(AliceAlone(), 1, before, 1, None, false, 0)
    requires r == Preminted(Split(), 2, bins, 3, None, false, 0)
    ensures Apply(s, Event(0, Purchase(BOB, 2, 2))) == Ok(r)
  {
    SplitTally(bins);
    assert bins == before[1 := before[1] + 1];
    BinsAfter(s.data, s.counts, 2, 1, bins);
    MayBuy(s.data, s.median, s.sold, 2);
    PurchaseIs(s, BOB, 2, bins, Tally(1, 1), r);
  }

  lemma BitmapCreated(s: Launch, r: Launch, empty: Lottery)
    requires s.lottery.None? && s.clock == 0 && s.data.phaseTwoEnd == 20
    requires empty == Lottery(Zeros(s.sold / 8 + 1), 0) && r == s.(lottery := Some(empty), clock := 20)
    ensures Step(s, Event(20, CreateBitmap)) == r
  {
  }

  lemma NobodyIsNamed(s: Launch, r: Launch)
    requires s.lottery.Some? && s.lottery.value.ones == 0 && s.supply == s.data.numberOfTokens && s.clock == 20
    requires r == s.(phaseThreeStarted := true)
    ensures Step(s, Event(20, PhaseThree)) == r
  {
  }

  ghost predicate Comes(events: seq<Event>, s: Launch) {
    WellBehavedRun(Start(), events) && Run(Start(), events) == s
  }

  lemma Next(events: seq<Event>, s: Launch, e: Event, r: Launch, more: seq<Event>)
    requires Comes(events, s) && WellBehaved(s, e) && Step(s, e) == r && more == events + [e]
    ensures Comes(more, r)
  {
    assert more[..|more| - 1] == events;
  }

  lemma SplitSale(first: seq<u64>, bins: seq<u64>, one: u64) returns (events: seq<Event>)
    requires one == 1 && first == [one, 0] && bins == [1, 1]
    ensures Comes(events, Preminted(Split(), 2, bins, 3, None, false, 0))
  {
    var empty: seq<u64> := [0, 0];
    var a, b := Preminted(map[], 0, empty, 0, None, false, 0), Preminted(AliceAlone(), 1, first, 1, None, false, 0);
    var c := Preminted(Split(), 2, bins, 3, None, false, 0);
    Premints(Start(), a);
    Next([], Start(), Event(0, Mint(1)), a, [] + [Event(0, Mint(1))]);
    events := [] + [Event(0, Mint(1))];
    AliceBids(a, b, empty, first, one);
    Next(events, a, Event(0, Purchase(ALICE, 1, 1)), b, events + [Event(0, Purchase(ALICE, 1, 1))]);
    events := events + [Event(0, Purchase(ALICE, 1, 1))];
    BobBids(b, c, first, bins);
    Next(events, b, Event(0, Purchase(BOB, 2, 2)), c, events + [Event(0, Purchase(BOB, 2, 2))]);
    events := events + [Event(0, Purchase(BOB, 2, 2))];
  }

  lemma SplitPhaseThree(first: seq<u64>, bins: seq<u64>, one: u64, r: Launch) returns (events: seq<Event>)
    requires one == 1 && first == [one, 0] && bins == [1, 1]
    requires r == Preminted(Split(), 2, bins, 3, Some(Lottery(Zeros(1), 0)), true, 20)
    ensures Comes(events, r)
  {
    events := SplitSale(first, bins, one);
    var s := Preminted(Split(), 2, bins, 3, None, false, 0);
    var p := Preminted(Split(), 2, bins, 3, Some(Lottery(Zeros(1), 0)), false, 20);
    BitmapCreated(s, p, Lottery(Zeros(1), 0));
    Next(events, s, Event(20, CreateBitmap), p, events + [Event(20, CreateBitmap)]);
    events := events + [Event(20, CreateBitmap)];
    NobodyIsNamed(p, r);
    Next(events, p, Event(20, PhaseThree), r, events + [Event(20, PhaseThree)]);
    events := events + [Event(20, PhaseThree)];
  }

  /** Both open tickets are at the median or above, and neither has a bit. */
  lemma TwoLosers(s: Launch, bytes: seq<byte>)
    requires s.lottery.Some? && s.lottery.value.bytes == bytes == Zeros(1) && s.median == 1
    requires |s.tickets| == 2
    requires forall k :: k in s.tickets ==> IsOpen(s.tickets[k]) && s.tickets[k].amount >= 1 && s.tickets[k].number < 8
    ensures Losers(s) == 2
  {
    forall k | k in s.tickets
      ensures Losing(s.median, bytes)(s.tickets[k]) == 1
    {
      NoBit(bytes, s.tickets[k].number);
    }
    SumByCount(s.tickets, Losing(s.median, bytes));
  }

  lemma NoBit(bytes: seq<byte>, number: nat)
    requires bytes == Zeros(1) && number < 8
    ensures IsWinner(bytes, number) != Some(true)
  {
    IsWinnerIsBit(bytes, number);
    BitOfZero(7 - number % 8);
  }

  lemma SplitTickets(tickets: map<Pubkey, Ticket>)
    requires tickets == Split()
    ensures |tickets| == 2
    ensures forall k :: k in tickets ==> IsOpen(tickets[k]) && tickets[k].amount >= 1 && tickets[k].number < 8
  {
  }

  /** Whatever comes, if the bitmap is left alone. */
  ghost predicate AlwaysUnresolved(s: Launch) {
    forall more: seq<Event> :: Quiet(s, more) ==> Unresolved(Run(s, more))
  }

  lemma StaysLocked(s: Launch)
    requires Late(s) && s.eligible < Losers(s)
    ensures AlwaysUnresolved(s)
  {
    forall more: seq<Event> | Quiet(s, more)
      ensures Unresolved(Run(s, more))
    {
      LockedStaysLocked(s, more);
    }
  }

  /** After this run no continuation that leaves the bitmap alone resolves both tickets. */
  lemma LaunchLocks() returns (events: seq<Event>)
    ensures LaunchRun(OneToken(), 0, events) && Reached(OneToken(), 0, events).phaseThreeStarted
    ensures AlwaysUnresolved(Reached(OneToken(), 0, events))
  {
    Starts();
    var bins: seq<u64> := [1, 1];
    var r := Preminted(Split(), 2, bins, 3, Some(Lottery(Zeros(1), 0)), true, 20);
    events := SplitPhaseThree([1, 0], bins, 1, r);
    SplitTickets(r.tickets);
    TwoLosers(r, Zeros(1));
    PhaseThreeEndsIff(OneToken(), 0, events);
    StaysLocked(r);
  }
}
