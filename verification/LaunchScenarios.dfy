/** Concrete runs of a fair launch that break a promise, one hypothesis short of a well-behaved run. */
module LaunchScenarios {
  import opened Prelude
  import opened FairLaunchErrors
  import opened Histogram
  import opened Bits
  import opened LotteryBitmap
  import opened FairLaunch
  import opened LaunchSteps
  import opened LaunchCounterexamples

  const ALICE: Pubkey := 1
  const BOB: Pubkey := 2

  /** One token, two prices, phase one from second 0 to 10, phase two to 20. */
  function OneToken(): LaunchData {
    LaunchData("launch", 1, 2, 0, 10, 20, 0, 1, 1, 0, None)
  }

  /** Counts with all n bids in the first of two bins. */
  lemma FirstBinTally(n: u64)
    requires n > 0
    ensures MeasureSpec([n, 0], 1, 1) == Some(Tally(1, n))
  {
    var c: seq<nat> := [n, 0];
    assert Below(c, 1) == n && Total(c) == n;
    ExpandAt(c, 0, n / 2);
    if n % 2 == 0 {
      ExpandAt(c, 0, n / 2 - 1);
    }
  }

  /** The launch after some bids at the first price, with as many tickets punched as tokens minted. */
  function State(sold: u64, unSeqed: u64, tickets: map<Pubkey, Ticket>, lottery: Option<Lottery>, started: bool,
                 supply: u64, now: i64): Launch {
    Launch(OneToken(), unSeqed, sold, 0, supply, 0, 0, started, None, sold, if sold == 0 then 0 else 1, [sold, 0],
           tickets, lottery, supply, sold, 0, now)
  }

  /** A purchase, from what its parts yield. */
  lemma PurchaseIs(s: Launch, buyer: Pubkey, amount: u64, bins: seq<u64>, tally: Tally, r: Launch)
    requires PurchaseAllowed(s.data, s.median, s.sold, s.unSeqed, buyer in s.tickets, amount, s.clock) == Pass
    requires s.data.tickSize > 0 && InsertBid(s.data, s.counts, amount) == Ok(bins)
    requires MeasureSpec(bins, s.data.priceRangeStart, s.data.tickSize) == Some(tally)
    requires s.data.fee == 0 && s.treasury + amount <= U64_MAX && s.sold < U64_MAX && s.unSeqed < U64_MAX
    requires r == s.(tickets := s.tickets[buyer := Ticket(amount, NoSequenceStruct, s.sold)],
                     sold := s.sold + 1, unSeqed := s.unSeqed + 1,
                     counts := bins, median := tally.median, eligible := tally.eligible,
                     treasury := s.treasury + amount)
    ensures PurchaseTicket(s, buyer, amount, amount, s.clock) == Ok(r)
  {
  }

  lemma Buys(s: Launch, buyer: Pubkey, sold: u64, tickets: map<Pubkey, Ticket>)
    requires s == State(sold, sold, tickets, None, false, 0, 0) && sold < 10 && buyer !in tickets
    ensures Step(s, Event(0, Purchase(buyer, 1, 1)))
         == State(sold + 1, sold + 1, tickets[buyer := Ticket(1, NoSequenceStruct, sold)], None, false, 0, 0)
  {
    var n: u64 := sold + 1;
    var bins: seq<u64> := [n, 0];
    FirstBinTally(n);
    assert s.counts[0 := n] == bins;
    PurchaseIs(s, buyer, 1, bins, Tally(1, n),
               State(n, n, tickets[buyer := Ticket(1, NoSequenceStruct, sold)], None, false, 0, 0));
  }

  function Tickets(alice: TicketState, bob: TicketState): map<Pubkey, Ticket> {
    map[ALICE := Ticket(1, alice, 0), BOB := Ticket(1, bob, 1)]
  }

  lemma Sequences(s: Launch, buyer: Pubkey, sold: u64, unSeqed: u64, before: map<Pubkey, Ticket>,
                  after: map<Pubkey, Ticket>)
    requires s == State(sold, unSeqed, before, None, false, 0, 0) && unSeqed > 0
    requires buyer in before && before[buyer].state == NoSequenceStruct
    requires after == before[buyer := before[buyer].(state := Unpunched)]
    ensures Step(s, Event(0, Sequence(buyer))) == State(sold, unSeqed - 1, after, None, false, 0, 0)
  {
  }

  lemma TopBit(one: seq<byte>)
    requires one == [0x80]
    ensures PopCount(one) == 1 && IsWinner(one, 0) == Some(true)
  {
    TopBitsOf(0x80, 2);
  }

  /** One winner's bit, and two winners' bits. */
  lemma TopBits(one: seq<byte>, two: seq<byte>)
    requires one == [0x80] && two == [0xC0]
    ensures PopCount([0]) == 0 && PopCount(one) == 1 && PopCount(two) == 2
    ensures IsWinner(one, 0) == Some(true) && IsWinner(two, 1) == Some(true)
  {
    TopBitsOf(0, 0);
    TopBit(one);
    TopBitsOf(0xC0, 3);
  }

  function Doubled(x: nat, times: nat): nat {
    if times == 0 then x else 2 * Doubled(x, times - 1)
  }

  /** Doubling shifts the bits to the left. */
  lemma {:induction false} BitDoubled(x: nat, times: nat, k: nat)
    ensures Bit(Doubled(x, times), k) == if k < times then 0 else Bit(x, k - times)
  {
    if times > 0 && k > 0 {
      BitDoubled(x, times - 1, k - 1);
    }
  }

  lemma {:induction false} PopDoubled(b: byte, x: nat, times: nat, n: nat)
    requires b == Doubled(x, times) && x < 4
    ensures PopLow(b, n) == (if n > times then Bit(x, 0) else 0) + (if n > times + 1 then Bit(x, 1) else 0)
  {
    if n > 0 {
      PopDoubled(b, x, times, n - 1);
      BitDoubled(x, times, n - 1);
      if n > times + 2 {
        assert x / 2 / 2 == 0;
        assert Bit(x, n - 1 - times) == Bit(x / 2 / 2, n - 3 - times);
        BitOfZero(n - 3 - times);
      }
    }
  }

  lemma TopBitsOf(b: byte, top: nat)
    requires top < 4 && b == 64 * top
    ensures Bit(b, 7) == top / 2 && Bit(b, 6) == top % 2
    ensures PopCount([b]) == top / 2 + top % 2
  {
    DoubledSix(top);
    TopTwo(b, top, 6);
    PopOfOne(b);
  }

  lemma DoubledSix(top: nat)
    ensures Doubled(top, 6) == 64 * top
  {
    assert Doubled(top, 1) == 2 * top;
    assert Doubled(top, 2) == 4 * top;
    assert Doubled(top, 3) == 8 * top;
    assert Doubled(top, 4) == 16 * top;
    assert Doubled(top, 5) == 32 * top;
  }

  lemma TopTwo(b: byte, top: nat, times: nat)
    requires top < 4 && b == Doubled(top, times)
    ensures Bit(b, times + 1) == top / 2 && Bit(b, times) == top % 2
    ensures PopLow(b, times + 2) == top / 2 + top % 2
  {
    BitDoubled(top, times, times + 1);
    BitDoubled(top, times, times);
    PopDoubled(b, top, times, times + 2);
    assert Bit(top, 1) == top / 2;
  }

  lemma PopOfOne(b: byte)
    ensures PopCount([b]) == PopLow(b, 8)
  {
    assert [b][..0] == [];
  }

  /** A strip as long as the bitmap replaces it. */
  lemma WholeStrip(l: Lottery, strip: seq<byte>)
    requires |l.bytes| == |strip| == 1 && Accurate(l) && PopCount(strip) <= 8
    ensures WriteStrip(l, 0, strip) == Ok(Lottery(strip, PopCount(strip)))
  {
    assert l.bytes[0..1] == l.bytes;
    assert Overwrite(l.bytes, 0, strip) == strip;
  }

  lemma BitmapWritten(s: Launch, tickets: map<Pubkey, Ticket>, l: Lottery, strip: seq<byte>, ones: u64,
                      started: bool, supply: u64)
    requires s == State(2, 0, tickets, Some(l), started, supply, 20)
    requires |l.bytes| == |strip| == 1 && Accurate(l) && PopCount(strip) == ones <= 8
    ensures Step(s, Event(20, UpdateBitmap(0, strip))) ==
            State(2, 0, tickets, Some(Lottery(strip, ones)), started, supply, 20)
  {
    WholeStrip(l, strip);
  }

  lemma Punches(s: Launch, buyer: Pubkey, r: Launch, lottery: Lottery, supply: u64, before: map<Pubkey, Ticket>,
                after: map<Pubkey, Ticket>)
    requires s == State(2, 0, before, Some(lottery), true, supply, 20) && supply < 2
    requires buyer in before && before[buyer].amount == 1 && before[buyer].state == Unpunched
    requires after == before[buyer := before[buyer].(state := Punched)]
    requires IsWinner(lottery.bytes, before[buyer].number) == Some(true)
    requires r == State(2, 0, after, Some(lottery), true, supply + 1, 20)
    ensures Step(s, Event(20, Punch(buyer))) == r
  {
  }

  function Start(): Launch {
    State(0, 0, map[], None, false, 0, 0)
  }

  /** A well-behaved run from the start to s. */
  ghost predicate Leads(events: seq<Event>, s: Launch) {
    WellBehavedRun(Start(), events) && Run(Start(), events) == s
  }

  lemma Extend(events: seq<Event>, s: Launch, e: Event, r: Launch)
    requires Run(Start(), events) == s && Step(s, e) == r
    ensures Run(Start(), events + [e]) == r
    ensures WellBehavedRun(Start(), events) && WellBehaved(s, e) ==> WellBehavedRun(Start(), events + [e])
  {
    assert (events + [e])[..|events|] == events;
  }

  lemma Starts()
    ensures InitializeFairLaunch(OneToken(), 0) == Ok(Start())
  {
    assert [0, 0] == seq(2, _ => 0);
  }

  /** Both buy in phase one, at the same price. */
  lemma BothBuy() returns (events: seq<Event>)
    ensures Leads(events, State(2, 2, Tickets(NoSequenceStruct, NoSequenceStruct), None, false, 0, 0))
  {
    var alone := map[ALICE := Ticket(1, NoSequenceStruct, 0)];
    var both := Tickets(NoSequenceStruct, NoSequenceStruct);
    var s := State(1, 1, alone, None, false, 0, 0);
    Buys(Start(), ALICE, 0, map[]);
    Extend([], Start(), Event(0, Purchase(ALICE, 1, 1)), s);
    assert alone[BOB := Ticket(1, NoSequenceStruct, 1)] == both;
    Buys(s, BOB, 1, alone);
    events := [] + [Event(0, Purchase(ALICE, 1, 1))];
    Extend(events, s, Event(0, Purchase(BOB, 1, 1)), State(2, 2, both, None, false, 0, 0));
    events := events + [Event(0, Purchase(BOB, 1, 1))];
  }

  lemma BothSequenced() returns (events: seq<Event>)
    ensures Leads(events, State(2, 0, Tickets(Unpunched, Unpunched), None, false, 0, 0))
  {
    events := BothBuy();
    var none, first := Tickets(NoSequenceStruct, NoSequenceStruct), Tickets(Unpunched, NoSequenceStruct);
    var s, r := State(2, 2, none, None, false, 0, 0), State(2, 1, first, None, false, 0, 0);
    Sequences(s, ALICE, 2, 2, none, first);
    Extend(events, s, Event(0, Sequence(ALICE)), r);
    events := events + [Event(0, Sequence(ALICE))];
    Sequences(r, BOB, 2, 1, first, Tickets(Unpunched, Unpunched));
    Extend(events, r, Event(0, Sequence(BOB)), State(2, 0, Tickets(Unpunched, Unpunched), None, false, 0, 0));
    events := events + [Event(0, Sequence(BOB))];
  }

  /** The lottery names Alice. */
  lemma AliceWins(one: seq<byte>) returns (events: seq<Event>)
    requires |one| == 1 && PopCount(one) == 1 && PopCount([0]) == 0
    ensures Leads(events, State(2, 0, Tickets(Unpunched, Unpunched), Some(Lottery(one, 1)), false, 0, 20))
  {
    events := BothSequenced();
    var open := Tickets(Unpunched, Unpunched);
    var s, r := State(2, 0, open, None, false, 0, 0), State(2, 0, open, Some(Lottery([0], 0)), false, 0, 20);
    assert Zeros(1) == [0];
    Extend(events, s, Event(20, CreateBitmap), r);
    events := events + [Event(20, CreateBitmap)];
    BitmapWritten(r, open, Lottery([0], 0), one, 1, false, 0);
    Extend(events, r, Event(20, UpdateBitmap(0, one)), State(2, 0, open, Some(Lottery(one, 1)), false, 0, 20));
    events := events + [Event(20, UpdateBitmap(0, one))];
  }

  /** She takes the only token. */
  lemma AlicePunches(one: seq<byte>) returns (events: seq<Event>)
    requires |one| == 1 && PopCount(one) == 1 && PopCount([0]) == 0 && IsWinner(one, 0) == Some(true)
    ensures Leads(events, State(2, 0, Tickets(Punched, Unpunched), Some(Lottery(one, 1)), true, 1, 20))
  {
    events := AliceWins(one);
    var open, done := Tickets(Unpunched, Unpunched), Tickets(Punched, Unpunched);
    var l := Some(Lottery(one, 1));
    var s, r := State(2, 0, open, l, false, 0, 20), State(2, 0, open, l, true, 0, 20);
    assert Step(s, Event(20, PhaseThree)) == r;
    Extend(events, s, Event(20, PhaseThree), r);
    events := events + [Event(20, PhaseThree)];
    Punches(r, ALICE, State(2, 0, done, l, true, 1, 20), Lottery(one, 1), 0, open, done);
    Extend(events, r, Event(20, Punch(ALICE)), State(2, 0, done, l, true, 1, 20));
    events := events + [Event(20, Punch(ALICE))];
  }

  /** The bitmap is rewritten to name Bob too. */
  lemma BobPunches(one: seq<byte>, two: seq<byte>, events: seq<Event>, first: Event, second: Event)
    requires |one| == |two| == 1 && PopCount(one) == 1 && PopCount(two) == 2 && IsWinner(two, 1) == Some(true)
    requires Leads(events, State(2, 0, Tickets(Punched, Unpunched), Some(Lottery(one, 1)), true, 1, 20))
    requires first == Event(20, UpdateBitmap(0, two)) && second == Event(20, Punch(BOB))
    ensures Run(Start(), events + [first, second]).supply == 2
  {
    var before, after := Tickets(Punched, Unpunched), Tickets(Punched, Punched);
    var s := State(2, 0, before, Some(Lottery(one, 1)), true, 1, 20);
    var r := State(2, 0, before, Some(Lottery(two, 2)), true, 1, 20);
    BitmapWritten(s, before, Lottery(one, 1), two, 2, true, 1);
    Extend(events, s, first, r);
    Punches(r, BOB, State(2, 0, after, Some(Lottery(two, 2)), true, 2, 20), Lottery(two, 2), 1, before, after);
    Extend(events + [first], r, second, State(2, 0, after, Some(Lottery(two, 2)), true, 2, 20));
    assert events + [first] + [second] == events + [first, second];
  }

  /**
   A launch of one token that mints two: everything is well behaved until the
   authority rewrites the bitmap in phase three.
   */
  lemma RewriteOversells(two: seq<byte>) returns (events: seq<Event>)
    requires two == [0xC0]
    ensures InitializeFairLaunch(OneToken(), 0) == Ok(Start()) && OneToken().numberOfTokens == 1
    ensures WellBehavedRun(Start(), events)
    ensures Run(Start(), events + [Event(20, UpdateBitmap(0, two)), Event(20, Punch(BOB))]).supply == 2
  {
    Starts();
    var one: seq<byte> := [0x80];
    TopBits(one, two);
    events := AlicePunches(one);
    BobPunches(one, two, events, Event(20, UpdateBitmap(0, two)), Event(20, Punch(BOB)));
  }

  function Alone(state: TicketState): map<Pubkey, Ticket> {
    map[ALICE := Ticket(1, state, 0)]
  }

  lemma AliceBids() returns (events: seq<Event>)
    ensures Leads(events, State(1, 1, Alone(NoSequenceStruct), None, false, 0, 0))
  {
    Buys(Start(), ALICE, 0, map[]);
    Extend([], Start(), Event(0, Purchase(ALICE, 1, 1)), State(1, 1, Alone(NoSequenceStruct), None, false, 0, 0));
    events := [] + [Event(0, Purchase(ALICE, 1, 1))];
  }

  lemma AliceBuys() returns (events: seq<Event>)
    ensures Leads(events, State(1, 0, Alone(Unpunched), None, false, 0, 0))
  {
    events := AliceBids();
    var s := State(1, 1, Alone(NoSequenceStruct), None, false, 0, 0);
    var r := State(1, 0, Alone(Unpunched), None, false, 0, 0);
    Sequences(s, ALICE, 1, 1, Alone(NoSequenceStruct), Alone(Unpunched));
    Extend(events, s, Event(0, Sequence(ALICE)), r);
    events := events + [Event(0, Sequence(ALICE))];
  }

  lemma UpdateEffect(s: Launch, r: Launch)
    requires s == State(1, 0, Alone(Unpunched), None, false, 0, 0) && r == Step(s, Event(0, Update(OneToken())))
    ensures UpdateFairLaunch(s, OneToken(), 0) == Ok(r)
  {
  }

  /** In the second phase one opens Alice buys, and an update that changes nothing strands her bid. */
  lemma UpdateStrandsAlice(amount: u64, funds: u64) returns (events: seq<Event>)
    ensures InitializeFairLaunch(OneToken(), 0) == Ok(Start()) && WellBehavedRun(Start(), events)
    ensures var s := Run(Start(), events + [Event(0, Update(OneToken()))]);
      && ALICE in s.tickets && s.tickets[ALICE].state == Unpunched
      && AdjustTicket(s, ALICE, amount, true, funds, 0).Err?
  {
    Starts();
    events := AliceBuys();
    var s := State(1, 0, Alone(Unpunched), None, false, 0, 0);
    var r := Step(s, Event(0, Update(OneToken())));
    Extend(events, s, Event(0, Update(OneToken())), r);
    UpdateEffect(s, r);
    UpdateStrandsBid(s, OneToken(), ALICE, amount, funds, 0);
  }
}
