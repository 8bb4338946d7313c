/**
 A concrete launch whose only punched ticket gets no refund: a token minted
 before the sale, which paid nothing, takes the slice that was set aside for it.
 */
module PremintScenario {
  import opened Prelude
  import opened FairLaunchErrors
  import opened MapSums
  import opened Histogram
  import opened Bits
  import opened LotteryBitmap
  import opened FairLaunch
  import opened LaunchInvariant
  import opened LaunchSteps
  import opened LaunchCounterexamples
  import opened LaunchScenarios
  import opened AntiRug
  import opened RefundRuns

  /** Two tokens; all that is paid is held back for refunds, which are due at once. */
  function TwoTokens(): LaunchData {
    LaunchData("launch", 1, 2, 0, 10, 20, 0, 1, 2, 0, Some(AntiRugSetting(10000, 0, 0)))
  }

  /** One token minted before the sale, and Alice's ticket once she has bought it. */
  function Sale(tickets: map<Pubkey, Ticket>, sold: u64, unSeqed: u64, counts: seq<u64>, lottery: Option<Lottery>,
                started: bool, now: i64): Launch {
    Launch(TwoTokens(), unSeqed, sold, 0, 0, 0, 1, started, None, sold, if sold == 0 then 0 else 1, counts,
           tickets, lottery, 1, sold, 0, now)
  }

  function Opening(): Launch {
    Launch(TwoTokens(), 0, 0, 0, 0, 0, 0, false, None, 0, 0, [0, 0], map[], None, 0, 0, 0, 0)
  }

  /** All tickets are resolved: Alice's is punched. */
  function Done(tickets: map<Pubkey, Ticket>, counts: seq<u64>, lottery: Lottery): Launch {
    Sale(tickets, 1, 0, counts, Some(lottery), true, 20).(punched := 1, supply := 2)
  }

  lemma Opens()
    ensures InitializeFairLaunch(TwoTokens(), 0) == Ok(Opening())
  {
    assert [0, 0] == seq(2, _ => 0);
  }

  ghost predicate Comes(events: seq<Event>, s: Launch) {
    PromiseOpenRun(Opening(), events) && Run(Opening(), events) == s
  }

  lemma Next(events: seq<Event>, s: Launch, e: Event, r: Launch) returns (more: seq<Event>)
    requires Comes(events, s) && PromiseOpen(s, e) && Step(s, e) == r
    ensures more == events + [e] && Comes(more, r)
  {
    more := events + [e];
    assert more[..|more| - 1] == events;
  }

  lemma Premints(s: Launch, r: Launch, counts: seq<u64>)
    requires counts == [0, 0] && s == Opening() && r == Sale(map[], 0, 0, counts, None, false, 0)
    ensures Step(s, Event(0, Mint(1))) == r
  {
  }

  lemma AliceBids(s: Launch, r: Launch, empty: seq<u64>, bins: seq<u64>, one: u64)
    requires one == 1 && empty == [0, 0] && bins == [one, 0]
    requires s == Sale(map[], 0, 0, empty, None, false, 0)
    requires r == Sale(Alone(NoSequenceStruct), 1, 1, bins, None, false, 0)
    ensures Apply(s, Event(0, Purchase(ALICE, 1, 1))) == Ok(r)
  {
    FirstBinTally(one);
    assert bins == empty[0 := one];
    PurchaseIs(s, ALICE, 1, bins, Tally(1, 1), r);
  }

  lemma AliceIsReached(s: Launch, r: Launch, bins: seq<u64>)
    requires s == Sale(Alone(NoSequenceStruct), 1, 1, bins, None, false, 0)
    requires r == Sale(Alone(Unpunched), 1, 0, bins, None, false, 0)
    ensures Step(s, Event(0, Sequence(ALICE))) == r
  {
  }

  lemma BitmapIsMade(s: Launch, r: Launch, bins: seq<u64>, empty: Lottery)
    requires s == Sale(Alone(Unpunched), 1, 0, bins, None, false, 0) && empty == Lottery(Zeros(1), 0)
    requires r == Sale(Alone(Unpunched), 1, 0, bins, Some(empty), false, 20)
    ensures Step(s, Event(20, CreateBitmap)) == r
  {
  }

  lemma AliceIsNamed(s: Launch, r: Launch, bins: seq<u64>, empty: Lottery, one: seq<byte>)
    requires s == Sale(Alone(Unpunched), 1, 0, bins, Some(empty), false, 20)
    requires |empty.bytes| == |one| == 1 && Accurate(empty) && PopCount(one) == 1
    requires r == Sale(Alone(Unpunched), 1, 0, bins, Some(Lottery(one, 1)), false, 20)
    ensures Step(s, Event(20, UpdateBitmap(0, one))) == r
  {
    WholeStrip(empty, one);
  }

  lemma PhaseThreeStarts(s: Launch, r: Launch, bins: seq<u64>, l: Lottery)
    requires s == Sale(Alone(Unpunched), 1, 0, bins, Some(l), false, 20) && l.ones == 1
    requires r == Sale(Alone(Unpunched), 1, 0, bins, Some(l), true, 20)
    ensures Step(s, Event(20, PhaseThree)) == r
  {
  }

  lemma AlicePunches(s: Launch, r: Launch, bins: seq<u64>, l: Lottery)
    requires s == Sale(Alone(Unpunched), 1, 0, bins, Some(l), true, 20) && IsWinner(l.bytes, 0) == Some(true)
    requires r == Done(Alone(Punched), bins, l)
    ensures Step(s, Event(20, Punch(ALICE))) == r
  {
  }

  lemma Sold(bins: seq<u64>, one: u64) returns (events: seq<Event>)
    requires one == 1 && bins == [one, 0]
    ensures Comes(events, Sale(Alone(Unpunched), 1, 0, bins, None, false, 0))
  {
    var empty: seq<u64> := [0, 0];
    var a := Sale(map[], 0, 0, empty, None, false, 0);
    var b := Sale(Alone(NoSequenceStruct), 1, 1, bins, None, false, 0);
    Premints(Opening(), a, empty);
    events := Next([], Opening(), Event(0, Mint(1)), a);
    AliceBids(a, b, empty, bins, one);
    events := Next(events, a, Event(0, Purchase(ALICE, 1, 1)), b);
    AliceIsReached(b, Sale(Alone(Unpunched), 1, 0, bins, None, false, 0), bins);
    events := Next(events, b, Event(0, Sequence(ALICE)), Sale(Alone(Unpunched), 1, 0, bins, None, false, 0));
  }

  lemma Drawn(bins: seq<u64>, one: u64, bits: seq<byte>, l: Lottery) returns (events: seq<Event>)
    requires one == 1 && bins == [one, 0] && |bits| == 1 && PopCount(bits) == 1 && l == Lottery(bits, 1)
    ensures Comes(events, Sale(Alone(Unpunched), 1, 0, bins, Some(l), true, 20))
  {
    events := Sold(bins, one);
    var s := Sale(Alone(Unpunched), 1, 0, bins, None, false, 0);
    var empty := Lottery(Zeros(1), 0);
    var a := Sale(Alone(Unpunched), 1, 0, bins, Some(empty), false, 20);
    var b := Sale(Alone(Unpunched), 1, 0, bins, Some(l), false, 20);
    BitmapIsMade(s, a, bins, empty);
    events := Next(events, s, Event(20, CreateBitmap), a);
    ZeroBitmap(1);
    AliceIsNamed(a, b, bins, empty, bits);
    events := Next(events, a, Event(20, UpdateBitmap(0, bits)), b);
    PhaseThreeStarts(b, Sale(Alone(Unpunched), 1, 0, bins, Some(l), true, 20), bins, l);
    events := Next(events, b, Event(20, PhaseThree), Sale(Alone(Unpunched), 1, 0, bins, Some(l), true, 20));
  }

  lemma Punches(bins: seq<u64>, one: u64, bits: seq<byte>, l: Lottery) returns (events: seq<Event>)
    requires one == 1 && bins == [one, 0] && |bits| == 1 && PopCount(bits) == 1 && l == Lottery(bits, 1)
    requires IsWinner(bits, 0) == Some(true)
    ensures Comes(events, Done(Alone(Punched), bins, l))
  {
    events := Drawn(bins, one, bits, l);
    var s, r := Sale(Alone(Unpunched), 1, 0, bins, Some(l), true, 20), Done(Alone(Punched), bins, l);
    AlicePunches(s, r, bins, l);
    events := Next(events, s, Event(20, Punch(ALICE)), r);
  }

  /** Two tokens are out, and the treasury holds one slice. */
  lemma SliceIsAll(s: Launch, r: Launch, bins: seq<u64>, l: Lottery)
    requires s == Done(Alone(Punched), bins, l)
    requires r == s.(supply := 1, treasury := 0, snapshot := Some(1), burnedForRefunds := 1)
    ensures Step(s, Event(20, Refund)) == r
  {
  }

  lemma Refunded(bins: seq<u64>, one: u64, bits: seq<byte>, l: Lottery) returns (events: seq<Event>, r: Launch)
    requires one == 1 && bins == [one, 0] && |bits| == 1 && PopCount(bits) == 1 && l == Lottery(bits, 1)
    requires IsWinner(bits, 0) == Some(true)
    ensures Comes(events, r)
    ensures r == Done(Alone(Punched), bins, l).(supply := 1, treasury := 0, snapshot := Some(1), burnedForRefunds := 1)
  {
    events := Punches(bins, one, bits, l);
    var s := Done(Alone(Punched), bins, l);
    r := s.(supply := 1, treasury := 0, snapshot := Some(1), burnedForRefunds := 1);
    SliceIsAll(s, r, bins, l);
    events := Next(events, s, Event(20, Refund), r);
  }

  ghost predicate NothingLeft(s: Launch) {
    forall now: i64 :: ReceiveRefund(s, now).Err?
  }

  lemma Emptied(s: Launch)
    requires s.data == TwoTokens() && s.treasury == 0 && s.snapshot == Some(1) && s.punched == 1
    ensures NothingLeft(s)
  {
  }

  /** Alice's is the only ticket, and is punched; one refund has been paid, and a second never is. */
  lemma PremintTakesRefund(bits: seq<byte>, bins: seq<u64>, one: u64) returns (events: seq<Event>)
    requires bits == [0x80] && one == 1 && bins == [one, 0]
    ensures InitializeFairLaunch(TwoTokens(), 0) == Ok(Opening()) && PromiseOpenRun(Opening(), events)
    ensures var s := Run(Opening(), events);
      s.tickets == Alone(Punched) && s.supply == 1 && s.burnedForRefunds == 1 && NothingLeft(s)
  {
    Opens();
    TopBit(bits);
    var after: Launch;
    events, after := Refunded(bins, one, bits, Lottery(bits, 1));
    Emptied(after);
  }
}
