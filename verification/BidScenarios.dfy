/** A concrete auction that loses a winner: a full list evicts a bid, and too many stored ones are then cancelled. */
module BidScenarios {
  import opened Prelude
  import opened BidBook
  import opened BidRanking
  import opened BidEviction
  import opened BidRuns

  function KeyOf(i: byte): Pubkey {
    seq(32, _ => i)
  }

  lemma KeysDiffer(i: byte, j: byte)
    requires i != j
    ensures KeyOf(i) != KeyOf(j)
  {
    assert KeyOf(i)[0] == i && KeyOf(j)[0] == j;
  }

  function OneUnit(i: byte): Bid {
    Bid(KeyOf(i), 1)
  }

  /** n bidders bid one unit each. */
  function Fill(n: nat): seq<Op>
    requires n <= 256
  {
    if n == 0 then [] else Fill(n - 1) + [PlaceOp(OneUnit(n - 1), None, None)]
  }

  function Bidders(n: nat): (log: seq<Bid>)
    requires n <= 256
    ensures |log| == n && forall i :: 0 <= i < n ==> log[i] == OneUnit(i)
  {
    seq(n, i requires 0 <= i < n => OneUnit(i))
  }

  /** The first bidder last: among equals the earliest ranks highest. */
  function Backwards(n: nat): (bids: seq<Bid>)
    requires n <= 256
    ensures |bids| == n && forall i :: 0 <= i < n ==> bids[i] == OneUnit(n - 1 - i)
  {
    seq(n, i requires 0 <= i < n => OneUnit(n - 1 - i))
  }

  lemma NewBidder(n: byte)
    ensures !HasKey(Bidders(n), KeyOf(n))
  {
    forall i | 0 <= i < n ensures Bidders(n)[i].key != KeyOf(n) {
      KeysDiffer(i, n);
    }
  }

  lemma InsertEqual(bids: seq<Bid>, bid: Bid)
    requires forall i :: 0 <= i < |bids| ==> bids[i].amount == bid.amount
    ensures Insert(bids, bid) == [bid] + bids
  {
    PlaceUnique(bids, bid.amount, 0);
  }

  /** One more bidder while there is room. */
  lemma FillNext(max: nat, n: byte, b: Book, r: Book)
    requires n < MaxArraySizeFor(max) && b == Book(Backwards(n), Bidders(n), 0)
    requires r == Book(Backwards(n + 1), Bidders(n + 1), 0)
    ensures Step(b, max, 0, PlaceOp(OneUnit(n), None, None)) == r
  {
    InsertEqual(b.bids, OneUnit(n));
    assert b.log + [OneUnit(n)] == r.log;
    assert [OneUnit(n)] + b.bids == r.bids;
  }

  /** One more bidder once the list is full: the new bid itself falls off. */
  lemma FillFull(max: nat, n: byte, b: Book, r: Book, m: nat)
    requires m == MaxArraySizeFor(max) <= n && b == Book(Backwards(m), Bidders(n), 0)
    requires r == Book(Backwards(m), Bidders(n + 1), 0)
    ensures Step(b, max, 0, PlaceOp(OneUnit(n), None, None)) == r
  {
    InsertEqual(b.bids, OneUnit(n));
    assert b.log + [OneUnit(n)] == r.log;
    assert ([OneUnit(n)] + b.bids)[1..] == b.bids;
  }

  function Stored(max: nat, n: nat): nat {
    if n <= MaxArraySizeFor(max) then n else MaxArraySizeFor(max)
  }

  function Filled(max: nat, n: nat): Book
    requires n <= 256
  {
    Book(Backwards(Stored(max, n)), Bidders(n), 0)
  }

  lemma {:induction false} FillRun(max: nat, n: nat)
    requires n <= 256
    ensures Reaches(max, 0, Fill(n), Filled(max, n))
  {
    if n == 0 {
      NoneYet(max, Fill(0), Filled(max, 0));
    } else {
      FillRun(max, n - 1);
      OneMore(max, n - 1, Fill(n - 1), Filled(max, n - 1), Fill(n), Filled(max, n));
    }
  }

  lemma NoneYet(max: nat, ops: seq<Op>, b: Book)
    requires ops == [] && b == Filled(max, 0)
    ensures Reaches(max, 0, ops, b)
  {
  }

  lemma OneMore(max: nat, n: byte, ops: seq<Op>, b: Book, more: seq<Op>, r: Book)
    requires Reaches(max, 0, ops, b) && b == Filled(max, n) && r == Filled(max, n + 1)
    requires more == ops + [PlaceOp(OneUnit(n), None, None)]
    ensures Reaches(max, 0, more, r)
  {
    NewBidder(n);
    FillStep(max, n, b, r);
    RunNext(max, 0, ops, b, PlaceOp(OneUnit(n), None, None), more);
  }

  lemma FillStep(max: nat, n: byte, b: Book, r: Book)
    requires b == Filled(max, n) && r == Filled(max, n + 1)
    ensures Step(b, max, 0, PlaceOp(OneUnit(n), None, None)) == r
  {
    if n < MaxArraySizeFor(max) {
      FillNext(max, n, b, r);
    } else {
      FillFull(max, n, b, r, MaxArraySizeFor(max));
    }
  }

  function FirstKeys(n: nat): (keys: seq<Pubkey>)
    requires n <= 256
    ensures |keys| == n && forall i :: 0 <= i < n ==> keys[i] == KeyOf(i)
  {
    seq(n, i requires 0 <= i < n => KeyOf(i))
  }

  lemma FirstKeysStored(n: nat, m: nat)
    requires n <= m <= 256
    ensures forall i :: 0 <= i < n ==> HasKey(Backwards(m), FirstKeys(n)[i])
    ensures forall i, j :: 0 <= i < j < n ==> FirstKeys(n)[i] != FirstKeys(n)[j]
  {
    forall i | 0 <= i < n
      ensures HasKey(Backwards(m), FirstKeys(n)[i])
    {
      assert Backwards(m)[m - 1 - i].key == KeyOf(i);
    }
    forall i, j | 0 <= i < j < n
      ensures FirstKeys(n)[i] != FirstKeys(n)[j]
    {
      KeysDiffer(i, j);
    }
  }

  lemma FilledUp(max: nat, size: nat, keys: seq<Pubkey>, b: Book)
    requires 0 < max < 128 && size == MaxArraySizeFor(max)
    requires keys == FirstKeys(size - max + 1) && b == Filled(max, size + 1)
    ensures |b.bids| == size < |b.log|
    ensures forall i :: 0 <= i < |keys| ==> HasKey(b.bids, keys[i])
    ensures forall i, j :: 0 <= i < j < |keys| ==> keys[i] != keys[j]
  {
    FirstKeysStored(size - max + 1, size);
  }

  /** For each small number of prizes, a run whose last prize goes to nobody though a live bid is left. */
  lemma RunLosesWinner(max: nat, size: nat) returns (ops: seq<Op>, b: Book)
    requires 0 < max < 128 && size == MaxArraySizeFor(max)
    ensures Reaches(max, 0, ops, b)
    ensures NumWinners(b.bids, max) == max - 1 && NumWinners(b.log, max) == max
    ensures !SameWinners(b.bids, Ranked(b.log), max)
  {
    var keys, full := FirstKeys(size - max + 1), Filled(max, size + 1);
    FillRun(max, size + 1);
    FilledUp(max, size, keys, full);
    ops, b := Fill(size + 1) + Cancels(keys), CancelAll(full, max, 0, keys);
    OneCancellationTooMany(max, 0, Fill(size + 1), full, keys, b);
  }
}
