/**
 The price histogram of the fair launch and the two accumulator loops that
 read the median off it (rust/fair-launch/src/utils.rs).  The reference
 definition sorts: it expands the tick counts into the ascending list of the
 bins the bids fall in and takes the middle of that list.
 */
module Histogram {
  import opened Prelude

  /** The number of bids in the first i bins. */
  function Below(c: seq<nat>, i: nat): nat
    requires i <= |c|
  {
    if i == 0 then 0 else Below(c, i - 1) + c[i - 1]
  }

  function Total(c: seq<nat>): nat {
    Below(c, |c|)
  }

  /** The bins of the bids in the first i bins, in ascending order, one entry a bid. */
  ghost function ExpandTo(c: seq<nat>, i: nat): (e: seq<nat>)
    requires i <= |c|
    ensures |e| == Below(c, i)
  {
    if i == 0 then [] else ExpandTo(c, i - 1) + seq(c[i - 1], _ => i - 1)
  }

  ghost function Expand(c: seq<nat>): (e: seq<nat>)
    ensures |e| == Total(c)
  {
    ExpandTo(c, |c|)
  }

  lemma {:induction false} BelowMonotone(c: seq<nat>, i: nat, j: nat)
    requires i <= j <= |c|
    ensures Below(c, i) <= Below(c, j)
    decreases j
  {
    if i < j {
      BelowMonotone(c, i, j - 1);
    }
  }

  lemma {:induction false} BelowZeros(c: seq<nat>, i: nat)
    requires i <= |c|
    requires forall k :: 0 <= k < |c| ==> c[k] == 0
    ensures Below(c, i) == 0
  {
    if i > 0 {
      BelowZeros(c, i - 1);
    }
  }

  /** The k-th smallest bid lies in the bin where the running count first passes k. */
  lemma {:induction false} ExpandToAt(c: seq<nat>, n: nat, i: nat, k: nat)
    requires i < n <= |c|
    requires Below(c, i) <= k < Below(c, i + 1)
    ensures k < Below(c, n) && ExpandTo(c, n)[k] == i
  {
    if i + 1 < n {
      ExpandToAt(c, n - 1, i, k);
    }
  }

  lemma ExpandAt(c: seq<nat>, i: nat, k: nat)
    requires i < |c|
    requires Below(c, i) <= k < Below(c, i + 1)
    ensures k < Total(c) && Expand(c)[k] == i
  {
    ExpandToAt(c, |c|, i, k);
  }

  /** The k-th smallest bid, counting from 0, lies in bin b. */
  ghost predicate BidLiesIn(c: seq<nat>, k: nat, b: nat) {
    b < |c| && Below(c, b) <= k < Below(c, b + 1)
  }

  /** And conversely: the running count passes k in the k-th smallest bid's bin. */
  lemma {:induction false} ExpandToBin(c: seq<nat>, n: nat, k: nat)
    requires n <= |c| && k < Below(c, n)
    ensures ExpandTo(c, n)[k] < n && BidLiesIn(c, k, ExpandTo(c, n)[k])
  {
    if k < Below(c, n - 1) {
      ExpandToBin(c, n - 1, k);
    }
  }

  lemma ExpandBin(c: seq<nat>, k: nat)
    requires k < Total(c)
    ensures BidLiesIn(c, k, Expand(c)[k])
  {
    ExpandToBin(c, |c|, k);
  }

  /** The list of bins is in ascending order. */
  lemma ExpandSorted(c: seq<nat>, k: nat, l: nat)
    requires k <= l < Total(c)
    ensures Expand(c)[k] <= Expand(c)[l] < |c|
  {
    ExpandBin(c, k);
    ExpandBin(c, l);
    if Expand(c)[l] < Expand(c)[k] {
      BelowMonotone(c, Expand(c)[l] + 1, Expand(c)[k]);
    }
  }

  /** Where bin b starts, counted from the first tick: b times the tick size, by adding as the loops do. */
  ghost function Ticks(tick: nat, b: nat): nat {
    if b == 0 then 0 else Ticks(tick, b - 1) + tick
  }

  lemma {:induction false} TicksIsProduct(tick: nat, b: nat)
    ensures Ticks(tick, b) == tick * b
  {
    if b > 0 {
      TicksIsProduct(tick, b - 1);
      assert tick * b == tick * (b - 1) + tick;
    }
  }

  lemma {:induction false} TicksMonotone(tick: nat, a: nat, b: nat)
    requires a <= b
    ensures Ticks(tick, a) <= Ticks(tick, b)
    decreases b
  {
    if a < b {
      TicksMonotone(tick, a, b - 1);
    }
  }

  /** The bin of the upper middle bid. */
  ghost function UpperBin(c: seq<nat>): (b: nat)
    requires Total(c) > 0
    ensures b < |c|
  {
    ExpandBin(c, Total(c) / 2);
    Expand(c)[Total(c) / 2]
  }

  /** The bin of the lower middle bid: the same one when the number of bids is odd. */
  ghost function LowerBin(c: seq<nat>): (b: nat)
    requires Total(c) > 0
    ensures b <= UpperBin(c)
  {
    if Total(c) % 2 == 1 then UpperBin(c)
    else
      ExpandSorted(c, Total(c) / 2 - 1, Total(c) / 2);
      Expand(c)[Total(c) / 2 - 1]
  }

  /**
   The median's distance above the first tick: the middle bid, or the lower
   middle plus half the difference rounded down.  With no bid at all the loops
   run off the end of the histogram.
   */
  ghost function MedianOffset(c: seq<nat>, tick: nat): nat {
    if Total(c) == 0 then Ticks(tick, |c|)
    else
      var low, high := Ticks(tick, LowerBin(c)), Ticks(tick, UpperBin(c));
      TicksMonotone(tick, LowerBin(c), UpperBin(c));
      low + (high - low) / 2
  }

  /**
   The median is half way between the ticks of the two middle bids of the
   ascending list, rounded down; for an odd number of bids they are the same.
   */
  lemma MedianIsHalfWay(c: seq<nat>, tick: nat, low: nat, high: nat)
    requires Total(c) > 0
    requires low == tick * Expand(c)[(Total(c) - 1) / 2] && high == tick * Expand(c)[Total(c) / 2]
    ensures low + high - 1 <= 2 * MedianOffset(c, tick) <= low + high
  {
    TicksIsProduct(tick, LowerBin(c));
    TicksIsProduct(tick, UpperBin(c));
    TicksMonotone(tick, LowerBin(c), UpperBin(c));
    assert Expand(c)[(Total(c) - 1) / 2] == LowerBin(c) by {
      if Total(c) % 2 == 1 {
        assert (Total(c) - 1) / 2 == Total(c) / 2;
      } else {
        assert (Total(c) - 1) / 2 == Total(c) / 2 - 1;
      }
    }
  }

  /** The number of bids in the upper middle bid's bin or above it. */
  ghost function EligibleBids(c: seq<nat>): (n: nat)
    ensures n <= Total(c)
  {
    if Total(c) == 0 then 0
    else
      BelowMonotone(c, UpperBin(c), |c|);
      Total(c) - Below(c, UpperBin(c))
  }

  /** At least half of the bids, rounded up, lie at or above the median. */
  lemma EligibleAtLeastHalf(c: seq<nat>)
    ensures 2 * EligibleBids(c) >= Total(c)
    ensures Total(c) > 0 ==> EligibleBids(c) > 0
  {
    if Total(c) > 0 {
      ExpandBin(c, Total(c) / 2);
    }
  }

  /** The median lies between the ticks of the two middle bids. */
  lemma MedianBetween(c: seq<nat>, tick: nat)
    requires Total(c) > 0
    ensures Ticks(tick, LowerBin(c)) <= MedianOffset(c, tick) <= Ticks(tick, UpperBin(c)) <= Ticks(tick, |c|)
  {
    TicksMonotone(tick, LowerBin(c), UpperBin(c));
    TicksMonotone(tick, UpperBin(c), |c|);
  }

  /** The first occupied tick is no higher than the median. */
  lemma MedianAboveFirst(c: seq<nat>, tick: nat)
    requires Total(c) > 0
    ensures Ticks(tick, Expand(c)[0]) <= MedianOffset(c, tick)
  {
    ExpandSorted(c, 0, if Total(c) % 2 == 1 then Total(c) / 2 else Total(c) / 2 - 1);
    TicksMonotone(tick, Expand(c)[0], LowerBin(c));
    MedianBetween(c, tick);
  }

  /** What the loops write back. */
  datatype Tally = Tally(median: u64, eligible: u64)

  /** None stands for the overflow error of one of the checked additions. */
  ghost function MeasureSpec(c: seq<nat>, start: nat, tick: nat): Option<Tally> {
    if Total(c) > U64_MAX || Ticks(tick, |c|) > U64_MAX || start + MedianOffset(c, tick) > U64_MAX then None
    else Some(Tally(start + MedianOffset(c, tick), EligibleBids(c)))
  }

  lemma NextBin(c: seq<nat>, i: nat, tick: nat)
    requires i < |c|
    ensures Below(c, i + 1) == Below(c, i) + c[i] <= Total(c)
    ensures Ticks(tick, i + 1) == Ticks(tick, i) + tick <= Ticks(tick, |c|)
  {
    BelowMonotone(c, i + 1, |c|);
    TicksMonotone(tick, i + 1, |c|);
  }

  datatype Totals = Totals(total: u64, first: u64)

  /** The number of bids, the end of the last bin, or the first occupied tick does not fit. */
  ghost predicate TotalsOverflow(c: seq<nat>, start: nat, tick: nat) {
    || Total(c) > U64_MAX
    || Ticks(tick, |c|) > U64_MAX
    || (Total(c) > 0 && start + Ticks(tick, Expand(c)[0]) > U64_MAX)
  }

  /** First pass: the total and the first occupied tick. */
  method CountTotal(counts: seq<u64>, start: u64, tick: u64)
    returns (r: Option<Totals>)
    ensures r.Some? ==> r.value.total == Total(counts) && Ticks(tick, |counts|) <= U64_MAX
    ensures r.Some? && Total(counts) > 0 ==> r.value.first == start + Ticks(tick, Expand(counts)[0])
    ensures r.None? <==> TotalsOverflow(counts, start, tick)
  {
    var total: u64, ticks: u64, seen, first: u64 := 0, 0, false, 0;
    for i := 0 to |counts|
      invariant total == Below(counts, i) <= Total(counts)
      invariant ticks == Ticks(tick, i)
      invariant seen <==> total > 0
      invariant seen ==> first == start + Ticks(tick, Expand(counts)[0])
    {
      NextBin(counts, i, tick);
      if total + counts[i] > U64_MAX {
        return None;
      }
      if !seen && counts[i] > 0 {
        ExpandAt(counts, i, 0);
        if ticks + start > U64_MAX {
          return None;
        }
        first := ticks + start;
        seen := true;
      }
      total := total + counts[i];
      if ticks + tick > U64_MAX {
        return None;
      }
      ticks := ticks + tick;
    }
    r := Some(Totals(total, first));
  }

  /** `last` is the tick of the last bid in the first i bins, if there is one. */
  ghost predicate LastOccupied(c: seq<nat>, i: nat, tick: nat, last: nat)
    requires i <= |c|
  {
    0 < Below(c, i) <= Total(c) ==> last == Ticks(tick, Expand(c)[Below(c, i) - 1])
  }

  lemma NextOccupied(c: seq<nat>, i: nat, tick: nat, last: nat)
    requires i < |c|
    requires LastOccupied(c, i, tick, last)
    ensures LastOccupied(c, i + 1, tick, if c[i] > 0 then Ticks(tick, i) else last)
  {
    if c[i] > 0 {
      ExpandAt(c, i, Below(c, i + 1) - 1);
    }
  }

  /** The tick where the running count passes the middle decides the median. */
  lemma Crossing(c: seq<nat>, i: nat, tick: nat, last: nat)
    requires i < |c|
    requires Below(c, i) <= Total(c) / 2 < Below(c, i + 1)
    requires LastOccupied(c, i, tick, last)
    ensures Total(c) > 0 && UpperBin(c) == i
    ensures Total(c) % 2 == 0 && Below(c, i) == Total(c) / 2 ==>
      last <= Ticks(tick, i) && MedianOffset(c, tick) == last + (Ticks(tick, i) - last) / 2
    ensures Total(c) % 2 != 0 || Below(c, i) != Total(c) / 2 ==> MedianOffset(c, tick) == Ticks(tick, i)
  {
    ExpandAt(c, i, Total(c) / 2);
    MedianBetween(c, tick);
    if Total(c) % 2 == 0 && Below(c, i) < Total(c) / 2 {
      ExpandAt(c, i, Total(c) / 2 - 1);
    }
  }

  /** Second pass: walk up to the tick where the running count passes the middle, halving a perfect split. */
  method FindMiddle(counts: seq<u64>, tick: u64, total: u64)
    returns (ticks: u64, eligible: u64)
    requires total == Total(counts) && Ticks(tick, |counts|) <= U64_MAX
    ensures ticks == MedianOffset(counts, tick)
    ensures eligible == EligibleBids(counts)
  {
    var location := total / 2;
    var counter: u64, last: u64, done := 0, 0, false;
    ticks, eligible := 0, 0;
    for i := 0 to |counts|
      invariant counter == Below(counts, i) <= total
      invariant done <==> counter > location
      invariant !done ==> ticks == Ticks(tick, i) && eligible == 0 && LastOccupied(counts, i, tick, last)
      invariant done ==> ticks == MedianOffset(counts, tick)
      invariant done ==> eligible + Below(counts, UpperBin(counts)) == counter
    {
      NextBin(counts, i, tick);
      var possiblePerfectSplit := counter == location;
      counter := counter + counts[i];
      if counter > location {
        if !done {
          Crossing(counts, i, tick, last);
          if total % 2 == 0 && possiblePerfectSplit {
            ticks := last + (ticks - last) / 2;
          }
          done := true;
        }
        eligible := eligible + counts[i];
      }
      if !done {
        NextOccupied(counts, i, tick, last);
        if counts[i] > 0 {
          last := ticks;
        }
        ticks := ticks + tick;
      }
    }
  }

  /** The second half of adjust_counts: both passes and the one-bid special case. */
  method Measure(counts: seq<u64>, start: u64, tick: u64)
    returns (r: Option<Tally>)
    ensures r == MeasureSpec(counts, start, tick)
  {
    var t := CountTotal(counts, start, tick);
    if t.None? {
      if Total(counts) > 0 {
        MedianAboveFirst(counts, tick);
      }
      return None;
    }
    var Totals(total, first) := t.value;
    if total == 1 {
      EligibleAtLeastHalf(counts);
      return Some(Tally(first, 1));
    }
    var ticks, eligible := FindMiddle(counts, tick, total);
    if ticks + start > U64_MAX {
      return None;
    }
    r := Some(Tally(ticks + start, eligible));
  }
}
