/** Sums of a weight over the values of a map: every counter of the fair launch is one of these. */
module MapSums {

  ghost function SumBy<K, V>(m: map<K, V>, weight: V -> nat): nat {
    if m == map[] then 0
    else
      var k :| k in m;
      weight(m[k]) + SumBy(m - {k}, weight)
  }

  /** The sum does not depend on the order in which keys are taken out. */
  lemma {:induction false} SumByRemove<K, V>(m: map<K, V>, weight: V -> nat, k: K)
    requires k in m
    ensures SumBy(m, weight) == weight(m[k]) + SumBy(m - {k}, weight)
    decreases |m|
  {
    var k' :| k' in m && SumBy(m, weight) == weight(m[k']) + SumBy(m - {k'}, weight);
    if k' != k {
      SumByRemove(m - {k'}, weight, k);
      SumByRemove(m - {k}, weight, k');
      assert m - {k} - {k'} == m - {k'} - {k};
    }
  }

  lemma SumByUpdate<K, V>(m: map<K, V>, weight: V -> nat, k: K, v: V)
    ensures k in m ==> SumBy(m[k := v], weight) + weight(m[k]) == SumBy(m, weight) + weight(v)
    ensures k !in m ==> SumBy(m[k := v], weight) == SumBy(m, weight) + weight(v)
  {
    SumByRemove(m[k := v], weight, k);
    assert m[k := v] - {k} == m - {k};
    if k in m {
      SumByRemove(m, weight, k);
    } else {
      assert m - {k} == m;
    }
  }

  lemma {:induction false} SumByAdd<K, V>(m: map<K, V>, f: V -> nat, g: V -> nat, h: V -> nat)
    requires forall k :: k in m ==> h(m[k]) == f(m[k]) + g(m[k])
    ensures SumBy(m, h) == SumBy(m, f) + SumBy(m, g)
    decreases |m|
  {
    if m != map[] {
      var k :| k in m;
      SumByRemove(m, f, k);
      SumByRemove(m, g, k);
      SumByRemove(m, h, k);
      SumByAdd(m - {k}, f, g, h);
    }
  }

  lemma {:induction false} SumByEqual<K, V>(m: map<K, V>, f: V -> nat, g: V -> nat)
    requires forall k :: k in m ==> f(m[k]) == g(m[k])
    ensures SumBy(m, f) == SumBy(m, g)
    decreases |m|
  {
    if m != map[] {
      var k :| k in m;
      SumByRemove(m, f, k);
      SumByRemove(m, g, k);
      SumByEqual(m - {k}, f, g);
    }
  }

  lemma {:induction false} SumByZero<K, V>(m: map<K, V>, f: V -> nat)
    ensures SumBy(m, f) == 0 <==> forall k :: k in m ==> f(m[k]) == 0
    decreases |m|
  {
    if m != map[] {
      var k :| k in m;
      SumByRemove(m, f, k);
      SumByZero(m - {k}, f);
      assert forall j :: j in m ==> j == k || (j in m - {k} && m[j] == (m - {k})[j]);
    }
  }

  lemma {:induction false} SumByAtMost<K, V>(m: map<K, V>, f: V -> nat, g: V -> nat)
    requires forall k :: k in m ==> f(m[k]) <= g(m[k])
    ensures SumBy(m, f) <= SumBy(m, g)
    decreases |m|
  {
    if m != map[] {
      var k :| k in m;
      SumByRemove(m, f, k);
      SumByRemove(m, g, k);
      SumByAtMost(m - {k}, f, g);
    }
  }

  /** One entry's weight never exceeds the sum. */
  lemma SumByEntry<K, V>(m: map<K, V>, f: V -> nat, k: K)
    requires k in m
    ensures f(m[k]) <= SumBy(m, f)
  {
    SumByRemove(m, f, k);
  }

  /** Weighing each entry 1 counts the map. */
  lemma {:induction false} SumByCount<K, V>(m: map<K, V>, f: V -> nat)
    requires forall k :: k in m ==> f(m[k]) == 1
    ensures SumBy(m, f) == |m|
    decreases |m|
  {
    if m != map[] {
      var k :| k in m;
      SumByRemove(m, f, k);
      SumByCount(m - {k}, f);
    }
  }

  lemma TimesSuccessor(c: nat, n: nat)
    ensures c * (1 + n) == c + c * n
  {
  }

  /** If each counted entry weighs c and no other entry weighs anything, the sum is c per counted entry. */
  lemma {:induction false} SumByTimes<K, V>(m: map<K, V>, f: V -> nat, indicator: V -> nat, c: nat)
    requires forall k :: k in m ==> indicator(m[k]) <= 1
    requires forall k :: k in m ==> f(m[k]) == if indicator(m[k]) == 1 then c else 0
    ensures SumBy(m, f) == c * SumBy(m, indicator)
    decreases |m|
  {
    if m != map[] {
      var k :| k in m;
      var rest := m - {k};
      SumByRemove(m, f, k);
      SumByRemove(m, indicator, k);
      SumByTimes(rest, f, indicator, c);
      if indicator(m[k]) == 1 {
        TimesSuccessor(c, SumBy(rest, indicator));
      }
    }
  }

  /** Entries of weight at most 1 with distinct tags drawn from `tags` weigh at most |tags|. */
  lemma {:induction false} SumByInjection<K, V>(m: map<K, V>, f: V -> nat, tag: V -> nat, tags: set<nat>)
    requires forall k :: k in m ==> f(m[k]) <= 1
    requires forall k :: k in m && f(m[k]) == 1 ==> tag(m[k]) in tags
    requires forall j, k :: j in m && k in m && tag(m[j]) == tag(m[k]) ==> j == k
    ensures SumBy(m, f) <= |tags|
    decreases |m|
  {
    if m != map[] {
      var k :| k in m;
      SumByRemove(m, f, k);
      if f(m[k]) == 1 {
        SumByInjection(m - {k}, f, tag, tags - {tag(m[k])});
      } else {
        SumByInjection(m - {k}, f, tag, tags);
      }
    }
  }

  ghost function Picked<K, V>(m: map<K, V>, f: V -> nat): set<K> {
    set k | k in m && f(m[k]) == 1
  }

  /** An indicator's sum is the number of entries it picks. */
  lemma {:induction false} SumByCardinality<K, V>(m: map<K, V>, f: V -> nat)
    requires forall k :: k in m ==> f(m[k]) <= 1
    ensures SumBy(m, f) == |Picked(m, f)|
    decreases |m|
  {
    if m != map[] {
      var k :| k in m;
      SumByRemove(m, f, k);
      SumByCardinality(m - {k}, f);
      assert Picked(m - {k}, f) == Picked(m, f) - {k};
    }
  }
}
