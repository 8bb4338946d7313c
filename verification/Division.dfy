/** The few facts about division by a variable that the models need. */
module Division {
  lemma MulMonotone(t: nat, a: nat, b: nat)
    requires a <= b
    ensures t * a <= t * b
  {
    assert t * b == t * a + t * (b - a);
  }

  lemma DivMonotone(a: nat, b: nat, t: nat)
    requires a <= b && t > 0
    ensures a / t <= b / t
  {
    if b / t < a / t {
      MulMonotone(t, b / t + 1, a / t);
    }
  }

  /** q is the quotient when the remainder fits. */
  lemma DivUnique(a: nat, t: nat, q: nat)
    requires t > 0 && t * q <= a < t * q + t
    ensures a / t == q
  {
    var p := a / t;
    if p < q {
      MulMonotone(t, p + 1, q);
    } else if q < p {
      MulMonotone(t, q + 1, p);
    }
  }

  lemma DivAddMultiple(a: nat, t: nat, k: nat)
    requires t > 0
    ensures (a + t * k) / t == a / t + k
    ensures (a + t * k) % t == a % t
  {
    var q := a / t;
    assert t * (q + k) == t * q + t * k;
    DivUnique(a + t * k, t, q + k);
  }

  /** A quotient reaches q exactly from q multiples on. */
  lemma DivAtLeast(a: nat, t: nat, q: nat)
    requires t > 0
    ensures a / t >= q <==> a >= t * q
  {
    if a / t >= q {
      MulMonotone(t, q, a / t);
    } else {
      MulMonotone(t, a / t + 1, q);
    }
  }
}
