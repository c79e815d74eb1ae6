/** Small facts about products and quotients of reals, used one instance at a time. */
module RealFacts {

  lemma {:induction false} MulMonotone(a: real, b: real, k: real)
    requires a <= b && 0.0 <= k
    ensures a * k <= b * k && k * a <= k * b
  {
  }

  lemma {:induction false} MulStrict(a: real, b: real, k: real)
    requires a < b && 0.0 < k
    ensures a * k < b * k
  {
  }

  lemma {:induction false} MulPositive(a: real, b: real)
    requires 0.0 < a && 0.0 < b
    ensures 0.0 < a * b
  {
  }

  /** Multiplying ordered factors keeps the order. */
  lemma {:induction false} MulBoth(a: real, b: real, p: real, q: real)
    requires 0.0 <= a <= b && 0.0 <= p <= q
    ensures 0.0 <= a * p <= b * q
  {
    MulMonotone(0.0, a, p);
    MulMonotone(a, b, p);
    MulMonotone(p, q, b);
  }

  lemma {:induction false} DivMonotone(a: real, b: real, k: real)
    requires a <= b && 0.0 < k
    ensures a / k <= b / k
  {
    var x, y := a / k, b / k;
    assert x * k == a && y * k == b;
    if y < x {
      MulStrict(y, x, k);
      assert false;
    }
  }

  /** A quotient against a positive divisor, compared by cross-multiplying. */
  lemma {:induction false} DivCompare(a: real, k: real, b: real)
    requires 0.0 < k
    ensures a / k <= b <==> a <= b * k
    ensures a / k < b <==> a < b * k
    ensures a / k == b <==> a == b * k
  {
    var x := a / k;
    assert x * k == a;
    if x < b {
      MulStrict(x, b, k);
    } else if b < x {
      MulStrict(b, x, k);
    }
  }
}
