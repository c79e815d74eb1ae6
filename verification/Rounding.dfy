/** Decimal rounding on exact reals: half-even for prices and stored figures,
    downward for trade sizes. The grid is a step, not a number of decimals. */
module Rounding {

  /** The integer nearest to x, an exact half going to the even neighbour. */
  function RoundHalfEven(x: real): (n: int)
    ensures -0.5 <= x - n as real <= 0.5
    ensures x - n as real in {-0.5, 0.5} ==> n % 2 == 0
  {
    var f := x.Floor;
    var d := x - f as real;
    if d < 0.5 || (d == 0.5 && f % 2 == 0) then f else f + 1
  }

  /** How many steps make x. */
  function Steps(x: real, step: real): real
    requires step > 0.0
  {
    x / step
  }

  /** The n-th grid point. */
  function GridAt(n: int, step: real): real {
    n as real * step
  }

  /** Snap x to the grid of multiples of step. */
  function RoundTo(x: real, step: real): real
    requires step > 0.0
  {
    GridAt(RoundHalfEven(Steps(x, step)), step)
  }

  /** Snap x to the grid, never upward. */
  function FloorTo(x: real, step: real): real
    requires step > 0.0
  {
    GridAt(Steps(x, step).Floor, step)
  }

  predicate OnGrid(x: real, step: real)
    requires step > 0.0
  {
    FloorTo(x, step) == x
  }

  lemma {:induction false} StepsMonotone(a: real, b: real, step: real)
    requires step > 0.0
    ensures a <= b <==> Steps(a, step) <= Steps(b, step)
  {
    var p, q := a / step, b / step;
    assert p * step == a && q * step == b;
    if p <= q {
      assert p * step <= q * step;
    } else {
      assert p * step > q * step;
    }
  }

  lemma {:induction false} GridMonotone(m: int, n: int, step: real)
    requires step > 0.0 && m <= n
    ensures GridAt(m, step) <= GridAt(n, step)
  {
  }

  /** A value is within the same distance of a grid point as it is in steps. */
  lemma {:induction false} GridDistance(x: real, n: int, d: real, step: real)
    requires step > 0.0
    ensures Steps(x, step) - n as real <= d <==> x - GridAt(n, step) <= d * step
    ensures n as real - Steps(x, step) <= d <==> GridAt(n, step) - x <= d * step
  {
    var q := x / step;
    assert q * step == x;
    assert x - GridAt(n, step) == (q - n as real) * step;
    if q - n as real <= d {
      assert (q - n as real) * step <= d * step;
    } else {
      assert (q - n as real) * step > d * step;
    }
    if n as real - q <= d {
      assert (n as real - q) * step <= d * step;
    } else {
      assert (n as real - q) * step > d * step;
    }
  }

  /** Multiples of the step are grid points, and rounding keeps them. */
  lemma {:induction false} GridPoint(n: int, step: real)
    requires step > 0.0
    ensures Steps(GridAt(n, step), step) == n as real
    ensures OnGrid(GridAt(n, step), step)
    ensures RoundTo(GridAt(n, step), step) == GridAt(n, step)
  {
    GridDistance(GridAt(n, step), n, 0.0, step);
  }

  lemma {:induction false} RoundToFixesGrid(x: real, step: real)
    requires step > 0.0 && OnGrid(x, step)
    ensures RoundTo(x, step) == x
  {
    GridPoint(Steps(x, step).Floor, step);
  }

  lemma {:induction false} RoundToMonotone(x: real, y: real, step: real)
    requires step > 0.0 && x <= y
    ensures RoundTo(x, step) <= RoundTo(y, step)
  {
    StepsMonotone(x, y, step);
    GridMonotone(RoundHalfEven(Steps(x, step)), RoundHalfEven(Steps(y, step)), step);
  }

  /** Whether rounding reaches a grid point from below, or from above: the value is nearer
      than half a step, or exactly half a step away from an even point. */
  lemma {:induction false} RoundReachesIff(x: real, n: int, step: real)
    requires step > 0.0
    ensures RoundTo(x, step) >= GridAt(n, step)
            <==> GridAt(n, step) - x < 0.5 * step || (GridAt(n, step) - x == 0.5 * step && n % 2 == 0)
    ensures RoundTo(x, step) <= GridAt(n, step)
            <==> x - GridAt(n, step) < 0.5 * step || (x - GridAt(n, step) == 0.5 * step && n % 2 == 0)
  {
    var q := Steps(x, step);
    var r := RoundHalfEven(q);
    GridDistance(x, n, 0.5, step);
    GridDistance(x, n, -0.5, step);
    NearestReachesIff(q, n);
    GridOrder(r, n, step);
  }

  lemma {:induction false} NearestReachesIff(q: real, n: int)
    ensures RoundHalfEven(q) >= n <==> n as real - q < 0.5 || (n as real - q == 0.5 && n % 2 == 0)
    ensures RoundHalfEven(q) <= n <==> q - n as real < 0.5 || (q - n as real == 0.5 && n % 2 == 0)
  {
  }

  lemma {:induction false} GridOrder(m: int, n: int, step: real)
    requires step > 0.0
    ensures m <= n <==> GridAt(m, step) <= GridAt(n, step)
  {
    if m <= n {
      GridMonotone(m, n, step);
    } else {
      GridMonotone(n + 1, m, step);
      assert GridAt(n + 1, step) == GridAt(n, step) + step;
    }
  }

  /** Rounding moves a value by at most half a step and lands on the grid. */
  lemma {:induction false} RoundToNear(x: real, step: real)
    requires step > 0.0
    ensures OnGrid(RoundTo(x, step), step)
    ensures -0.5 * step <= x - RoundTo(x, step) <= 0.5 * step
  {
    var n := RoundHalfEven(Steps(x, step));
    GridPoint(n, step);
    GridDistance(x, n, 0.5, step);
  }

  /** Between two grid points, rounding stays between them. */
  lemma {:induction false} RoundToBetween(lo: real, x: real, hi: real, step: real)
    requires step > 0.0 && OnGrid(lo, step) && OnGrid(hi, step) && lo <= x <= hi
    ensures lo <= RoundTo(x, step) <= hi
  {
    RoundToFixesGrid(lo, step);
    RoundToFixesGrid(hi, step);
    RoundToMonotone(lo, x, step);
    RoundToMonotone(x, hi, step);
  }

  lemma {:induction false} FloorToMonotone(x: real, y: real, step: real)
    requires step > 0.0 && x <= y
    ensures FloorTo(x, step) <= FloorTo(y, step)
  {
    StepsMonotone(x, y, step);
    GridMonotone(Steps(x, step).Floor, Steps(y, step).Floor, step);
  }

  /** Rounding down gives the largest grid point that does not exceed x. */
  lemma {:induction false} FloorToGreatest(x: real, step: real)
    requires step > 0.0
    ensures OnGrid(FloorTo(x, step), step)
    ensures 0.0 <= x - FloorTo(x, step) <= step
    ensures forall y :: OnGrid(y, step) && y <= x ==> y <= FloorTo(x, step)
  {
    var n := Steps(x, step).Floor;
    GridPoint(n, step);
    GridDistance(x, n, 0.0, step);
    GridDistance(x, n, 1.0, step);
    forall y | OnGrid(y, step) && y <= x
      ensures y <= FloorTo(x, step)
    {
      FloorToMonotone(y, x, step);
    }
  }
}
