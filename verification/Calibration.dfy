/** Is a model's probability worth anything? Brier score and skill against the base
    rate, AUC by counting ordered pairs, reliability bands, and the decision rule. */
module Calibration {
  import opened Common
  import opened RealFacts
  import opened Rounding

  datatype Pair = Pair(p: real, y: bool)

  function Truth(y: bool): real {
    if y then 1.0 else 0.0
  }

  function Times(a: real, b: real): real {
    a * b
  }

  function Square(x: real): real {
    Times(x, x)
  }

  function SquaredError(pairs: seq<Pair>): real {
    if pairs == [] then 0.0
    else SquaredError(pairs[1..]) + Square(pairs[0].p - Truth(pairs[0].y))
  }

  function Positives(pairs: seq<Pair>): (n: nat)
    ensures n <= |pairs|
  {
    if pairs == [] then 0 else Positives(pairs[1..]) + if pairs[0].y then 1 else 0
  }

  function Brier(pairs: seq<Pair>): Option<real> {
    if pairs == [] then None else Some(SquaredError(pairs) / |pairs| as real)
  }

  function BaseRate(pairs: seq<Pair>): real
    requires pairs != []
  {
    Positives(pairs) as real / |pairs| as real
  }

  function BaseRateBrier(pairs: seq<Pair>): Option<real> {
    if pairs == [] then None else Some(BaseRate(pairs) * (1.0 - BaseRate(pairs)))
  }

  function Skill(pairs: seq<Pair>): Option<real> {
    var b, ref := Brier(pairs), BaseRateBrier(pairs);
    if b.None? || ref.None? || ref.value <= 0.0 then None
    else Some(1.0 - b.value / ref.value)
  }

  /** A predictor that always answers c. */
  ghost predicate Constant(pairs: seq<Pair>, c: real) {
    forall i :: 0 <= i < |pairs| ==> pairs[i].p == c
  }

  lemma {:induction false} ConstantError(pairs: seq<Pair>, c: real)
    requires Constant(pairs, c)
    ensures SquaredError(pairs) == Positives(pairs) as real * Square(c - 1.0)
                                   + (|pairs| - Positives(pairs)) as real * Square(c)
  {
    if pairs != [] {
      ConstantError(pairs[1..], c);
      var k, m := Positives(pairs[1..]), |pairs| - 1;
      OneMore(k as real, Square(c - 1.0));
      OneMore((m - k) as real, Square(c));
      assert pairs[0].p == c;
    }
  }

  lemma {:induction false} OneMore(k: real, x: real)
    ensures (k + 1.0) * x == k * x + x
  {
  }

  /** The Brier score of a constant splits exactly into the base-rate score plus the
      squared distance from the base rate. */
  lemma {:induction false} ConstantBrierSplits(pairs: seq<Pair>, c: real)
    requires pairs != [] && Constant(pairs, c)
    ensures Brier(pairs).value == BaseRateBrier(pairs).value + Square(c - BaseRate(pairs))
  {
    ConstantError(pairs, c);
    var n, k, rate := |pairs| as real, Positives(pairs) as real, BaseRate(pairs);
    DivCompare(k, n, rate);
    SplitAlgebra(n, k, rate, c, SquaredError(pairs));
  }

  lemma {:induction false} SplitAlgebra(n: real, k: real, rate: real, c: real, error: real)
    requires n > 0.0 && k == rate * n
    requires error == k * Square(c - 1.0) + (n - k) * Square(c)
    ensures error / n == rate * (1.0 - rate) + Square(c - rate)
  {
    var target := rate * (1.0 - rate) + Square(c - rate);
    TargetExpands(rate, c);
    var cc, rc := c * c, rate * c;
    assert k * c == rc * n by {
      assert (rate * n) * c == (rate * c) * n;
    }
    assert k * (cc - 2.0 * c + 1.0) == k * cc - 2.0 * (k * c) + k;
    assert (n - k) * cc == n * cc - k * cc;
    assert target * n == cc * n - 2.0 * (rc * n) + rate * n;
    DivCompare(error, n, target);
  }

  lemma {:induction false} TargetExpands(rate: real, c: real)
    ensures Square(c - 1.0) == c * c - 2.0 * c + 1.0 && Square(c) == c * c
    ensures rate * (1.0 - rate) + Square(c - rate) == c * c - 2.0 * (rate * c) + rate
  {
    assert Square(c - rate) == c * c - 2.0 * (rate * c) + rate * rate;
    assert rate * (1.0 - rate) == rate - rate * rate;
  }

  lemma {:induction false} SquareSign(x: real)
    ensures Square(x) >= 0.0
    ensures Square(x) == 0.0 <==> x == 0.0
  {
    if x > 0.0 {
      TimesPositive(x, x);
    } else if x < 0.0 {
      TimesPositive(-x, -x);
      assert Times(-x, -x) == Times(x, x);
    }
  }

  lemma {:induction false} TimesPositive(a: real, b: real)
    requires a > 0.0 && b > 0.0
    ensures Times(a, b) > 0.0
  {
    MulPositive(a, b);
  }

  /** No constant beats the base rate: its Brier score is the least, its skill is never
      positive, and both are attained exactly at the base rate. */
  lemma {:induction false} BaseRateIsTheBestConstant(pairs: seq<Pair>, c: real)
    requires pairs != [] && Constant(pairs, c)
    ensures Brier(pairs).value >= BaseRateBrier(pairs).value
    ensures Brier(pairs) == BaseRateBrier(pairs) <==> c == BaseRate(pairs)
    ensures Skill(pairs).Some? ==>
              Skill(pairs).value <= 0.0 && (Skill(pairs).value == 0.0 <==> c == BaseRate(pairs))
  {
    ConstantBrierSplits(pairs, c);
    SquareSign(c - BaseRate(pairs));
    var b, ref := Brier(pairs).value, BaseRateBrier(pairs).value;
    if ref > 0.0 {
      DivCompare(b, ref, 1.0);
    }
  }

  // ---------------------------------------------------------------------
  // AUC
  // ---------------------------------------------------------------------

  function ScoresOf(pairs: seq<Pair>, y: bool): seq<real> {
    if pairs == [] then []
    else (if pairs[0].y == y then [pairs[0].p] else []) + ScoresOf(pairs[1..], y)
  }

  /** A true case above a false one counts one, a tie counts half. */
  function Beats(a: real, b: real): real {
    if a > b then 1.0 else if a == b then 0.5 else 0.0
  }

  function WinsAgainst(a: real, neg: seq<real>): real {
    if neg == [] then 0.0 else WinsAgainst(a, neg[..|neg| - 1]) + Beats(a, neg[|neg| - 1])
  }

  function Wins(pos: seq<real>, neg: seq<real>): real {
    if pos == [] then 0.0 else Wins(pos[..|pos| - 1], neg) + WinsAgainst(pos[|pos| - 1], neg)
  }

  function AucOf(pos: seq<real>, neg: seq<real>): Option<real> {
    if pos == [] || neg == [] then None else Some(Wins(pos, neg) / (|pos| * |neg|) as real)
  }

  method CountWins(pos: seq<real>, neg: seq<real>) returns (wins: real)
    ensures wins == Wins(pos, neg)
  {
    wins := 0.0;
    for i := 0 to |pos|
      invariant wins == Wins(pos[..i], neg)
    {
      assert pos[..i + 1][..i] == pos[..i];
      for j := 0 to |neg|
        invariant wins == Wins(pos[..i], neg) + WinsAgainst(pos[i], neg[..j])
      {
        assert neg[..j + 1][..j] == neg[..j];
        wins := wins + Beats(pos[i], neg[j]);
      }
      assert neg[..|neg|] == neg;
    }
    assert pos[..|pos|] == pos;
  }

  method Auc(pairs: seq<Pair>) returns (auc: Option<real>)
    ensures auc == AucOf(ScoresOf(pairs, true), ScoresOf(pairs, false))
  {
    var pos, neg := ScoresOf(pairs, true), ScoresOf(pairs, false);
    if pos == [] || neg == [] {
      return None;
    }
    var wins := CountWins(pos, neg);
    return Some(wins / (|pos| * |neg|) as real);
  }

  lemma {:induction false} WinsAgainstBounds(a: real, neg: seq<real>)
    ensures 0.0 <= WinsAgainst(a, neg) <= |neg| as real
  {
    if neg != [] {
      WinsAgainstBounds(a, neg[..|neg| - 1]);
    }
  }

  lemma {:induction false} WinsBounds(pos: seq<real>, neg: seq<real>)
    ensures 0.0 <= Wins(pos, neg) <= (|pos| * |neg|) as real
  {
    if pos != [] {
      WinsBounds(pos[..|pos| - 1], neg);
      WinsAgainstBounds(pos[|pos| - 1], neg);
      assert |pos| * |neg| == (|pos| - 1) * |neg| + |neg|;
    }
  }

  lemma {:induction false} PairCount(pos: seq<real>, neg: seq<real>)
    requires pos != [] && neg != []
    ensures |pos| * |neg| > 0
  {
  }

  lemma {:induction false} AucInUnit(pos: seq<real>, neg: seq<real>)
    requires AucOf(pos, neg).Some?
    ensures 0.0 <= AucOf(pos, neg).value <= 1.0
  {
    WinsBounds(pos, neg);
    PairCount(pos, neg);
    DivCompare(Wins(pos, neg), (|pos| * |neg|) as real, 1.0);
    DivMonotone(0.0, Wins(pos, neg), (|pos| * |neg|) as real);
  }

  /** Adding one false case: what it concedes to each true case. */
  lemma {:induction false} WinsSplitLast(pos: seq<real>, neg: seq<real>)
    requires neg != []
    ensures Wins(pos, neg) + WinsAgainst(neg[|neg| - 1], pos)
            == Wins(pos, neg[..|neg| - 1]) + |pos| as real
  {
    if pos != [] {
      WinsSplitLast(pos[..|pos| - 1], neg);
      assert Beats(pos[|pos| - 1], neg[|neg| - 1]) + Beats(neg[|neg| - 1], pos[|pos| - 1]) == 1.0;
    }
  }

  /** Every ordered pair is won by one side or shared. */
  lemma {:induction false} WinsComplement(pos: seq<real>, neg: seq<real>)
    ensures Wins(pos, neg) + Wins(neg, pos) == (|pos| * |neg|) as real
    decreases |neg|
  {
    if neg == [] {
      WinsAgainstNone(pos);
    } else {
      WinsSplitLast(pos, neg);
      WinsComplement(pos, neg[..|neg| - 1]);
      assert |pos| * |neg| == |pos| * (|neg| - 1) + |pos|;
    }
  }

  lemma {:induction false} WinsAgainstNone(pos: seq<real>)
    ensures Wins(pos, []) == 0.0
  {
    if pos != [] {
      WinsAgainstNone(pos[..|pos| - 1]);
    }
  }

  function Flip(pairs: seq<Pair>): (out: seq<Pair>)
    ensures |out| == |pairs|
    ensures forall i :: 0 <= i < |pairs| ==> out[i] == Pair(pairs[i].p, !pairs[i].y)
  {
    seq(|pairs|, i requires 0 <= i < |pairs| => Pair(pairs[i].p, !pairs[i].y))
  }

  lemma {:induction false} FlipSwapsScores(pairs: seq<Pair>, y: bool)
    ensures ScoresOf(Flip(pairs), y) == ScoresOf(pairs, !y)
  {
    if pairs != [] {
      FlipSwapsScores(pairs[1..], y);
      assert Flip(pairs)[1..] == Flip(pairs[1..]);
    }
  }

  /** Flipping every label turns AUC into one minus AUC. */
  lemma {:induction false} FlippedLabelsComplementAuc(pairs: seq<Pair>)
    ensures var auc := AucOf(ScoresOf(pairs, true), ScoresOf(pairs, false));
            var flipped := AucOf(ScoresOf(Flip(pairs), true), ScoresOf(Flip(pairs), false));
            && auc.Some? == flipped.Some?
            && (auc.Some? ==> flipped.value == 1.0 - auc.value)
  {
    FlipSwapsScores(pairs, true);
    FlipSwapsScores(pairs, false);
    var pos, neg := ScoresOf(pairs, true), ScoresOf(pairs, false);
    if pos != [] && neg != [] {
      WinsComplement(pos, neg);
      PairCount(pos, neg);
      ProductCommutes(|pos|, |neg|);
      SharesOfOne(Wins(pos, neg), Wins(neg, pos), (|pos| * |neg|) as real);
    }
  }

  lemma {:induction false} ProductCommutes(a: int, b: int)
    ensures a * b == b * a
  {
  }

  lemma {:induction false} SharesOfOne(a: real, b: real, n: real)
    requires n > 0.0 && a + b == n
    ensures b / n == 1.0 - a / n
  {
    var x := a / n;
    assert x * n == a;
    DivCompare(b, n, 1.0 - x);
    assert (1.0 - x) * n == n - x * n;
  }

  /** f keeps the order of the scores that occur. */
  ghost predicate StrictlyIncreasing(f: real -> real) {
    forall a, b :: a < b ==> f(a) < f(b)
  }

  function MapScores(f: real -> real, s: seq<real>): (out: seq<real>)
    ensures |out| == |s|
    ensures forall i :: 0 <= i < |s| ==> out[i] == f(s[i])
  {
    seq(|s|, i requires 0 <= i < |s| => f(s[i]))
  }

  lemma {:induction false} BeatsUnderMap(f: real -> real, a: real, b: real)
    requires StrictlyIncreasing(f)
    ensures Beats(f(a), f(b)) == Beats(a, b)
  {
  }

  lemma {:induction false} WinsAgainstUnderMap(f: real -> real, a: real, neg: seq<real>)
    requires StrictlyIncreasing(f)
    ensures WinsAgainst(f(a), MapScores(f, neg)) == WinsAgainst(a, neg)
  {
    if neg != [] {
      var n := |neg| - 1;
      WinsAgainstUnderMap(f, a, neg[..n]);
      BeatsUnderMap(f, a, neg[n]);
      assert MapScores(f, neg)[..n] == MapScores(f, neg[..n]);
    }
  }

  /** AUC depends only on the order of the scores. */
  lemma {:induction false} AucIgnoresRescaling(f: real -> real, pos: seq<real>, neg: seq<real>)
    requires StrictlyIncreasing(f)
    ensures Wins(MapScores(f, pos), MapScores(f, neg)) == Wins(pos, neg)
    ensures AucOf(MapScores(f, pos), MapScores(f, neg)) == AucOf(pos, neg)
  {
    if pos != [] {
      var n := |pos| - 1;
      AucIgnoresRescaling(f, pos[..n], neg);
      WinsAgainstUnderMap(f, pos[n], neg);
      assert MapScores(f, pos)[..n] == MapScores(f, pos[..n]);
    }
  }

  lemma {:induction false} ConstantScores(pairs: seq<Pair>, c: real, y: bool)
    requires Constant(pairs, c)
    ensures forall i :: 0 <= i < |ScoresOf(pairs, y)| ==> ScoresOf(pairs, y)[i] == c
  {
    if pairs != [] {
      ConstantScores(pairs[1..], c, y);
    }
  }

  lemma {:induction false} EqualScoresTie(pos: seq<real>, neg: seq<real>, c: real)
    requires forall i :: 0 <= i < |pos| ==> pos[i] == c
    requires forall i :: 0 <= i < |neg| ==> neg[i] == c
    ensures Wins(pos, neg) == 0.5 * (|pos| * |neg|) as real
  {
    if pos != [] {
      EqualScoresTie(pos[..|pos| - 1], neg, c);
      TiesAgainst(c, neg);
      assert |pos| * |neg| == (|pos| - 1) * |neg| + |neg|;
    }
  }

  lemma {:induction false} TiesAgainst(c: real, neg: seq<real>)
    requires forall i :: 0 <= i < |neg| ==> neg[i] == c
    ensures WinsAgainst(c, neg) == 0.5 * |neg| as real
  {
    if neg != [] {
      TiesAgainst(c, neg[..|neg| - 1]);
    }
  }

  /** A constant predictor discriminates nothing: its AUC is exactly one half. */
  lemma {:induction false} ConstantAucIsHalf(pairs: seq<Pair>, c: real)
    requires Constant(pairs, c)
    requires ScoresOf(pairs, true) != [] && ScoresOf(pairs, false) != []
    ensures AucOf(ScoresOf(pairs, true), ScoresOf(pairs, false)) == Some(0.5)
  {
    var pos, neg := ScoresOf(pairs, true), ScoresOf(pairs, false);
    ConstantScores(pairs, c, true);
    ConstantScores(pairs, c, false);
    EqualScoresTie(pos, neg, c);
    PairCount(pos, neg);
    DivCompare(Wins(pos, neg), (|pos| * |neg|) as real, 0.5);
  }

  /** Every true case scores above every false one. */
  predicate Separates(pos: seq<real>, neg: seq<real>) {
    forall i, j :: 0 <= i < |pos| && 0 <= j < |neg| ==> pos[i] > neg[j]
  }

  lemma {:induction false} WinsAllAgainstIff(a: real, neg: seq<real>)
    ensures WinsAgainst(a, neg) == |neg| as real <==> forall j :: 0 <= j < |neg| ==> a > neg[j]
  {
    if neg != [] {
      WinsAllAgainstIff(a, neg[..|neg| - 1]);
      WinsAgainstBounds(a, neg[..|neg| - 1]);
    }
  }

  lemma {:induction false} WinsAllIff(pos: seq<real>, neg: seq<real>)
    ensures Wins(pos, neg) == (|pos| * |neg|) as real <==> Separates(pos, neg)
  {
    if pos != [] {
      var n := |pos| - 1;
      WinsAllIff(pos[..n], neg);
      WinsAllAgainstIff(pos[n], neg);
      WinsBounds(pos[..n], neg);
      WinsAgainstBounds(pos[n], neg);
      assert |pos| * |neg| == n * |neg| + |neg|;
      SeparatesLast(pos, neg);
    }
  }

  lemma {:induction false} SeparatesLast(pos: seq<real>, neg: seq<real>)
    requires pos != []
    ensures var n := |pos| - 1;
            Separates(pos, neg) <==> Separates(pos[..n], neg) && forall j :: 0 <= j < |neg| ==> pos[n] > neg[j]
  {
  }

  /** AUC is one exactly when every true case scores above every false one, and zero exactly
      when every false case scores above every true one. */
  lemma {:induction false} PerfectAucIff(pos: seq<real>, neg: seq<real>)
    requires AucOf(pos, neg).Some?
    ensures AucOf(pos, neg).value == 1.0 <==> Separates(pos, neg)
    ensures AucOf(pos, neg).value == 0.0 <==> Separates(neg, pos)
  {
    PairCount(pos, neg);
    WinsAllIff(pos, neg);
    WinsAllIff(neg, pos);
    WinsComplement(pos, neg);
    ProductCommutes(|pos|, |neg|);
    DivCompare(Wins(pos, neg), (|pos| * |neg|) as real, 1.0);
    DivCompare(Wins(pos, neg), (|pos| * |neg|) as real, 0.0);
  }

  /** A Brier score is never negative, and zero exactly for probabilities that are the truth;
      only those have a skill of one, and none has more. */
  lemma {:induction false} BrierIsZeroIff(pairs: seq<Pair>)
    requires pairs != []
    ensures Brier(pairs).value >= 0.0
    ensures Brier(pairs).value == 0.0 <==> forall pair :: pair in pairs ==> pair.p == Truth(pair.y)
    ensures Skill(pairs).Some? ==>
              Skill(pairs).value <= 1.0 && (Skill(pairs).value == 1.0 <==> Brier(pairs).value == 0.0)
  {
    ErrorIsZeroIff(pairs);
    if Skill(pairs).Some? {
      DivCompare(Brier(pairs).value, BaseRateBrier(pairs).value, 0.0);
      DivMonotone(0.0, Brier(pairs).value, BaseRateBrier(pairs).value);
    }
    DivCompare(SquaredError(pairs), |pairs| as real, 0.0);
    DivMonotone(0.0, SquaredError(pairs), |pairs| as real);
    assert 0.0 / |pairs| as real == 0.0;
  }

  lemma {:induction false} ErrorIsZeroIff(pairs: seq<Pair>)
    ensures SquaredError(pairs) >= 0.0
    ensures SquaredError(pairs) == 0.0 <==> forall pair :: pair in pairs ==> pair.p == Truth(pair.y)
  {
    if pairs != [] {
      ErrorIsZeroIff(pairs[1..]);
      SquareSign(pairs[0].p - Truth(pairs[0].y));
      assert pairs == [pairs[0]] + pairs[1..];
    }
  }

  // ---------------------------------------------------------------------
  // Reliability bands
  // ---------------------------------------------------------------------

  /** Band i of the given number holds [i/bins, (i+1)/bins), the last one also 1. */
  predicate InBand(p: real, i: nat, bins: nat)
    requires i < bins
  {
    (i as real / bins as real <= p < (i + 1) as real / bins as real) || (i == bins - 1 && p == 1.0)
  }

  function Select(pairs: seq<Pair>, inside: real -> bool): seq<Pair> {
    if pairs == [] then []
    else (if inside(pairs[0].p) then [pairs[0]] else []) + Select(pairs[1..], inside)
  }

  function Band(pairs: seq<Pair>, i: nat, bins: nat): seq<Pair>
    requires i < bins
  {
    Select(pairs, (p: real) => InBand(p, i, bins))
  }

  lemma {:induction false} SelectOneMore(pairs: seq<Pair>, last: Pair, inside: real -> bool)
    ensures Select(pairs + [last], inside) == Select(pairs, inside) + if inside(last.p) then [last] else []
  {
    if pairs == [] {
      assert [] + [last] == [last];
    } else {
      SelectOneMore(pairs[1..], last, inside);
      assert (pairs + [last])[1..] == pairs[1..] + [last];
    }
  }

  function SumP(pairs: seq<Pair>): real {
    if pairs == [] then 0.0 else pairs[0].p + SumP(pairs[1..])
  }

  datatype BandRow = BandRow(lo: real, hi: real, n: nat, meanP: Option<real>, observed: Option<real>)

  function RowOf(pairs: seq<Pair>, i: nat, bins: nat): BandRow
    requires i < bins
  {
    var inside := Band(pairs, i, bins);
    BandRow(RoundTo(i as real / bins as real, 0.01), RoundTo((i + 1) as real / bins as real, 0.01),
            |inside|,
            if inside == [] then None else Some(RoundTo(SumP(inside) / |inside| as real, 0.001)),
            if inside == [] then None
            else Some(RoundTo(Positives(inside) as real / |inside| as real, 0.001)))
  }

  /** The pairs of one band, with their sums, gathered in one pass. */
  method GatherBand(pairs: seq<Pair>, i: nat, bins: nat) returns (n: nat, sumP: real, positives: nat)
    requires i < bins
    ensures n == |Band(pairs, i, bins)|
    ensures sumP == SumP(Band(pairs, i, bins)) && positives == Positives(Band(pairs, i, bins))
  {
    n, sumP, positives := 0, 0.0, 0;
    for k := 0 to |pairs|
      invariant n == |Band(pairs[..k], i, bins)|
      invariant sumP == SumP(Band(pairs[..k], i, bins))
      invariant positives == Positives(Band(pairs[..k], i, bins))
    {
      assert pairs[..k + 1] == pairs[..k] + [pairs[k]];
      BandOfOneMore(pairs[..k], pairs[k], i, bins);
      if InBand(pairs[k].p, i, bins) {
        SumsOfOneMore(Band(pairs[..k], i, bins), pairs[k]);
        n := n + 1;
        sumP := sumP + pairs[k].p;
        positives := positives + if pairs[k].y then 1 else 0;
      } else {
        assert Band(pairs[..k], i, bins) + [] == Band(pairs[..k], i, bins);
      }
    }
    assert pairs[..|pairs|] == pairs;
  }

  lemma {:induction false} BandOfOneMore(pairs: seq<Pair>, last: Pair, i: nat, bins: nat)
    requires i < bins
    ensures Band(pairs + [last], i, bins)
            == Band(pairs, i, bins) + if InBand(last.p, i, bins) then [last] else []
  {
    SelectOneMore(pairs, last, (p: real) => InBand(p, i, bins));
  }

  lemma {:induction false} SumsOfOneMore(pairs: seq<Pair>, last: Pair)
    ensures SumP(pairs + [last]) == SumP(pairs) + last.p
    ensures Positives(pairs + [last]) == Positives(pairs) + if last.y then 1 else 0
  {
    if pairs == [] {
      assert [] + [last] == [last] && [last][1..] == [];
    } else {
      SumsOfOneMore(pairs[1..], last);
      assert (pairs + [last])[1..] == pairs[1..] + [last];
    }
  }

  method Reliability(pairs: seq<Pair>, bins: nat) returns (rows: seq<BandRow>)
    ensures |rows| == bins
    ensures forall i :: 0 <= i < bins ==> rows[i] == RowOf(pairs, i, bins)
  {
    rows := [];
    for i := 0 to bins
      invariant |rows| == i
      invariant forall j :: 0 <= j < i ==> rows[j] == RowOf(pairs, j, bins)
    {
      var n, sumP, positives := GatherBand(pairs, i, bins);
      var lo, hi := i as real / bins as real, (i + 1) as real / bins as real;
      var mean, observed := None, None;
      if n > 0 {
        mean := Some(RoundTo(sumP / n as real, 0.001));
        observed := Some(RoundTo(positives as real / n as real, 0.001));
      }
      rows := rows + [BandRow(RoundTo(lo, 0.01), RoundTo(hi, 0.01), n, mean, observed)];
    }
  }

  /** The same band, read on the probability scaled up to the number of bands. */
  predicate InScaledBand(x: real, p: real, i: nat, bins: nat) {
    i as real <= x < (i + 1) as real || (i == bins - 1 && p == 1.0)
  }

  lemma {:induction false} ScaledBands(x: real, p: real, bins: nat)
    requires bins > 0
    requires 0.0 <= p < 1.0 ==> 0.0 <= x < bins as real
    requires p == 1.0 ==> x == bins as real
    ensures 0.0 <= p <= 1.0 ==> exists i: nat :: i < bins && InScaledBand(x, p, i, bins)
    ensures forall i: nat, j: nat ::
              i < bins && j < bins && InScaledBand(x, p, i, bins) && InScaledBand(x, p, j, bins) ==> i == j
  {
    if 0.0 <= p <= 1.0 {
      var i := if p == 1.0 then bins - 1 else x.Floor;
      assert InScaledBand(x, p, i, bins);
    }
  }

  function ScaledUp(p: real, bins: nat): real {
    p * bins as real
  }

  /** Every probability falls in exactly one band, and nothing else falls in any. */
  lemma {:induction false} BandsPartition(p: real, bins: nat)
    requires bins > 0
    ensures 0.0 <= p <= 1.0 <==> exists i: nat :: i < bins && InBand(p, i, bins)
    ensures forall i: nat, j: nat :: i < bins && j < bins && InBand(p, i, bins) && InBand(p, j, bins) ==> i == j
  {
    forall i: nat | i < bins
      ensures InBand(p, i, bins) <==> InScaledBand(ScaledUp(p, bins), p, i, bins)
      ensures InBand(p, i, bins) ==> 0.0 <= p <= 1.0
    {
      BandEdges(p, i, bins);
    }
    ScaleIntoBands(p, bins);
    ScaledBands(ScaledUp(p, bins), p, bins);
    if 0.0 <= p <= 1.0 {
      var i: nat :| i < bins && InScaledBand(ScaledUp(p, bins), p, i, bins);
      assert InBand(p, i, bins);
    }
  }

  lemma {:induction false} ScaleIntoBands(p: real, bins: nat)
    requires bins > 0
    ensures 0.0 <= p < 1.0 ==> 0.0 <= ScaledUp(p, bins) < bins as real
    ensures p == 1.0 ==> ScaledUp(p, bins) == bins as real
  {
    if 0.0 <= p < 1.0 {
      MulMonotone(0.0, p, bins as real);
      MulStrict(p, 1.0, bins as real);
    }
  }

  lemma {:induction false} BandEdges(p: real, i: nat, bins: nat)
    requires i < bins
    ensures InBand(p, i, bins) <==> InScaledBand(p * bins as real, p, i, bins)
    ensures InBand(p, i, bins) ==> 0.0 <= p <= 1.0
  {
    var b := bins as real;
    DivCompare(i as real, b, p);
    DivCompare((i + 1) as real, b, p);
    DivMonotone(0.0, i as real, b);
    DivCompare((i + 1) as real, b, 1.0);
  }

  function CountIn(pairs: seq<Pair>, upTo: nat, bins: nat): nat
    requires upTo <= bins
  {
    if upTo == 0 then 0 else CountIn(pairs, upTo - 1, bins) + |Band(pairs, upTo - 1, bins)|
  }

  function Probabilities(pairs: seq<Pair>): nat {
    if pairs == [] then 0
    else Probabilities(pairs[1..]) + if 0.0 <= pairs[0].p <= 1.0 then 1 else 0
  }

  ghost predicate InSome(p: real, upTo: nat, bins: nat)
    requires upTo <= bins
  {
    exists i: nat :: i < upTo && InBand(p, i, bins)
  }

  /** Bands do not overlap: the next band holds p only if no earlier one does. */
  lemma {:induction false} InSomeStep(p: real, upTo: nat, bins: nat)
    requires 0 < upTo <= bins
    ensures InSome(p, upTo, bins) <==> InSome(p, upTo - 1, bins) || InBand(p, upTo - 1, bins)
    ensures !(InSome(p, upTo - 1, bins) && InBand(p, upTo - 1, bins))
  {
    BandsPartition(p, bins);
    if InSome(p, upTo, bins) && !InBand(p, upTo - 1, bins) {
      var i: nat :| i < upTo && InBand(p, i, bins);
      assert i < upTo - 1;
    }
  }

  lemma {:induction false} CountOfOne(pair: Pair, rest: seq<Pair>, upTo: nat, bins: nat)
    requires upTo <= bins && bins > 0
    ensures CountIn([pair] + rest, upTo, bins)
            == CountIn(rest, upTo, bins) + if InSome(pair.p, upTo, bins) then 1 else 0
  {
    if upTo > 0 {
      CountOfOne(pair, rest, upTo - 1, bins);
      InSomeStep(pair.p, upTo, bins);
      BandOfFirst(pair, rest, upTo - 1, bins);
    }
  }

  lemma {:induction false} BandOfFirst(pair: Pair, rest: seq<Pair>, i: nat, bins: nat)
    requires i < bins
    ensures |Band([pair] + rest, i, bins)| == |Band(rest, i, bins)| + if InBand(pair.p, i, bins) then 1 else 0
  {
    assert ([pair] + rest)[1..] == rest;
  }

  lemma {:induction false} NothingCounted(upTo: nat, bins: nat)
    requires upTo <= bins
    ensures CountIn([], upTo, bins) == 0
  {
    if upTo > 0 {
      NothingCounted(upTo - 1, bins);
    }
  }

  /** The band counts add up to the number of pairs whose p is a probability. */
  lemma {:induction false} BandsCountEveryProbability(pairs: seq<Pair>, bins: nat)
    requires bins > 0
    ensures CountIn(pairs, bins, bins) == Probabilities(pairs)
  {
    if pairs == [] {
      NothingCounted(bins, bins);
    } else {
      BandsCountEveryProbability(pairs[1..], bins);
      CountOfOne(pairs[0], pairs[1..], bins, bins);
      BandsPartition(pairs[0].p, bins);
      assert [pairs[0]] + pairs[1..] == pairs;
    }
  }

  lemma {:induction false} BandSumBetween(inside: seq<Pair>, lo: real, hi: real)
    requires forall k :: 0 <= k < |inside| ==> lo <= inside[k].p <= hi
    ensures Times(lo, |inside| as real) <= SumP(inside) <= Times(hi, |inside| as real)
  {
    if inside != [] {
      BandSumBetween(inside[1..], lo, hi);
      OneMore((|inside| - 1) as real, lo);
      OneMore((|inside| - 1) as real, hi);
      assert Times(lo, |inside| as real) == Times(lo, (|inside| - 1) as real) + lo;
      assert Times(hi, |inside| as real) == Times(hi, (|inside| - 1) as real) + hi;
    }
  }

  lemma {:induction false} SelectIsInside(pairs: seq<Pair>, inside: real -> bool)
    ensures forall k :: 0 <= k < |Select(pairs, inside)| ==> inside(Select(pairs, inside)[k].p)
  {
    if pairs != [] {
      SelectIsInside(pairs[1..], inside);
    }
  }

  /** The mean a row reports lies in the row's own band, and the share it reports is a
      probability, each up to the third place. */
  lemma {:induction false} RowsLieInTheirBands(pairs: seq<Pair>, i: nat, bins: nat)
    requires i < bins
    ensures var row := RowOf(pairs, i, bins);
            && (row.n > 0 <==> row.meanP.Some?) && row.observed.Some? == row.meanP.Some?
            && (row.n > 0 ==>
                  && i as real / bins as real - 0.0005 <= row.meanP.value <= (i + 1) as real / bins as real + 0.0005
                  && -0.0005 <= row.observed.value <= 1.0005)
  {
    var inside, lo, hi := Band(pairs, i, bins), i as real / bins as real, (i + 1) as real / bins as real;
    if inside != [] {
      var n := |inside| as real;
      SelectIsInside(pairs, (p: real) => InBand(p, i, bins));
      DivCompare(bins as real, bins as real, 1.0);
      DivMonotone(i as real, (i + 1) as real, bins as real);
      BandSumBetween(inside, lo, hi);
      MeanBetween(SumP(inside), n, lo, hi);
      MeanBetween(Positives(inside) as real, n, 0.0, 1.0);
      RoundToNear(SumP(inside) / n, 0.001);
      RoundToNear(Positives(inside) as real / n, 0.001);
    }
  }

  lemma {:induction false} MeanBetween(total: real, n: real, lo: real, hi: real)
    requires n > 0.0 && Times(lo, n) <= total <= Times(hi, n)
    ensures lo <= total / n <= hi
  {
    DivCompare(total, n, hi);
    DivCompare(total, n, lo);
  }

  // ---------------------------------------------------------------------
  // The decision rule
  // ---------------------------------------------------------------------

  function Correct(pairs: seq<Pair>, threshold: real): (n: nat)
    ensures n <= |pairs|
  {
    if pairs == [] then 0
    else Correct(pairs[1..], threshold) + if (pairs[0].p >= threshold) == pairs[0].y then 1 else 0
  }

  /** The share of cases the rule p >= threshold decides correctly, to three places. */
  function Accuracy(pairs: seq<Pair>, threshold: real): Option<real> {
    if pairs == [] then None
    else Some(RoundTo(ShareCorrect(pairs, threshold), 0.001))
  }

  function ShareCorrect(pairs: seq<Pair>, threshold: real): real
    requires pairs != []
  {
    Correct(pairs, threshold) as real / |pairs| as real
  }

  lemma {:induction false} AllCorrect(pairs: seq<Pair>, threshold: real)
    requires pairs != [] && threshold <= 1.0 && forall pair :: pair in pairs ==> pair == Pair(1.0, true)
    ensures Accuracy(pairs, threshold) == Some(1.0)
  {
    CorrectIsAll(pairs, threshold);
    DivCompare(|pairs| as real, |pairs| as real, 1.0);
    GridPoint(1000, 0.001);
    assert GridAt(1000, 0.001) == 1.0;
  }

  lemma {:induction false} CorrectIsAll(pairs: seq<Pair>, threshold: real)
    requires threshold <= 1.0 && forall pair :: pair in pairs ==> pair == Pair(1.0, true)
    ensures Correct(pairs, threshold) == |pairs|
  {
    if pairs != [] {
      assert pairs[0] in pairs && forall pair :: pair in pairs[1..] ==> pair in pairs;
      CorrectIsAll(pairs[1..], threshold);
    }
  }

  /** A comparison with the rounded accuracy is a comparison with the share of correct
      cases half a place lower: exactly so at an even number of thousandths. */
  lemma {:induction false} RoundedAccuracyIff(pairs: seq<Pair>, threshold: real, thousandths: nat)
    requires pairs != [] && thousandths % 2 == 0
    ensures Accuracy(pairs, threshold).value >= GridAt(thousandths, 0.001)
            <==> ShareCorrect(pairs, threshold) >= GridAt(thousandths, 0.001) - 0.0005
  {
    RoundReachesIff(ShareCorrect(pairs, threshold), thousandths, 0.001);
  }
}
