/** Benjamini-Hochberg correction of one family of tests: the step-up rejection
    rule, and the adjusted p-values reported beside it, computed by a running
    minimum from the largest raw p-value down. */
module FalseDiscovery {
  import opened Common

  ghost predicate IsPermutation(order: seq<nat>, n: nat) {
    && |order| == n
    && (forall k :: 0 <= k < n ==> order[k] < n)
    && (forall j, k :: 0 <= j < k < n ==> order[j] != order[k])
    && forall i: nat :: i < n ==> i in order
  }

  /** An ascending argsort; equal values may come in any order. */
  ghost predicate IsArgsort(raw: seq<real>, order: seq<nat>) {
    && IsPermutation(order, |raw|)
    && forall j, k :: 0 <= j < k < |raw| ==> raw[order[j]] <= raw[order[k]]
  }

  /** A stable sort by descending raw p-value: ties keep their list order. */
  ghost predicate IsStableDescending(raw: seq<real>, visit: seq<nat>) {
    && IsPermutation(visit, |raw|)
    && forall j, k :: 0 <= j < k < |raw| ==>
         raw[visit[j]] > raw[visit[k]] || (raw[visit[j]] == raw[visit[k]] && visit[j] < visit[k])
  }

  /** The one-based position of i in the ascending order. */
  function Rank(order: seq<nat>, i: nat): (r: nat)
    requires i in order
    ensures 1 <= r <= |order| && order[r - 1] == i
  {
    if order[0] == i then 1 else 1 + Rank(order[1..], i)
  }

  lemma {:induction false} RankAt(order: seq<nat>, n: nat, k: nat)
    requires IsPermutation(order, n) && k < n
    ensures Rank(order, order[k]) == k + 1
  {
  }

  lemma {:induction false} RankOrder(raw: seq<real>, order: seq<nat>, i: nat, j: nat)
    requires IsArgsort(raw, order) && i < |raw| && j < |raw|
    ensures raw[i] < raw[j] ==> Rank(order, i) < Rank(order, j)
    ensures Rank(order, i) <= Rank(order, j) ==> raw[i] <= raw[j]
    ensures Rank(order, i) == Rank(order, j) ==> i == j
  {
  }

  // ---------------------------------------------------------------------
  // The step-up procedure
  // ---------------------------------------------------------------------

  function Threshold(alpha: real, rank: nat, m: nat): real
    requires m > 0
  {
    alpha * (rank as real / m as real)
  }

  /** Some value ranked at or above i clears the threshold of its own rank. */
  ghost predicate ClearedFrom(raw: seq<real>, order: seq<nat>, thresholds: seq<real>, i: nat)
    requires IsArgsort(raw, order) && i < |raw| && |thresholds| == |raw|
  {
    exists r :: Rank(order, i) - 1 <= r < |raw| && raw[order[r]] <= thresholds[r]
  }

  /** The 1995 step-up rule: reject everything ranked at or below the largest rank
      whose p-value is within alpha * rank / m. */
  ghost predicate Rejected(raw: seq<real>, order: seq<nat>, alpha: real, i: nat)
    requires IsArgsort(raw, order) && i < |raw|
  {
    ClearedFrom(raw, order, Thresholds(alpha, |raw|), i)
  }

  function Thresholds(alpha: real, m: nat): (ts: seq<real>)
    ensures |ts| == m
    ensures forall r :: 0 <= r < m ==> ts[r] == Threshold(alpha, r + 1, m)
  {
    seq(m, r requires 0 <= r < m => Threshold(alpha, r + 1, m))
  }

  method StepUp(raw: seq<real>, order: seq<nat>, alpha: real) returns (reject: array<bool>)
    requires IsArgsort(raw, order)
    ensures fresh(reject) && reject.Length == |raw|
    ensures forall i: nat :: i < |raw| ==> (reject[i] <==> Rejected(raw, order, alpha, i))
  {
    reject := StepUpAgainst(raw, order, Thresholds(alpha, |raw|));
  }

  method StepUpAgainst(raw: seq<real>, order: seq<nat>, thresholds: seq<real>)
    returns (reject: array<bool>)
    requires IsArgsort(raw, order) && |thresholds| == |raw|
    ensures fresh(reject) && reject.Length == |raw|
    ensures forall i: nat :: i < |raw| ==> (reject[i] <==> ClearedFrom(raw, order, thresholds, i))
  {
    var n := |raw|;
    reject := new bool[n](_ => false);
    var k := 0;
    for r := 0 to n
      invariant 0 <= k <= r
      invariant k > 0 ==> raw[order[k - 1]] <= thresholds[k - 1]
      invariant forall q :: k <= q < r ==> raw[order[q]] > thresholds[q]
    {
      if raw[order[r]] <= thresholds[r] {
        k := r + 1;
      }
    }
    for r := 0 to k
      invariant forall i: nat :: i < n ==> (reject[i] <==> Rank(order, i) <= r)
    {
      RankAt(order, n, r);
      reject[order[r]] := true;
    }
  }

  // ---------------------------------------------------------------------
  // The adjusted p-values
  // ---------------------------------------------------------------------

  /** The unsmoothed adjusted value p * m / rank, capped at one. */
  function Level(p: real, m: nat, rank: nat): real
    requires rank > 0
  {
    Min(1.0, p * m as real / rank as real)
  }

  function Levels(raw: seq<real>, order: seq<nat>): (ls: seq<real>)
    requires forall i: nat :: i < |raw| ==> i in order
    ensures |ls| == |raw|
    ensures forall i: nat :: i < |raw| ==> ls[i] == Level(raw[i], |raw|, Rank(order, i))
  {
    seq(|raw|, i requires 0 <= i < |raw| => Level(raw[i], |raw|, Rank(order, i)))
  }

  /** The running minimum has seen j by the time it assigns i. */
  predicate SeenBy(raw: seq<real>, j: nat, i: nat)
    requires i < |raw| && j < |raw|
  {
    raw[j] > raw[i] || (raw[j] == raw[i] && j <= i)
  }

  /** a is the least level seen by the time i is assigned. */
  ghost predicate IsLeastSeen(raw: seq<real>, levels: seq<real>, i: nat, a: real)
    requires |levels| == |raw| && i < |raw|
  {
    && (exists j: nat :: j < |raw| && SeenBy(raw, j, i) && a == levels[j])
    && forall j: nat :: j < |raw| && SeenBy(raw, j, i) ==> a <= levels[j]
  }

  ghost predicate IsAdjusted(raw: seq<real>, order: seq<nat>, i: nat, a: real)
    requires IsArgsort(raw, order) && i < |raw|
  {
    IsLeastSeen(raw, Levels(raw, order), i, a)
  }

  method Adjust(raw: seq<real>, order: seq<nat>, visit: seq<nat>, adjusted: array<real>)
    requires IsArgsort(raw, order) && IsStableDescending(raw, visit)
    requires adjusted.Length == |raw|
    modifies adjusted
    ensures forall i: nat :: i < |raw| ==> IsAdjusted(raw, order, i, adjusted[i])
  {
    FillLevels(raw, order, adjusted);
    LevelsAtMostOne(raw, order);
    RunningMinimum(raw, visit, adjusted);
  }

  method FillLevels(raw: seq<real>, order: seq<nat>, adjusted: array<real>)
    requires IsArgsort(raw, order) && adjusted.Length == |raw|
    modifies adjusted
    ensures adjusted[..] == Levels(raw, order)
  {
    for i := 0 to |raw|
      invariant forall j: nat :: j < i ==> adjusted[j] == Levels(raw, order)[j]
    {
      adjusted[i] := Level(raw[i], |raw|, Rank(order, i));
    }
  }

  lemma {:induction false} LevelsAtMostOne(raw: seq<real>, order: seq<nat>)
    requires IsArgsort(raw, order)
    ensures forall i: nat :: i < |raw| ==> Levels(raw, order)[i] <= 1.0
  {
  }

  method RunningMinimum(raw: seq<real>, visit: seq<nat>, adjusted: array<real>)
    requires IsStableDescending(raw, visit) && adjusted.Length == |raw|
    requires forall i :: 0 <= i < |raw| ==> adjusted[i] <= 1.0
    modifies adjusted
    ensures forall i: nat :: i < |raw| ==> IsLeastSeen(raw, old(adjusted[..]), i, adjusted[i])
  {
    var m := |raw|;
    ghost var levels := adjusted[..];
    var running := 1.0;
    for k := 0 to m
      invariant forall q :: k <= q < m ==> adjusted[visit[q]] == levels[visit[q]]
      invariant forall q :: 0 <= q < k ==> running <= levels[visit[q]]
      invariant k == 0 ==> running == 1.0
      invariant k > 0 ==> exists q :: 0 <= q < k && running == levels[visit[q]]
      invariant forall q :: 0 <= q < k ==> IsLeastSeen(raw, levels, visit[q], adjusted[visit[q]])
    {
      var f := visit[k];
      var before := running;
      running := Min(running, adjusted[f]);
      adjusted[f] := running;
      assert running == levels[visit[k]] || running == before;
      LeastOfVisited(raw, visit, levels, k, running);
    }
    forall i: nat | i < m
      ensures IsLeastSeen(raw, levels, i, adjusted[i])
    {
      assert visit[Rank(visit, i) - 1] == i;
    }
  }

  /** The first k + 1 visits are exactly what is seen by the k-th finding. */
  lemma {:induction false} LeastOfVisited(raw: seq<real>, visit: seq<nat>, levels: seq<real>, k: nat, a: real)
    requires IsStableDescending(raw, visit) && k < |raw| && |levels| == |raw|
    requires forall q :: 0 <= q <= k ==> a <= levels[visit[q]]
    requires exists q :: 0 <= q <= k && a == levels[visit[q]]
    ensures IsLeastSeen(raw, levels, visit[k], a)
  {
    forall j: nat | j < |raw| && SeenBy(raw, j, visit[k])
      ensures a <= levels[j]
    {
      assert visit[Rank(visit, j) - 1] == j;
    }
    var q :| 0 <= q <= k && a == levels[visit[q]];
    assert SeenBy(raw, visit[q], visit[k]);
  }

  // ---------------------------------------------------------------------
  // What the adjusted values mean
  // ---------------------------------------------------------------------

  ghost predicate PValues(raw: seq<real>) {
    forall i :: 0 <= i < |raw| ==> 0.0 <= raw[i] <= 1.0
  }

  lemma {:induction false} QuotientOrder(p: real, q: real, m: nat, r: nat, s: nat)
    requires 0.0 <= p <= q && 0 < s <= r
    ensures p * m as real / r as real <= q * m as real / s as real
    ensures 0.0 < p && 0 < m && s < r ==> p * m as real / r as real < p * m as real / s as real
  {
    var x, y := p * m as real, q * m as real;
    assert 0.0 <= x <= y;
    FractionOrder(x, y, r as real, s as real);
    if 0.0 < p && 0 < m && s < r {
      assert x > 0.0;
      FractionStrict(x, r as real, s as real);
    }
  }

  lemma {:induction false} FractionOrder(x: real, y: real, r: real, s: real)
    requires 0.0 <= x <= y && 0.0 < s <= r
    ensures x / r <= y / s
  {
    var a, b := x / r, y / s;
    assert a * r == x && b * s == y;
    assert b * s <= b * r;
    ScaledOrder(a, b, r);
  }

  lemma {:induction false} FractionStrict(x: real, r: real, s: real)
    requires 0.0 < x && 0.0 < s < r
    ensures x / r < x / s
  {
    var a, b := x / r, x / s;
    assert a * r == x && b * s == x;
    assert b * s < b * r;
    ScaledOrder(b, a, r);
  }

  lemma {:induction false} LevelOrder(p: real, q: real, m: nat, r: nat, s: nat)
    requires 0.0 <= p <= q && 0 < s <= r
    ensures Level(p, m, r) <= Level(q, m, s)
    ensures 0.0 < p && 0 < m && s < r && Level(p, m, r) < 1.0 ==> Level(p, m, r) < Level(p, m, s)
  {
    QuotientOrder(p, q, m, r, s);
  }

  /** A level is within alpha exactly when the p-value clears its threshold. */
  lemma {:induction false} LevelIsThreshold(p: real, m: nat, r: nat, alpha: real)
    requires 0 < r && 0 < m
    ensures Level(p, m, r) <= alpha <==> alpha >= 1.0 || p <= Threshold(alpha, r, m)
  {
    var a, b := p * m as real / r as real, r as real / m as real;
    assert a * r as real == p * m as real && b * m as real == r as real;
    assert (alpha * b) * m as real == alpha * r as real;
    ScaledOrder(a, alpha, r as real);
    ScaledOrder(p, alpha * b, m as real);
  }

  lemma {:induction false} ScaledOrder(x: real, y: real, k: real)
    requires k > 0.0
    ensures x <= y <==> x * k <= y * k
  {
  }

  /** The facts about levels that the results below rest on. */
  ghost predicate LevelsBehave(raw: seq<real>, order: seq<nat>, ls: seq<real>)
    requires IsArgsort(raw, order)
  {
    && |ls| == |raw|
    && (forall i: nat :: i < |raw| ==> raw[i] <= ls[i] <= 1.0)
    && (forall i: nat :: i < |raw| && raw[i] == 0.0 ==> ls[i] == 0.0)
    && (forall i: nat, j: nat ::
          i < |raw| && j < |raw| && raw[i] == raw[j] && Rank(order, i) <= Rank(order, j) ==>
            ls[j] <= ls[i] && (raw[i] > 0.0 && i != j && ls[j] < 1.0 ==> ls[j] < ls[i]))
  }

  lemma {:induction false} LevelsDoBehave(raw: seq<real>, order: seq<nat>)
    requires IsArgsort(raw, order) && PValues(raw)
    ensures LevelsBehave(raw, order, Levels(raw, order))
  {
    var m, ls := |raw|, Levels(raw, order);
    forall i: nat | i < m
      ensures raw[i] <= ls[i] <= 1.0 && (raw[i] == 0.0 ==> ls[i] == 0.0)
    {
      LevelBounds(raw[i], m, Rank(order, i));
    }
    forall i: nat, j: nat | i < m && j < m && raw[i] == raw[j] && Rank(order, i) <= Rank(order, j)
      ensures ls[j] <= ls[i] && (raw[i] > 0.0 && i != j && ls[j] < 1.0 ==> ls[j] < ls[i])
    {
      TiedLevels(raw, order, i, j);
    }
  }

  /** Among equal p-values the level falls as the rank rises. */
  lemma {:induction false} TiedLevels(raw: seq<real>, order: seq<nat>, i: nat, j: nat)
    requires IsArgsort(raw, order) && i < |raw| && j < |raw| && 0.0 <= raw[i] == raw[j]
    requires Rank(order, i) <= Rank(order, j)
    ensures var p, m, r, s := raw[i], |raw|, Rank(order, i), Rank(order, j);
            && Level(p, m, s) <= Level(p, m, r)
            && (p > 0.0 && i != j && Level(p, m, s) < 1.0 ==> Level(p, m, s) < Level(p, m, r))
  {
    RankOrder(raw, order, i, j);
    LevelOrder(raw[j], raw[i], |raw|, Rank(order, j), Rank(order, i));
  }

  lemma {:induction false} LevelBounds(p: real, m: nat, r: nat)
    requires 0.0 <= p <= 1.0 && 0 < r <= m
    ensures p <= Level(p, m, r) <= 1.0
    ensures p == 0.0 ==> Level(p, m, r) == 0.0
  {
    var a := p * m as real / r as real;
    assert a * r as real == p * m as real;
    assert p * r as real <= p * m as real;
    ScaledOrder(p, a, r as real);
    ScaledOrder(a, 0.0, r as real);
  }

  /** Every adjusted value lies between the raw p-value and one. */
  lemma {:induction false} AdjustedInRange(raw: seq<real>, order: seq<nat>, i: nat, a: real)
    requires IsArgsort(raw, order) && i < |raw| && PValues(raw) && IsAdjusted(raw, order, i, a)
    ensures raw[i] <= a <= 1.0
  {
    LevelsDoBehave(raw, order);
    LeastSeenInRange(raw, order, Levels(raw, order), i, a);
  }

  lemma {:induction false} LeastSeenInRange(raw: seq<real>, order: seq<nat>, ls: seq<real>, i: nat, a: real)
    requires IsArgsort(raw, order) && LevelsBehave(raw, order, ls)
    requires i < |raw| && IsLeastSeen(raw, ls, i, a)
    ensures raw[i] <= a <= 1.0
  {
  }

  /** A smaller raw p-value never gets a larger adjusted one. */
  lemma {:induction false} AdjustedKeepsOrder(raw: seq<real>, order: seq<nat>, i: nat, a: real, j: nat, b: real)
    requires IsArgsort(raw, order) && i < |raw| && j < |raw|
    requires IsAdjusted(raw, order, i, a) && IsAdjusted(raw, order, j, b)
    requires raw[i] < raw[j]
    ensures a <= b
  {
    var k: nat :| k < |raw| && SeenBy(raw, k, j) && b == Levels(raw, order)[k];
    assert SeenBy(raw, k, i);
  }

  /** Some p-value at least as large as i's has a level within alpha. */
  ghost predicate WithinFrom(raw: seq<real>, ls: seq<real>, alpha: real, i: nat)
    requires |ls| == |raw| && i < |raw|
  {
    exists j: nat :: j < |raw| && raw[j] >= raw[i] && ls[j] <= alpha
  }

  lemma {:induction false} RejectedByLevel(raw: seq<real>, order: seq<nat>, alpha: real, i: nat)
    requires IsArgsort(raw, order) && PValues(raw) && i < |raw|
    ensures Rejected(raw, order, alpha, i) <==> WithinFrom(raw, Levels(raw, order), alpha, i)
  {
    LevelsMatchThresholds(raw, order, alpha);
    ThresholdsBehave(alpha, |raw|);
    if Rejected(raw, order, alpha, i) {
      ClearedIsWithin(raw, order, Thresholds(alpha, |raw|), Levels(raw, order), alpha, i);
    }
    if WithinFrom(raw, Levels(raw, order), alpha, i) {
      WithinIsCleared(raw, order, Thresholds(alpha, |raw|), Levels(raw, order), alpha, i);
    }
  }

  ghost predicate LevelsMatch(raw: seq<real>, order: seq<nat>, ts: seq<real>, ls: seq<real>, alpha: real)
    requires IsArgsort(raw, order) && |ts| == |ls| == |raw|
  {
    forall j: nat :: j < |raw| ==>
      (ls[j] <= alpha <==> alpha >= 1.0 || raw[j] <= ts[Rank(order, j) - 1])
  }

  lemma {:induction false} LevelsMatchThresholds(raw: seq<real>, order: seq<nat>, alpha: real)
    requires IsArgsort(raw, order)
    ensures LevelsMatch(raw, order, Thresholds(alpha, |raw|), Levels(raw, order), alpha)
  {
    var m, ts, ls := |raw|, Thresholds(alpha, |raw|), Levels(raw, order);
    forall j: nat | j < m
      ensures ls[j] <= alpha <==> alpha >= 1.0 || raw[j] <= ts[Rank(order, j) - 1]
    {
      LevelIsThreshold(raw[j], m, Rank(order, j), alpha);
    }
  }

  ghost predicate Ascends(ts: seq<real>, alpha: real) {
    && (|ts| > 0 && alpha >= 1.0 ==> ts[|ts| - 1] >= 1.0)
    && forall s, r :: 0 <= s <= r < |ts| && 0.0 <= ts[s] ==> ts[s] <= ts[r]
  }

  lemma {:induction false} ThresholdsBehave(alpha: real, m: nat)
    ensures Ascends(Thresholds(alpha, m), alpha)
  {
    var ts := Thresholds(alpha, m);
    if m > 0 {
      assert m as real / m as real == 1.0;
    }
    forall s, r | 0 <= s <= r < m && 0.0 <= ts[s]
      ensures ts[s] <= ts[r]
    {
      ThresholdGrows(alpha, s + 1, r + 1, m);
    }
  }

  lemma {:induction false} ClearedIsWithin(raw: seq<real>, order: seq<nat>, ts: seq<real>, ls: seq<real>, alpha: real, i: nat)
    requires IsArgsort(raw, order) && i < |raw| == |ts| == |ls|
    requires LevelsMatch(raw, order, ts, ls, alpha)
    requires ClearedFrom(raw, order, ts, i)
    ensures WithinFrom(raw, ls, alpha, i)
  {
    var j := ClearedRank(raw, order, ts, i);
    ClearedAboveIsWithin(raw, order, ts, ls, alpha, i, j);
  }

  /** The p-value at the cleared rank. */
  lemma {:induction false} ClearedRank(raw: seq<real>, order: seq<nat>, ts: seq<real>, i: nat) returns (j: nat)
    requires IsArgsort(raw, order) && i < |raw| == |ts| && ClearedFrom(raw, order, ts, i)
    ensures j < |raw| && Rank(order, i) <= Rank(order, j) && raw[j] <= ts[Rank(order, j) - 1]
  {
    var r :| Rank(order, i) - 1 <= r < |raw| && raw[order[r]] <= ts[r];
    RankAt(order, |raw|, r);
    j := order[r];
  }

  lemma {:induction false} ClearedAboveIsWithin(raw: seq<real>, order: seq<nat>, ts: seq<real>, ls: seq<real>,
                                                alpha: real, i: nat, j: nat)
    requires IsArgsort(raw, order) && i < |raw| == |ts| == |ls| && j < |raw|
    requires LevelsMatch(raw, order, ts, ls, alpha)
    requires Rank(order, i) <= Rank(order, j) && raw[j] <= ts[Rank(order, j) - 1]
    ensures WithinFrom(raw, ls, alpha, i)
  {
    RankedIsLarger(raw, order, i, j);
    ClearedLevel(raw, order, ts, ls, alpha, j);
  }

  lemma {:induction false} RankedIsLarger(raw: seq<real>, order: seq<nat>, i: nat, j: nat)
    requires IsArgsort(raw, order) && i < |raw| && j < |raw| && Rank(order, i) <= Rank(order, j)
    ensures raw[j] >= raw[i]
  {
    RankOrder(raw, order, i, j);
  }

  lemma {:induction false} ClearedLevel(raw: seq<real>, order: seq<nat>, ts: seq<real>, ls: seq<real>,
                                        alpha: real, j: nat)
    requires IsArgsort(raw, order) && j < |raw| == |ts| == |ls|
    requires LevelsMatch(raw, order, ts, ls, alpha) && raw[j] <= ts[Rank(order, j) - 1]
    ensures ls[j] <= alpha
  {
  }

  lemma {:induction false} WithinIsCleared(raw: seq<real>, order: seq<nat>, ts: seq<real>, ls: seq<real>, alpha: real, i: nat)
    requires IsArgsort(raw, order) && PValues(raw) && i < |raw| == |ts| == |ls|
    requires LevelsMatch(raw, order, ts, ls, alpha) && Ascends(ts, alpha)
    requires WithinFrom(raw, ls, alpha, i)
    ensures ClearedFrom(raw, order, ts, i)
  {
    if alpha >= 1.0 {
      LastIsCleared(raw, order, ts, i);
    } else {
      var j: nat :| j < |raw| && raw[j] >= raw[i] && ls[j] <= alpha;
      assert raw[j] <= ts[Rank(order, j) - 1];
      OneIsCleared(raw, order, ts, alpha, i, j, Rank(order, i) - 1, Rank(order, j) - 1);
    }
  }

  /** At alpha one and above the last threshold clears every p-value. */
  lemma {:induction false} LastIsCleared(raw: seq<real>, order: seq<nat>, ts: seq<real>, i: nat)
    requires IsArgsort(raw, order) && PValues(raw) && i < |raw| == |ts|
    requires ts[|ts| - 1] >= 1.0
    ensures ClearedFrom(raw, order, ts, i)
  {
    var last := |raw| - 1;
    assert raw[order[last]] <= ts[last];
  }

  /** A p-value at least as large as i's that clears its own threshold, at rank s, clears
      one at i's rank r or above. */
  lemma {:induction false} OneIsCleared(raw: seq<real>, order: seq<nat>, ts: seq<real>, alpha: real,
                                        i: nat, j: nat, r: nat, s: nat)
    requires IsArgsort(raw, order) && PValues(raw) && Ascends(ts, alpha)
    requires i < |raw| == |ts| && j < |raw| && raw[j] >= raw[i]
    requires r == Rank(order, i) - 1 && s == Rank(order, j) - 1 && raw[j] <= ts[s]
    ensures ClearedFrom(raw, order, ts, i)
  {
    if s < r {
      RankOrder(raw, order, j, i);
      assert raw[order[r]] <= ts[r];
    } else {
      assert raw[order[s]] <= ts[s];
    }
  }

  lemma {:induction false} ThresholdGrows(alpha: real, s: nat, r: nat, m: nat)
    requires 0 < s <= r && 0 < m && 0.0 <= Threshold(alpha, s, m)
    ensures Threshold(alpha, s, m) <= Threshold(alpha, r, m)
  {
    FractionOrder(s as real, r as real, m as real, m as real);
    var a, b := s as real / m as real, r as real / m as real;
    assert a * m as real == s as real;
    ScaledOrder(a, 0.0, m as real);
    ScaledOrder(0.0, alpha, a);
    assert alpha * (b - a) >= 0.0;
    assert alpha * (b - a) == alpha * b - alpha * a;
  }

  /** t carries the largest rank among the p-values tied with i. */
  ghost predicate IsTopOfTie(raw: seq<real>, order: seq<nat>, i: nat, t: nat)
    requires IsArgsort(raw, order) && i < |raw|
  {
    && t < |raw| && raw[t] == raw[i]
    && forall j: nat :: j < |raw| && raw[j] == raw[i] ==> Rank(order, j) <= Rank(order, t)
  }

  /** The tie of i cannot spoil its adjusted value: its top-ranked member is listed
      no later than i, or its level no longer matters. */
  ghost predicate TieSettled(raw: seq<real>, order: seq<nat>, i: nat, t: nat)
    requires IsArgsort(raw, order) && i < |raw| && t < |raw|
  {
    var ls := Levels(raw, order);
    || t <= i
    || raw[i] == 0.0
    || ls[t] >= 1.0
    || exists j: nat :: j < |raw| && raw[j] > raw[i] && ls[j] <= ls[t]
  }

  /** The adjusted value is the exact threshold of rejection, at every alpha, if and
      only if the tie of i is settled. */
  lemma {:induction false} AdjustedDecidesRejection(raw: seq<real>, order: seq<nat>, i: nat, t: nat, a: real)
    requires IsArgsort(raw, order) && PValues(raw) && i < |raw|
    requires IsTopOfTie(raw, order, i, t) && IsAdjusted(raw, order, i, a)
    ensures (forall alpha :: a <= alpha <==> Rejected(raw, order, alpha, i))
            <==> TieSettled(raw, order, i, t)
  {
    if TieSettled(raw, order, i, t) {
      forall alpha
        ensures a <= alpha <==> Rejected(raw, order, alpha, i)
      {
        SettledTieDecides(raw, order, i, t, a, alpha);
      }
    } else {
      UnsettledTieDisagrees(raw, order, i, t, a);
    }
  }

  lemma {:induction false} SettledTieDecides(raw: seq<real>, order: seq<nat>, i: nat, t: nat, a: real, alpha: real)
    requires IsArgsort(raw, order) && PValues(raw) && i < |raw|
    requires IsTopOfTie(raw, order, i, t) && IsAdjusted(raw, order, i, a)
    requires TieSettled(raw, order, i, t)
    ensures a <= alpha <==> Rejected(raw, order, alpha, i)
  {
    LevelsDoBehave(raw, order);
    RejectedByLevel(raw, order, alpha, i);
    SettledLeastSeen(raw, order, Levels(raw, order), i, t, a);
  }

  lemma {:induction false} SettledLeastSeen(raw: seq<real>, order: seq<nat>, ls: seq<real>, i: nat, t: nat, a: real)
    requires IsArgsort(raw, order) && LevelsBehave(raw, order, ls) && i < |raw|
    requires IsTopOfTie(raw, order, i, t) && IsLeastSeen(raw, ls, i, a)
    requires t <= i || raw[i] == 0.0 || ls[t] >= 1.0
             || exists j: nat :: j < |raw| && raw[j] > raw[i] && ls[j] <= ls[t]
    ensures forall alpha :: a <= alpha <==> WithinFrom(raw, ls, alpha, i)
  {
    assert SeenBy(raw, i, i);
    assert a <= ls[t];
    forall j: nat | j < |raw| && raw[j] >= raw[i]
      ensures a <= ls[j]
    {
      assert raw[j] == raw[i] ==> ls[t] <= ls[j];
    }
    var k: nat :| k < |raw| && SeenBy(raw, k, i) && a == ls[k];
    assert raw[k] >= raw[i];
  }

  lemma {:induction false} UnsettledTieDisagrees(raw: seq<real>, order: seq<nat>, i: nat, t: nat, a: real)
    requires IsArgsort(raw, order) && PValues(raw) && i < |raw|
    requires IsTopOfTie(raw, order, i, t) && IsAdjusted(raw, order, i, a)
    requires !TieSettled(raw, order, i, t)
    ensures Rejected(raw, order, Levels(raw, order)[t], i) && a > Levels(raw, order)[t]
  {
    LevelsDoBehave(raw, order);
    var ls := Levels(raw, order);
    RejectedByLevel(raw, order, ls[t], i);
    UnsettledLeastSeen(raw, order, ls, i, t, a);
  }

  lemma {:induction false} UnsettledLeastSeen(raw: seq<real>, order: seq<nat>, ls: seq<real>, i: nat, t: nat, a: real)
    requires IsArgsort(raw, order) && LevelsBehave(raw, order, ls) && i < |raw| && PValues(raw)
    requires IsTopOfTie(raw, order, i, t) && IsLeastSeen(raw, ls, i, a)
    requires i < t && raw[i] != 0.0 && ls[t] < 1.0
    requires forall j: nat :: j < |raw| && raw[j] > raw[i] ==> ls[j] > ls[t]
    ensures WithinFrom(raw, ls, ls[t], i) && a > ls[t]
  {
    var j: nat :| j < |raw| && SeenBy(raw, j, i) && a == ls[j];
    if raw[j] == raw[i] {
      RankOrder(raw, order, j, t);
    }
  }

  /** With distinct raw p-values every tie is settled: adjusted <= alpha picks out
      exactly the step-up rejections. */
  lemma {:induction false} DistinctPValuesDecide(raw: seq<real>, order: seq<nat>, i: nat, a: real, alpha: real)
    requires IsArgsort(raw, order) && PValues(raw) && i < |raw| && IsAdjusted(raw, order, i, a)
    requires forall j, k :: 0 <= j < k < |raw| ==> raw[j] != raw[k]
    ensures a <= alpha <==> Rejected(raw, order, alpha, i)
  {
    assert IsTopOfTie(raw, order, i, i);
    SettledTieDecides(raw, order, i, i, a, alpha);
  }

  /** Two equal p-values ranked in list order: both are rejected at 0.03, and the
      first is still reported with an adjusted value of 0.04. */
  lemma {:induction false} TiedPairIsMisreported(a: real)
    requires var raw, order := [0.02, 0.02], [0, 1];
             IsArgsort(raw, order) && IsAdjusted(raw, order, 0, a)
    ensures Rejected([0.02, 0.02], [0, 1], 0.03, 0) && a == 0.04
  {
    var raw, order := [0.02, 0.02], [0, 1];
    RankAt(order, 2, 0);
    RankAt(order, 2, 1);
    PairLevels();
    assert Levels(raw, order) == [0.04, 0.02];
    RejectedByLevel(raw, order, 0.03, 0);
    PairLeastSeen(a);
  }

  lemma {:induction false} PairLevels()
    ensures Level(0.02, 2, 1) == 0.04 && Level(0.02, 2, 2) == 0.02
  {
  }

  lemma {:induction false} PairLeastSeen(a: real)
    requires IsLeastSeen([0.02, 0.02], [0.04, 0.02], 0, a)
    ensures a == 0.04 && WithinFrom([0.02, 0.02], [0.04, 0.02], 0.03, 0)
  {
    var raw, ls := [0.02, 0.02], [0.04, 0.02];
    assert raw[1] >= raw[0] && ls[1] <= 0.03;
  }
}
