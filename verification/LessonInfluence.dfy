/** What the stored lessons do to a position's size: the ranked recall, the decay
    toward no influence, and the product of cautions. */
module LessonInfluence {
  import opened Common
  import opened Rounding
  import opened LessonStore
  import opened RealFacts

  /** The two transcendental curves, known only by range and monotonicity, and
      the first by its halving: the half-life decay 0.5^x and the sample-size term min(1, log10(max(1, n)) / 2.5). */
  datatype Curves = Curves(decay: real -> real, sampleTerm: int -> real)

  predicate Halves(c: Curves, x: real) {
    c.decay(x + 1.0) == 0.5 * c.decay(x)
  }

  ghost predicate Lawful(c: Curves) {
    && (forall x :: x >= 0.0 ==> 0.0 < c.decay(x) <= 1.0)
    && (forall x, y :: 0.0 <= x <= y ==> c.decay(y) <= c.decay(x))
    && c.decay(0.0) == 1.0 && (forall x :: x >= 0.0 ==> Halves(c, x))
    && (forall n :: 0.0 <= c.sampleTerm(n) <= 1.0)
  }

  const DAY := 86_400_000_000_000.0

  function AgeDays(l: Lesson, now: int): real {
    var since := if l.lastConfirmedNs != 0 then l.lastConfirmedNs else l.createdNs;
    Max(0.0, (now - since) as real / DAY)
  }

  function Weight(c: Curves, l: Lesson, now: int): real {
    c.decay(AgeDays(l, now) / Max(1.0, l.halfLifeDays))
  }

  /** A caution moved toward one: all of it at strength one, none at strength zero. */
  function Blend(caution: real, strength: real): real {
    1.0 - (1.0 - caution) * strength
  }

  function Joint(a: real, b: real): real {
    a * b
  }

  function EffectiveCaution(c: Curves, l: Lesson, now: int): real {
    if l.caution >= 1.0 then 1.0
    else Min(1.0, Blend(l.caution, Weight(c, l, now)))
  }

  function Significance(p: real): real {
    Max(0.0, Min(1.0, 1.0 - p / 0.05))
  }

  function Confidence(c: Curves, l: Lesson): real {
    RoundTo(Joint(c.sampleTerm(l.sampleSize), Significance(l.pValue)), 0.0001)
  }

  /** One lesson's factor: its caution blended toward one by confidence and age. */
  function Factor(c: Curves, l: Lesson, now: int): real {
    Blend(EffectiveCaution(c, l, now), Confidence(c, l))
  }

  // ---------------------------------------------------------------------
  // Recall
  // ---------------------------------------------------------------------

  datatype Query = Query(strategy: Option<string>, instrument: Option<string>,
                         regime: Option<string>, session: Option<string>)

  /** A scope column applies when it is unset or equal to a named value; comparing
      with an unnamed value is never true. */
  predicate ScopeApplies(column: Option<string>, asked: Option<string>) {
    column.None? || column == asked
  }

  predicate Applies(row: Row, q: Query) {
    && row.status.Active?
    && ScopeApplies(row.lesson.strategy, q.strategy) && ScopeApplies(row.lesson.instrument, q.instrument)
    && ScopeApplies(row.lesson.regime, q.regime) && ScopeApplies(row.lesson.session, q.session)
  }

  /** Most confident first, larger sample breaking a tie. */
  predicate RanksBefore(c: Curves, a: Lesson, b: Lesson) {
    Confidence(c, a) > Confidence(c, b)
    || (Confidence(c, a) == Confidence(c, b) && a.sampleSize >= b.sampleSize)
  }

  /** picked lists the best applicable rows, in rank order, up to the limit. */
  ghost predicate IsRecall(c: Curves, rows: seq<Row>, q: Query, limit: nat, picked: seq<nat>) {
    && |picked| <= limit
    && (forall k :: 0 <= k < |picked| ==> picked[k] < |rows| && Applies(rows[picked[k]], q))
    && (forall j, k :: 0 <= j < k < |picked| ==>
          picked[j] != picked[k] && RanksBefore(c, rows[picked[j]].lesson, rows[picked[k]].lesson))
    && (forall i: nat :: i < |rows| && Applies(rows[i], q) && i !in picked ==>
          |picked| == limit
          && forall k :: 0 <= k < |picked| ==> RanksBefore(c, rows[picked[k]].lesson, rows[i].lesson))
  }

  /** The best applicable row not picked yet. */
  method NextBest(c: Curves, rows: seq<Row>, q: Query, picked: seq<nat>) returns (best: Option<nat>)
    ensures best.Some? ==> best.value < |rows| && Applies(rows[best.value], q) && best.value !in picked
    ensures best.Some? ==> forall i: nat :: i < |rows| && Applies(rows[i], q) && i !in picked ==>
              RanksBefore(c, rows[best.value].lesson, rows[i].lesson)
    ensures best.None? ==> forall i: nat :: i < |rows| && Applies(rows[i], q) ==> i in picked
  {
    best := None;
    for n := 0 to |rows|
      invariant best.Some? ==> best.value < n && Applies(rows[best.value], q) && best.value !in picked
      invariant best.Some? ==> forall i: nat :: i < n && Applies(rows[i], q) && i !in picked ==>
                  RanksBefore(c, rows[best.value].lesson, rows[i].lesson)
      invariant best.None? ==> forall i: nat :: i < n && Applies(rows[i], q) ==> i in picked
    {
      if Applies(rows[n], q) && n !in picked
         && (best.None? || !RanksBefore(c, rows[best.value].lesson, rows[n].lesson)) {
        best := Some(n);
      }
    }
  }

  method Recall(c: Curves, rows: seq<Row>, q: Query, limit: nat) returns (picked: seq<nat>)
    ensures IsRecall(c, rows, q, limit, picked)
  {
    picked := [];
    while |picked| < limit
      invariant |picked| <= limit
      invariant forall k :: 0 <= k < |picked| ==> picked[k] < |rows| && Applies(rows[picked[k]], q)
      invariant forall j, k :: 0 <= j < k < |picked| ==>
                  picked[j] != picked[k] && RanksBefore(c, rows[picked[j]].lesson, rows[picked[k]].lesson)
      invariant forall i: nat, k :: i < |rows| && Applies(rows[i], q) && i !in picked && 0 <= k < |picked|
                  ==> RanksBefore(c, rows[picked[k]].lesson, rows[i].lesson)
    {
      var best := NextBest(c, rows, q, picked);
      if best.None? {
        return;
      }
      picked := picked + [best.value];
    }
  }

  /** The lesson speaks of nothing but what was asked about. */
  predicate SpeaksOf(l: Lesson, q: Query) {
    && (l.strategy.Some? ==> q.strategy == l.strategy) && (l.instrument.Some? ==> q.instrument == l.instrument)
    && (l.regime.Some? ==> q.regime == l.regime) && (l.session.Some? ==> q.session == l.session)
  }

  /** What a recall lists, in its own words: active lessons that speak of nothing but what was
      asked about, the more confident before the less, and at equal confidence the larger
      sample before the smaller; and it leaves one out only for a full list of lessons that
      are none of them less confident. */
  lemma {:induction false} RecallRanksByEvidence(c: Curves, rows: seq<Row>, q: Query, limit: nat, picked: seq<nat>)
    requires IsRecall(c, rows, q, limit, picked)
    ensures forall k :: 0 <= k < |picked| ==>
              rows[picked[k]].status.Active? && SpeaksOf(rows[picked[k]].lesson, q)
    ensures forall j, k :: 0 <= j < k < |picked| ==>
              var a, b := rows[picked[j]].lesson, rows[picked[k]].lesson;
              && Confidence(c, a) >= Confidence(c, b)
              && (Confidence(c, a) == Confidence(c, b) ==> a.sampleSize >= b.sampleSize)
    ensures forall i: nat :: i < |rows| && rows[i].status.Active? && SpeaksOf(rows[i].lesson, q) && i !in picked ==>
              && |picked| == limit
              && forall k :: 0 <= k < |picked| ==>
                   Confidence(c, rows[picked[k]].lesson) >= Confidence(c, rows[i].lesson)
  {
    assert forall i: nat :: i < |rows| ==>
      (Applies(rows[i], q) <==> rows[i].status.Active? && SpeaksOf(rows[i].lesson, q));
  }

  /** A lesson learnt about one session never counts: the multiplier asks about no session, so
      its recall lists none of them, however confident. */
  lemma {:induction false} SessionLessonsNeverCount(c: Curves, rows: seq<Row>, q: Query, picked: seq<nat>, k: nat)
    requires IsRecall(c, rows, q.(session := None), 12, picked) && k < |picked|
    ensures LessonsAt(rows, picked)[k].session.None?
  {
    RecallRanksByEvidence(c, rows, q.(session := None), 12, picked);
  }

  // ---------------------------------------------------------------------
  // The multiplier
  // ---------------------------------------------------------------------

  function Product(c: Curves, lessons: seq<Lesson>, now: int): real {
    if lessons == [] then 1.0
    else Joint(Product(c, lessons[..|lessons| - 1], now), Factor(c, lessons[|lessons| - 1], now))
  }

  function Multiplier(c: Curves, lessons: seq<Lesson>, floor: real, now: int): real {
    Max(floor, RoundTo(Product(c, lessons, now), 0.0001))
  }

  method CautionMultiplier(c: Curves, rows: seq<Row>, q: Query, floor: real, now: int)
    returns (caution: real)
    ensures exists picked :: IsRecall(c, rows, q.(session := None), 12, picked)
                             && caution == Multiplier(c, LessonsAt(rows, picked), floor, now)
  {
    var chosen := Recall(c, rows, q.(session := None), 12);
    var multiplier := RunningProduct(c, LessonsAt(rows, chosen), now);
    caution := Max(floor, RoundTo(multiplier, 0.0001));
  }

  method RunningProduct(c: Curves, lessons: seq<Lesson>, now: int) returns (multiplier: real)
    ensures multiplier == Product(c, lessons, now)
  {
    multiplier := 1.0;
    for i := 0 to |lessons|
      invariant multiplier == Product(c, lessons[..i], now)
    {
      assert lessons[..i + 1][..i] == lessons[..i];
      var decayed := EffectiveCaution(c, lessons[i], now);
      if decayed >= 1.0 {
        NoCautionNoFactor(c, lessons[i], now);
      } else {
        multiplier := Joint(multiplier, Blend(decayed, Confidence(c, lessons[i])));
      }
    }
    assert lessons[..|lessons|] == lessons;
  }

  function LessonsAt(rows: seq<Row>, picked: seq<nat>): (ls: seq<Lesson>)
    requires forall k :: 0 <= k < |picked| ==> picked[k] < |rows|
    ensures |ls| == |picked|
  {
    seq(|picked|, k requires 0 <= k < |picked| => rows[picked[k]].lesson)
  }

  lemma {:induction false} NoCautionNoFactor(c: Curves, l: Lesson, now: int)
    requires EffectiveCaution(c, l, now) >= 1.0
    ensures Factor(c, l, now) == 1.0
  {
  }

  /** Rounding to four places stays inside the unit interval. */
  lemma {:induction false} RoundedUnit(x: real)
    requires 0.0 <= x <= 1.0
    ensures 0.0 <= RoundTo(x, 0.0001) <= 1.0
  {
    GridPoint(0, 0.0001);
    GridPoint(10000, 0.0001);
    RoundToBetween(GridAt(0, 0.0001), x, GridAt(10000, 0.0001), 0.0001);
  }

  lemma {:induction false} ConfidenceInRange(c: Curves, l: Lesson)
    requires Lawful(c)
    ensures 0.0 <= Confidence(c, l) <= 1.0
  {
    JointInUnit(c.sampleTerm(l.sampleSize), Significance(l.pValue));
    RoundedUnit(Joint(c.sampleTerm(l.sampleSize), Significance(l.pValue)));
  }

  lemma {:induction false} JointInUnit(a: real, b: real)
    requires 0.0 <= a <= 1.0 && 0.0 <= b <= 1.0
    ensures 0.0 <= Joint(a, b) <= 1.0
  {
    MulBoth(a, 1.0, b, 1.0);
  }

  /** Blending relaxes a caution and never passes one: more of it remains when the
      caution is lower or the strength is greater. */
  lemma {:induction false} BlendRelaxes(x: real, y: real, strong: real, weak: real)
    requires 0.0 <= x <= y <= 1.0 && 0.0 <= weak <= strong <= 1.0
    ensures x <= Blend(x, strong) <= Blend(y, weak) <= 1.0
  {
    MulBoth(1.0 - x, 1.0 - x, strong, 1.0);
    MulBoth(1.0 - y, 1.0 - x, weak, strong);
  }

  lemma {:induction false} AgeGrows(l: Lesson, now: int, later: int)
    requires now <= later
    ensures 0.0 <= AgeDays(l, now) <= AgeDays(l, later)
  {
    var since := if l.lastConfirmedNs != 0 then l.lastConfirmedNs else l.createdNs;
    DivMonotone((now - since) as real, (later - since) as real, DAY);
  }

  lemma {:induction false} WeightFades(c: Curves, l: Lesson, now: int, later: int)
    requires Lawful(c) && now <= later
    ensures 0.0 < Weight(c, l, later) <= Weight(c, l, now) <= 1.0
  {
    AgeGrows(l, now, later);
    var hl := Max(1.0, l.halfLifeDays);
    DivMonotone(0.0, AgeDays(l, now), hl);
    DivMonotone(AgeDays(l, now), AgeDays(l, later), hl);
    assert 0.0 / hl == 0.0;
  }

  /** A clamped lesson's caution never strengthens with age: it rises from the stored
      value toward one and never passes it. */
  lemma {:induction false} CautionOnlyRelaxes(c: Curves, l: Lesson, now: int, later: int)
    requires Lawful(c) && 0.25 <= l.caution <= 1.0 && now <= later
    ensures l.caution <= EffectiveCaution(c, l, now) <= EffectiveCaution(c, l, later) <= 1.0
  {
    WeightFades(c, l, now, later);
    BlendRelaxes(l.caution, l.caution, Weight(c, l, now), Weight(c, l, later));
  }

  lemma {:induction false} FactorOnlyRelaxes(c: Curves, l: Lesson, now: int, later: int)
    requires Lawful(c) && 0.25 <= l.caution <= 1.0 && now <= later
    ensures 0.25 <= Factor(c, l, now) <= Factor(c, l, later) <= 1.0
  {
    CautionOnlyRelaxes(c, l, now, later);
    ConfidenceInRange(c, l);
    BlendRelaxes(EffectiveCaution(c, l, now), EffectiveCaution(c, l, later),
                 Confidence(c, l), Confidence(c, l));
  }

  /** A lesson just confirmed counts in full. */
  lemma {:induction false} FreshLessonCountsInFull(c: Curves, l: Lesson, now: int)
    requires Lawful(c) && 0.25 <= l.caution <= 1.0
    requires now <= if l.lastConfirmedNs != 0 then l.lastConfirmedNs else l.createdNs
    ensures AgeDays(l, now) == 0.0 && EffectiveCaution(c, l, now) == l.caution
  {
    AgeGrows(l, now, now);
    DivMonotone(0.0, 0.0, Max(1.0, l.halfLifeDays));
    var since := if l.lastConfirmedNs != 0 then l.lastConfirmedNs else l.createdNs;
    DivMonotone((now - since) as real, 0.0, DAY);
    NoAge(Max(1.0, l.halfLifeDays));
  }

  lemma {:induction false} NoAge(hl: real)
    requires hl >= 1.0
    ensures 0.0 / hl == 0.0 && 0.0 / DAY == 0.0
  {
  }

  /** How far a lesson's caution falls short of one, fades by one half for every half-life
      that passes without a confirmation: the law the decay is named for. */
  lemma {:induction false} HalfLifeHalves(c: Curves, l: Lesson, now: int, later: int)
    requires Lawful(c) && 0.25 <= l.caution <= 1.0
    requires now >= if l.lastConfirmedNs != 0 then l.lastConfirmedNs else l.createdNs
    requires (later - now) as real == Max(1.0, l.halfLifeDays) * 86_400_000_000_000.0
    ensures 1.0 - EffectiveCaution(c, l, later) == (1.0 - EffectiveCaution(c, l, now)) / 2.0
  {
    var hl, age := Max(1.0, l.halfLifeDays), AgeDays(l, now);
    AgeOneHalfLifeOn(l, now, later, hl);
    OneHalfLifeMore(age, hl);
    DivMonotone(0.0, age, hl);
    NoAge(hl);
    assert Halves(c, age / hl);
    BlendHalves(l.caution, Weight(c, l, now), Weight(c, l, later));
    WeightInUnit(c, l, now);
    WeightInUnit(c, l, later);
    BlendRelaxes(l.caution, l.caution, Weight(c, l, now), Weight(c, l, now));
    BlendRelaxes(l.caution, l.caution, Weight(c, l, later), Weight(c, l, later));
  }

  lemma {:induction false} AgeOneHalfLifeOn(l: Lesson, now: int, later: int, hl: real)
    requires hl >= 1.0 && now >= if l.lastConfirmedNs != 0 then l.lastConfirmedNs else l.createdNs
    requires (later - now) as real == hl * 86_400_000_000_000.0
    ensures AgeDays(l, later) == AgeDays(l, now) + hl && AgeDays(l, now) >= 0.0
  {
    var since := if l.lastConfirmedNs != 0 then l.lastConfirmedNs else l.createdNs;
    assert (later - since) as real == (now - since) as real + hl * 86_400_000_000_000.0;
  }

  lemma {:induction false} WeightInUnit(c: Curves, l: Lesson, now: int)
    requires Lawful(c)
    ensures 0.0 <= Weight(c, l, now) <= 1.0
  {
    WeightFades(c, l, now, now);
  }

  lemma {:induction false} OneHalfLifeMore(age: real, hl: real)
    requires hl >= 1.0
    ensures (age + hl) / hl == age / hl + 1.0
  {
    DivCompare(age + hl, hl, age / hl + 1.0);
    assert (age / hl) * hl == age;
  }

  lemma {:induction false} BlendHalves(caution: real, whole: real, half: real)
    requires half == 0.5 * whole
    ensures 1.0 - Blend(caution, half) == (1.0 - Blend(caution, whole)) / 2.0
  {
  }

  /** Confidence is the product of its two terms, to four places: none from a p-value at or
      past the threshold, and in full from a sample and significance that saturate both. */
  lemma {:induction false} ConfidenceIsTheProduct(c: Curves, l: Lesson)
    ensures Significance(l.pValue)
            == if l.pValue >= 0.05 then 0.0 else if l.pValue <= 0.0 then 1.0 else 1.0 - 20.0 * l.pValue
    ensures -0.00005 <= Confidence(c, l) - Joint(c.sampleTerm(l.sampleSize), Significance(l.pValue)) <= 0.00005
    ensures l.pValue >= 0.05 ==> Confidence(c, l) == 0.0
    ensures l.pValue <= 0.0 && c.sampleTerm(l.sampleSize) == 1.0 ==> Confidence(c, l) == 1.0
  {
    ShareOfSignificance(l.pValue);
    WithinHalfAPlace(Joint(c.sampleTerm(l.sampleSize), Significance(l.pValue)));
    if l.pValue >= 0.05 {
      NothingSignificant(c, l);
    }
    if l.pValue <= 0.0 && c.sampleTerm(l.sampleSize) == 1.0 {
      EverythingSignificant(c, l);
    }
  }

  lemma {:induction false} NothingSignificant(c: Curves, l: Lesson)
    requires l.pValue >= 0.05
    ensures Confidence(c, l) == 0.0
  {
    ShareOfSignificance(l.pValue);
    NoShare(c.sampleTerm(l.sampleSize), Significance(l.pValue));
    RoundsToNothing(Joint(c.sampleTerm(l.sampleSize), Significance(l.pValue)));
  }

  lemma {:induction false} EverythingSignificant(c: Curves, l: Lesson)
    requires l.pValue <= 0.0 && c.sampleTerm(l.sampleSize) == 1.0
    ensures Confidence(c, l) == 1.0
  {
    ShareOfSignificance(l.pValue);
    WholeShare(c.sampleTerm(l.sampleSize), Significance(l.pValue));
    RoundsToOne(Joint(c.sampleTerm(l.sampleSize), Significance(l.pValue)));
  }

  lemma {:induction false} ShareOfSignificance(p: real)
    ensures Significance(p) == if p >= 0.05 then 0.0 else if p <= 0.0 then 1.0 else 1.0 - 20.0 * p
  {
    assert p / 0.05 == 20.0 * p;
  }

  lemma {:induction false} WithinHalfAPlace(x: real)
    ensures -0.00005 <= RoundTo(x, 0.0001) - x <= 0.00005
  {
    RoundToNear(x, 0.0001);
  }

  lemma {:induction false} NoShare(term: real, share: real)
    requires share == 0.0
    ensures Joint(term, share) == 0.0
  {
  }

  lemma {:induction false} WholeShare(term: real, share: real)
    requires term == 1.0 && share == 1.0
    ensures Joint(term, share) == 1.0
  {
  }

  lemma {:induction false} RoundsToNothing(x: real)
    requires x == 0.0
    ensures RoundTo(x, 0.0001) == 0.0
  {
    GridPoint(0, 0.0001);
    RoundToFixesGrid(0.0, 0.0001);
  }

  lemma {:induction false} RoundsToOne(x: real)
    requires x == 1.0
    ensures RoundTo(x, 0.0001) == 1.0
  {
    GridPoint(10000, 0.0001);
    RoundToFixesGrid(1.0, 0.0001);
  }

  /** A lesson without confidence takes nothing off, one with full confidence takes off all
      of its effective caution. */
  lemma {:induction false} FactorSpans(c: Curves, l: Lesson, now: int)
    ensures Confidence(c, l) == 0.0 ==> Factor(c, l, now) == 1.0
    ensures Confidence(c, l) == 1.0 ==> Factor(c, l, now) == EffectiveCaution(c, l, now)
  {
  }

  /** One more lesson takes off exactly its own factor, and never gives size back. */
  lemma {:induction false} MoreLessonsOnlyShrink(c: Curves, lessons: seq<Lesson>, l: Lesson, floor: real, now: int)
    requires Lawful(c) && AllClamped(lessons) && 0.25 <= l.caution <= 1.0
    ensures Product(c, lessons + [l], now) == Joint(Product(c, lessons, now), Factor(c, l, now))
    ensures Multiplier(c, lessons + [l], floor, now) <= Multiplier(c, lessons, floor, now)
  {
    var whole, factor := Product(c, lessons, now), Factor(c, l, now);
    ProductOfOneMore(c, lessons, l, now);
    ProductOnlyRelaxes(c, lessons, now, now);
    FactorOnlyRelaxes(c, l, now, now);
    ShareIsLess(whole, factor);
    RoundToMonotone(Joint(whole, factor), whole, 0.0001);
  }

  lemma {:induction false} ProductOfOneMore(c: Curves, lessons: seq<Lesson>, l: Lesson, now: int)
    ensures Product(c, lessons + [l], now) == Joint(Product(c, lessons, now), Factor(c, l, now))
  {
    assert (lessons + [l])[..|lessons|] == lessons;
  }

  lemma {:induction false} ShareIsLess(whole: real, factor: real)
    requires 0.0 <= whole && factor <= 1.0
    ensures Joint(whole, factor) <= whole
  {
    MulMonotone(factor, 1.0, whole);
  }

  predicate AllClamped(lessons: seq<Lesson>) {
    forall i :: 0 <= i < |lessons| ==> 0.25 <= lessons[i].caution <= 1.0
  }

  lemma {:induction false} ProductOnlyRelaxes(c: Curves, lessons: seq<Lesson>, now: int, later: int)
    requires Lawful(c) && AllClamped(lessons) && now <= later
    ensures 0.0 < Product(c, lessons, now) <= Product(c, lessons, later) <= 1.0
  {
    if lessons != [] {
      var n := |lessons| - 1;
      ProductOnlyRelaxes(c, lessons[..n], now, later);
      FactorOnlyRelaxes(c, lessons[n], now, later);
      ProductsInOrder(Product(c, lessons[..n], now), Product(c, lessons[..n], later),
                      Factor(c, lessons[n], now), Factor(c, lessons[n], later));
    }
  }

  lemma {:induction false} ProductsInOrder(p: real, q: real, f: real, g: real)
    requires 0.0 < p <= q <= 1.0 && 0.0 < f <= g <= 1.0
    ensures 0.0 < Joint(p, f) <= Joint(q, g) <= 1.0
  {
    MulPositive(p, f);
    MulBoth(p, q, f, g);
    MulBoth(q, 1.0, g, 1.0);
  }

  /** Shrink-only: for every set of lessons and every clock the multiplier is between
      the floor and one; and left unconfirmed, the same lessons can only give back
      size as time passes, never take more. */
  lemma {:induction false} MultiplierShrinksAndRelaxes(c: Curves, lessons: seq<Lesson>, floor: real,
                                                       now: int, later: int)
    requires Lawful(c) && AllClamped(lessons) && floor <= 1.0 && now <= later
    ensures floor <= Multiplier(c, lessons, floor, now) <= Multiplier(c, lessons, floor, later) <= 1.0
    ensures Multiplier(c, lessons, floor, now) >= 0.0
  {
    ProductOnlyRelaxes(c, lessons, now, later);
    var p, q := Product(c, lessons, now), Product(c, lessons, later);
    RoundToMonotone(p, q, 0.0001);
    RoundedUnit(p);
    RoundedUnit(q);
  }

  /** Rows only ever hold clamped lessons, whatever was asked to be stored. */
  predicate StoredClamped(rows: seq<Row>) {
    forall i :: 0 <= i < |rows| ==> 0.25 <= rows[i].lesson.caution <= 1.0
  }

  lemma {:induction false} StepsStoreClamped(rows: seq<Row>, op: Op)
    requires StoredClamped(rows)
    ensures StoredClamped(Step(rows, op))
  {
    match op
    case Add(lesson, now) =>
      var after := Step(rows, op);
      forall i | 0 <= i < |after|
        ensures 0.25 <= after[i].lesson.caution <= 1.0
      {
        assert i < |rows| ==> after[i].lesson == rows[i].lesson;
      }
    case Review(id, e, now, k) =>
    case Retire(id, reason, now) =>
    case Expire(now, days) =>
  }

  lemma {:induction false} RunsStoreClamped(rows: seq<Row>, ops: seq<Op>)
    requires StoredClamped(rows)
    ensures StoredClamped(Run(rows, ops))
    decreases |ops|
  {
    if ops != [] {
      StepsStoreClamped(rows, ops[0]);
      RunsStoreClamped(Step(rows, ops[0]), ops[1..]);
    }
  }
}
