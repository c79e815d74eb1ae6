/** The counterfactual engine: alternative exit rules scored on the price path a
    trade actually lived through, with every ambiguity charged to the rule. */
module PostMortem {
  import opened Common
  import opened RealFacts

  datatype PriceBar = PriceBar(ts: int, open: real, high: real, low: real, close: real)

  /** One bar in R relative to the entry: positive is in the trade's favour. */
  datatype PathPoint = PathPoint(ts: int, highR: real, lowR: real, closeR: real, openR: real)

  function Sign(side: Side): real {
    if side.Buy? then 1.0 else -1.0
  }

  /** A price expressed in R. */
  function InR(price: real, entry: real, distance: real, side: Side): real
    requires distance > 0.0
  {
    (price - entry) * Sign(side) / distance
  }

  function PointInR(bar: PriceBar, entry: real, distance: real, side: Side): PathPoint
    requires distance > 0.0
  {
    var a, b := InR(bar.high, entry, distance, side), InR(bar.low, entry, distance, side);
    PathPoint(bar.ts, Max(a, b), Min(a, b), InR(bar.close, entry, distance, side),
              InR(bar.open, entry, distance, side))
  }

  method PathInR(bars: seq<PriceBar>, entry: real, distance: real, side: Side)
    returns (path: seq<PathPoint>)
    ensures distance <= 0.0 ==> path == []
    ensures distance > 0.0 ==>
              |path| == |bars| &&
              forall i :: 0 <= i < |bars| ==> path[i] == PointInR(bars[i], entry, distance, side)
  {
    path := [];
    if distance <= 0.0 {
      return;
    }
    for i := 0 to |bars|
      invariant |path| == i
      invariant forall j :: 0 <= j < i ==> path[j] == PointInR(bars[j], entry, distance, side)
    {
      path := path + [PointInR(bars[i], entry, distance, side)];
    }
  }

  lemma {:induction false} InROrder(p: real, q: real, entry: real, distance: real, side: Side)
    requires distance > 0.0
    ensures side.Buy? ==> (p <= q <==> InR(p, entry, distance, side) <= InR(q, entry, distance, side))
    ensures side.Sell? ==> (p <= q <==> InR(q, entry, distance, side) <= InR(p, entry, distance, side))
  {
    assert InR(q, entry, distance, side) - InR(p, entry, distance, side)
           == (q - p) * Sign(side) / distance;
  }

  /** The scale is fixed by what it is for: the entry is zero, one risk distance in the
      trade's favour is plus one, the same distance against it minus one, and equal price
      moves are equal moves in R. */
  lemma {:induction false} InRIsTheScale(p: real, move: real, entry: real, distance: real, side: Side)
    requires distance > 0.0
    ensures InR(entry, entry, distance, side) == 0.0
    ensures InR(entry + Sign(side) * distance, entry, distance, side) == 1.0
    ensures InR(entry - Sign(side) * distance, entry, distance, side) == -1.0
    ensures InR(p + move, entry, distance, side) - InR(p, entry, distance, side)
            == InR(entry + move, entry, distance, side)
  {
    assert 0.0 * Sign(side) / distance == 0.0;
    DivideOut(distance);
    assert (p + move - entry) * Sign(side) == (p - entry) * Sign(side) + move * Sign(side);
  }

  lemma {:induction false} DivideOut(distance: real)
    requires distance > 0.0
    ensures distance / distance == 1.0 && -distance / distance == -1.0
  {
  }

  /** The conversion keeps every touch: on either side of the market, a bar trades
      through a price on its favourable (adverse) extreme exactly when the point's
      high (low) in R reaches that price in R. */
  lemma {:induction false} TouchesSurviveConversion(bar: PriceBar, level: real, entry: real, distance: real, side: Side)
    requires distance > 0.0 && bar.low <= bar.high
    ensures var pt := PointInR(bar, entry, distance, side);
            var levelR := InR(level, entry, distance, side);
            && (pt.highR >= levelR <==> if side.Buy? then bar.high >= level else bar.low <= level)
            && (pt.lowR <= levelR <==> if side.Buy? then bar.low <= level else bar.high >= level)
  {
    InROrder(bar.low, bar.high, entry, distance, side);
    InROrder(level, bar.high, entry, distance, side);
    InROrder(bar.high, level, entry, distance, side);
    InROrder(level, bar.low, entry, distance, side);
    InROrder(bar.low, level, entry, distance, side);
  }

  // ---------------------------------------------------------------------
  // Costs and fills
  // ---------------------------------------------------------------------

  datatype Trade = Trade(r: real, mfe: real, initialRisk: real, commission: real, financing: real,
                         pnlPips: real, entrySlippagePips: real, exitSlippagePips: real)

  const DEFAULT_SLIPPAGE_R := 0.02

  function CostR(t: Trade): real {
    if t.initialRisk <= 0.0 then 0.0 else (t.commission + Abs(t.financing)) / t.initialRisk
  }

  /** The slippage allowance in R is never below the default: no fill is free. */
  function SlippageR(t: Trade): (slip: real)
    ensures slip >= DEFAULT_SLIPPAGE_R
  {
    var r, pips := Abs(t.r), Abs(t.pnlPips);
    var observed := Max(t.entrySlippagePips, t.exitSlippagePips);
    if r > 0.05 && pips > 0.000000001 && observed > 0.0 && pips / r > 0.000000001
    then Max(DEFAULT_SLIPPAGE_R, observed / (pips / r))
    else DEFAULT_SLIPPAGE_R
  }

  /** The allowance is the worse of the two slippages observed, in the trade's own R, or the
      default if that is more or the trade is too small to tell. */
  lemma {:induction false} SlippageIsTheObserved(t: Trade)
    ensures var observed, r, pips := Max(t.entrySlippagePips, t.exitSlippagePips), Abs(t.r), Abs(t.pnlPips);
            if r > 0.05 && pips > 0.000000001 && pips > 0.000000001 * r
            then SlippageR(t) * pips == Max(0.02 * pips, observed * r)
            else SlippageR(t) == 0.02
  {
    var observed, r, pips := Max(t.entrySlippagePips, t.exitSlippagePips), Abs(t.r), Abs(t.pnlPips);
    if r > 0.05 {
      DivCompare(pips, r, 0.000000001);
      if pips > 0.000000001 && pips > 0.000000001 * r {
        TellingTrade(t, observed, r, pips);
      }
    }
  }

  lemma {:induction false} TellingTrade(t: Trade, observed: real, r: real, pips: real)
    requires observed == Max(t.entrySlippagePips, t.exitSlippagePips) && r == Abs(t.r) && pips == Abs(t.pnlPips)
    requires r > 0.05 && pips > 0.000000001 && pips / r > 0.000000001
    ensures SlippageR(t) * pips == Max(DEFAULT_SLIPPAGE_R * pips, observed * r)
  {
    var perR := pips / r;
    assert perR * r == pips;
    if observed > 0.0 {
      DivCompare(observed, perR, DEFAULT_SLIPPAGE_R);
      var share := observed / perR;
      assert share * perR == observed;
      InOwnPips(share, perR, r, pips, observed);
      AllowanceInPips(share, pips);
    } else {
      MulMonotone(observed, 0.0, r);
      MulPositive(DEFAULT_SLIPPAGE_R, pips);
    }
  }

  lemma {:induction false} InOwnPips(share: real, perR: real, r: real, pips: real, observed: real)
    requires perR * r == pips && share * perR == observed
    ensures share * pips == observed * r
  {
    assert share * (perR * r) == (share * perR) * r;
  }

  lemma {:induction false} AllowanceInPips(share: real, pips: real)
    requires pips > 0.0
    ensures Max(DEFAULT_SLIPPAGE_R, share) * pips == Max(DEFAULT_SLIPPAGE_R * pips, share * pips)
  {
    if share <= DEFAULT_SLIPPAGE_R {
      MulMonotone(share, DEFAULT_SLIPPAGE_R, pips);
    } else {
      MulMonotone(DEFAULT_SLIPPAGE_R, share, pips);
    }
  }

  /** Fill of a protective (not favourable) or target (favourable) order at a level. */
  function FillAt(pt: PathPoint, level: real, favourable: bool, slip: real): real {
    if favourable then
      if pt.openR >= level then pt.openR - slip else level - slip
    else
      if pt.openR <= level then pt.openR - slip else level - slip
  }

  /** A protective stop is never credited more than its level less slippage, and
      is credited exactly that unless the bar opened beyond it. */
  lemma {:induction false} StopFillIsNeverGenerous(pt: PathPoint, level: real, slip: real)
    ensures FillAt(pt, level, false, slip) <= level - slip
    ensures FillAt(pt, level, false, slip) < level - slip <==> pt.openR < level
  {
  }

  method FirstTouch(path: seq<PathPoint>, level: real, from: nat) returns (hit: Option<nat>)
    ensures hit.Some? ==> from <= hit.value < |path| && path[hit.value].highR >= level
    ensures hit.Some? ==> forall i :: from <= i < hit.value ==> path[i].highR < level
    ensures hit.None? ==> forall i :: from <= i < |path| ==> path[i].highR < level
  {
    var i := from;
    while i < |path|
      invariant from <= i
      invariant forall j :: from <= j < i && j < |path| ==> path[j].highR < level
    {
      if path[i].highR >= level {
        return Some(i);
      }
      i := i + 1;
    }
    return None;
  }

  // ---------------------------------------------------------------------
  // The three rules, declaratively
  // ---------------------------------------------------------------------

  /** Bar i is the first whose favourable extreme reaches the arming level. */
  ghost predicate ArmsAt(path: seq<PathPoint>, level: real, i: nat) {
    && i < |path| && path[i].highR >= level
    && forall j :: 0 <= j < i ==> path[j].highR < level
  }

  /** Bar h is the first, from the arming bar on, to trade down to the level. */
  ghost predicate StoppedAt(path: seq<PathPoint>, from: nat, level: real, h: nat) {
    && from <= h < |path| && path[h].lowR <= level
    && forall j :: from <= j < h ==> path[j].lowR > level
  }

  /** m is the largest favourable extreme among the first n bars. */
  ghost predicate IsPeak(path: seq<PathPoint>, n: nat, m: real) {
    && n <= |path|
    && (exists j :: 0 <= j < n && path[j].highR == m)
    && forall j :: 0 <= j < n ==> path[j].highR <= m
  }

  const ARM_R := 1.0
  const KEEP := 0.5

  /** The give-back ratchet lets go on bar i: the peak m over strictly earlier bars
      has reached the arming level and this bar trades down to half of it. */
  ghost predicate RatchetTrips(path: seq<PathPoint>, i: nat, m: real) {
    i < |path| && IsPeak(path, i, m) && m >= ARM_R && path[i].lowR <= m * KEEP
  }

  datatype Scored = Scored(name: string, deltaR: real, applicable: bool, computable: bool)

  /** May this observation enter a statistic? */
  predicate Counts(c: Scored) {
    c.applicable && c.computable
  }

  /** What taking a fraction at the level banks, in R. */
  function Banked(t: Trade, fraction: real, level: real): real {
    level - SlippageR(t) - 0.5 * CostR(t) * fraction
  }

  function PartialChange(fraction: real, banked: real, r: real): real {
    fraction * banked + (1.0 - fraction) * r - r
  }

  /** The partial take is scored on every trade that reached the level. */
  function ScorePartial(t: Trade, fraction: real, level: real): Scored {
    if t.mfe >= level
    then Scored("partial_at_1R", PartialChange(fraction, Banked(t, fraction, level), t.r), true, true)
    else Scored("partial_at_1R", 0.0, false, true)
  }

  /** ... including the winners it hurts: it scores negative exactly when the trade
      went on to close above what the partial would have banked. */
  lemma {:induction false} PartialCountsItsDamage(t: Trade, fraction: real, level: real)
    requires fraction > 0.0
    ensures var c := ScorePartial(t, fraction, level);
            && (Counts(c) <==> t.mfe >= level)
            && (Counts(c) && c.deltaR < 0.0 <==> t.mfe >= level && t.r > Banked(t, fraction, level))
  {
    ChangeIsNegativeIff(fraction, Banked(t, fraction, level), t.r);
  }

  /** What a partial take changes is its fraction of the difference to the trade's own result;
      what it banks is the level less the slippage and half of its own part of the cost. */
  lemma {:induction false} PartialIsItsFraction(t: Trade, fraction: real, level: real)
    ensures var c, banked := ScorePartial(t, fraction, level), level - SlippageR(t) - 0.5 * fraction * CostR(t);
            c.deltaR == if t.mfe >= level then fraction * (banked - t.r) else 0.0
    ensures t.initialRisk > 0.0 ==> CostR(t) * t.initialRisk == t.commission + Abs(t.financing)
  {
    assert PartialChange(fraction, Banked(t, fraction, level), t.r)
        == fraction * (Banked(t, fraction, level) - t.r);
    assert 0.5 * CostR(t) * fraction == 0.5 * fraction * CostR(t);
  }

  lemma {:induction false} ChangeIsNegativeIff(fraction: real, banked: real, r: real)
    requires fraction > 0.0
    ensures PartialChange(fraction, banked, r) < 0.0 <==> r > banked
  {
    assert PartialChange(fraction, banked, r) == fraction * (banked - r);
    if r > banked {
      assert fraction * (r - banked) > 0.0;
    } else {
      assert fraction * (banked - r) >= 0.0;
    }
  }

  ghost predicate BreakevenSpec(t: Trade, path: seq<PathPoint>, level: real, c: Scored) {
    && c.computable
    && (c.applicable <==> exists a: nat :: ArmsAt(path, level, a))
    && (!c.applicable ==> c.deltaR == 0.0)
    && forall a: nat :: ArmsAt(path, level, a) ==>
         if exists h: nat :: StoppedAt(path, a, CostR(t), h)
         then exists h: nat :: StoppedAt(path, a, CostR(t), h)
                && c.deltaR == FillAt(path[h], CostR(t), false, SlippageR(t)) - t.r
         else c.deltaR == 0.0
  }

  method ScoreBreakeven(t: Trade, path: seq<PathPoint>, level: real) returns (c: Scored)
    ensures BreakevenSpec(t, path, level, c)
    ensures c.deltaR != 0.0 ==> t.r + c.deltaR <= CostR(t) - SlippageR(t)
  {
    var trigger := FirstTouch(path, level, 0);
    if trigger.None? {
      return Scored("breakeven_at_1R", 0.0, false, true);
    }
    var a := trigger.value;
    assert ArmsAt(path, level, a);
    var i := a;
    while i < |path|
      invariant a <= i <= |path|
      invariant forall j :: a <= j < i ==> path[j].lowR > CostR(t)
    {
      if path[i].lowR <= CostR(t) {
        assert StoppedAt(path, a, CostR(t), i);
        return Scored("breakeven_at_1R", FillAt(path[i], CostR(t), false, SlippageR(t)) - t.r,
                      true, true);
      }
      i := i + 1;
    }
    return Scored("breakeven_at_1R", 0.0, true, true);
  }

  /** An armed trade whose bar h is the first to come back to its cost ends there: at its cost,
      or at a worse open, less the slippage. One that never comes back is left alone. */
  lemma {:induction false} BreakevenEndsAtCost(t: Trade, path: seq<PathPoint>, level: real, c: Scored, a: nat)
    requires BreakevenSpec(t, path, level, c) && ArmsAt(path, level, a)
    ensures c.applicable && c.computable
    ensures forall h :: a <= h < |path| && path[h].lowR <= CostR(t) && (forall j :: a <= j < h ==> path[j].lowR > CostR(t))
              ==> t.r + c.deltaR == Min(path[h].openR, CostR(t)) - SlippageR(t)
    ensures (forall j :: a <= j < |path| ==> path[j].lowR > CostR(t)) ==> c.deltaR == 0.0
  {
    forall h | a <= h < |path| && path[h].lowR <= CostR(t) && forall j :: a <= j < h ==> path[j].lowR > CostR(t)
      ensures t.r + c.deltaR == Min(path[h].openR, CostR(t)) - SlippageR(t)
    {
      assert StoppedAt(path, a, CostR(t), h);
    }
  }

  /** Bar i is where the ratchet exits: it trips there and on no earlier bar. */
  ghost predicate RatchetExitsAt(path: seq<PathPoint>, i: nat, m: real) {
    RatchetTrips(path, i, m) && forall k: nat, n :: k < i ==> !RatchetTrips(path, k, n)
  }

  ghost predicate RatchetSpec(t: Trade, path: seq<PathPoint>, c: Scored) {
    && c.computable
    && (c.applicable <==> exists j :: 0 <= j < |path| && path[j].highR >= ARM_R)
    && if exists i: nat, m :: RatchetExitsAt(path, i, m)
       then exists i: nat, m :: RatchetExitsAt(path, i, m)
              && c.deltaR == FillAt(path[i], m * KEEP, false, SlippageR(t)) - t.r
       else c.deltaR == 0.0 && forall i: nat, m :: !RatchetTrips(path, i, m)
  }

  method ScoreRatchet(t: Trade, path: seq<PathPoint>) returns (c: Scored)
    ensures RatchetSpec(t, path, c)
  {
    var peak := -1000000000.0;
    for i := 0 to |path|
      invariant peak >= ARM_R ==> IsPeak(path, i, peak)
      invariant peak < ARM_R ==> forall j :: 0 <= j < i ==> path[j].highR < ARM_R
      invariant forall k: nat, m :: k < i ==> !RatchetTrips(path, k, m)
    {
      var pt := path[i];
      if peak >= ARM_R {
        var floor := peak * KEEP;
        if pt.lowR <= floor {
          assert RatchetExitsAt(path, i, peak);
          return Scored("trail_tighter", FillAt(pt, floor, false, SlippageR(t)) - t.r, true, true);
        }
      }
      forall m
        ensures !RatchetTrips(path, i, m)
      {
        if peak >= ARM_R && IsPeak(path, i, m) {
          assert m == peak;
        }
      }
      var raised := Max(peak, pt.highR);
      if raised >= ARM_R {
        assert path[i].highR == raised || exists j :: 0 <= j < i && path[j].highR == raised;
      }
      peak := raised;
    }
    return Scored("trail_tighter", 0.0, peak >= ARM_R, true);
  }

  /** The exit bar and its peak are unique, so the specification names one outcome:
      the first bar to give back half of the best open profit of the bars before
      it. The rule is never credited more than that floor less slippage. */
  lemma {:induction false} RatchetCreditsAtMostTheFloor(t: Trade, path: seq<PathPoint>, c: Scored, i: nat, m: real)
    requires RatchetSpec(t, path, c) && RatchetExitsAt(path, i, m)
    ensures c.applicable && c.deltaR == FillAt(path[i], m * KEEP, false, SlippageR(t)) - t.r
    ensures t.r + c.deltaR <= 0.5 * m - SlippageR(t)
    ensures m >= 1.0 && forall j :: 0 <= j < i ==> path[j].highR <= m
    ensures forall k: nat, n :: RatchetExitsAt(path, k, n) ==> k == i && n == m
  {
    var k: nat, n :| RatchetExitsAt(path, k, n)
      && c.deltaR == FillAt(path[k], n * KEEP, false, SlippageR(t)) - t.r;
    assert k == i && n == m;
    StopFillIsNeverGenerous(path[i], m * KEEP, SlippageR(t));
  }

  /** The ratchet's decision uses nothing recorded after its exit bar. */
  lemma {:induction false} RatchetIsCausal(path: seq<PathPoint>, later: seq<PathPoint>, i: nat, m: real)
    requires i < |path|
    ensures RatchetExitsAt(path + later, i, m) <==> RatchetExitsAt(path, i, m)
  {
    forall k: nat, n | k <= i
      ensures RatchetTrips(path + later, k, n) <==> RatchetTrips(path, k, n)
    {
      PeakIsLocal(path, later, k, n);
    }
  }

  lemma {:induction false} PeakIsLocal(path: seq<PathPoint>, later: seq<PathPoint>, k: nat, m: real)
    requires k <= |path|
    ensures IsPeak(path + later, k, m) <==> IsPeak(path, k, m)
  {
    var whole := path + later;
    assert forall j :: 0 <= j < k ==> whole[j] == path[j];
    if IsPeak(whole, k, m) {
      var j :| 0 <= j < k && whole[j].highR == m;
      assert path[j].highR == m;
    }
    if IsPeak(path, k, m) {
      var j :| 0 <= j < k && path[j].highR == m;
      assert whole[j].highR == m;
    }
  }

  function NotComputable(name: string): Scored {
    Scored(name, 0.0, false, false)
  }

  /** Every alternative rule, scored. Without a path only the scale-out can be
      answered; a wider stop is never answerable from a record that ends at the
      stop. */
  method Counterfactuals(t: Trade, path: seq<PathPoint>, fraction: real, partialR: real,
                         breakevenR: real) returns (out: seq<Scored>)
    ensures |out| > 0 && out[0] == ScorePartial(t, fraction, partialR)
    ensures path == [] ==> |out| == 5 && forall i :: 1 <= i < 5 ==> !Counts(out[i])
    ensures path != [] ==>
              && |out| == 4
              && BreakevenSpec(t, path, breakevenR, out[1])
              && RatchetSpec(t, path, out[2])
              && out[3] == NotComputable("wider_stop_1.5x")
  {
    out := [ScorePartial(t, fraction, partialR)];
    if path == [] {
      return out + [NotComputable("breakeven_at_1R"), NotComputable("trail_tighter"),
                    NotComputable("horizon_exit"), NotComputable("wider_stop_1.5x")];
    }
    var breakeven := ScoreBreakeven(t, path, breakevenR);
    var ratchet := ScoreRatchet(t, path);
    out := out + [breakeven, ratchet, NotComputable("wider_stop_1.5x")];
  }
}
