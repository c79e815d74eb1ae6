/** Parameter proposals: clamp to the table, refuse the risky direction, limit the
    step, and check the direction again on the value that would be stored. */
module Proposals {
  import opened Common
  import opened RealFacts
  import opened Rounding

  datatype Direction = SaferLower | SaferHigher

  /** A proposable number. Bounds count units of the stored precision: 1 for an
      integer setting, 0.0001 for a decimal one. */
  datatype Spec = Spec(least: nat, most: nat, integral: bool, direction: Direction) {
    function Unit(): (u: real)
      ensures u > 0.0
    {
      if integral then 1.0 else 0.0001
    }

    function Min(): real { GridAt(least, Unit()) }

    function Max(): real { GridAt(most, Unit()) }
  }

  const FROZEN: set<string> := {
    "risk.daily_loss_limit_pct", "risk.weekly_loss_limit_pct", "risk.monthly_loss_limit_pct",
    "risk.max_drawdown_halt_pct", "risk.ladder", "risk.ladder_enabled",
    "risk.require_broker_side_stop", "risk.max_trades_per_day", "risk.max_trades_per_week",
    "risk.max_trades_per_year", "risk.max_annual_cost_pct_of_equity", "risk.max_gross_leverage",
    "risk.max_currency_exposure_pct", "risk.max_correlated_risk_pct", "risk.risk_per_trade_pct",
    "risk.max_lots_per_trade", "execution.venue_mode", "execution.broker", "agent.mode",
    "agent.proposal_requires_human", "security.dashboard_read_only_default",
    "security.require_totp_for_writes", "security.bind_host", "security.allowed_origins",
    "research.alpha", "research.pbo_max", "research.min_dsr", "research.declared_prior",
    "research.cpcv_positive_path_fraction"
  }

  const TABLE: map<string, Spec> := map[
    "risk.breakeven_trigger_r" := Spec(0, 30000, false, SaferLower),
    "risk.partial_take_r" := Spec(5000, 50000, false, SaferLower),
    "risk.trail_atr_multiple" := Spec(5000, 60000, false, SaferLower),
    "risk.trail_activate_r" := Spec(0, 30000, false, SaferLower),
    "risk.max_spread_pips_multiple" := Spec(11000, 50000, false, SaferLower),
    "risk.giveback_arm_r" := Spec(5000, 50000, false, SaferLower),
    "risk.partial_take_fraction" := Spec(1000, 8000, false, SaferHigher),
    "risk.min_reward_risk" := Spec(10000, 50000, false, SaferHigher),
    "risk.min_stop_pips" := Spec(50000, 1000000, false, SaferHigher),
    "risk.min_seconds_between_entries" := Spec(60, 86400, true, SaferHigher),
    "risk.block_minutes_before_high_impact" := Spec(5, 240, true, SaferHigher),
    "risk.block_minutes_after_high_impact" := Spec(5, 240, true, SaferHigher),
    "risk.giveback_keep_fraction" := Spec(2000, 9000, false, SaferHigher)
  ]

  const MAX_STEP := 0.35

  function Clamp(spec: Spec, v: real): real {
    RoundTo(Max(spec.Min(), Min(spec.Max(), v)), spec.Unit())
  }

  /** b carries strictly more risk than a. */
  predicate Riskier(spec: Spec, a: real, b: real) {
    if spec.direction.SaferLower? then b > a else b < a
  }

  function RelativeMove(current: real, target: real): real {
    Abs(target - current) / Max(0.000000001, Abs(current))
  }

  function StepToward(current: real, target: real): real {
    current * (1.0 + (if target > current then 1.0 else -1.0) * MAX_STEP)
  }

  /** The step limiter; it leaves a zero current value alone. */
  function Limited(spec: Spec, current: real, target: real): real {
    if current != 0.0 && RelativeMove(current, target) > MAX_STEP
    then Clamp(spec, StepToward(current, target)) else target
  }

  datatype Diagnosis = Undiagnosed | Luck | Regime | Insufficient | Descriptive | Parameter

  datatype Finding = Finding(pattern: string, n: int, meanDeltaR: real, pValue: real,
                             pAdjusted: real, testsInFamily: nat, significant: bool,
                             diagnosis: Diagnosis)

  function EffectiveP(f: Finding): real {
    if f.testsInFamily > 0 then f.pAdjusted else f.pValue
  }

  datatype Refusal = Frozen | NotProposable | ThinEvidence | MoreRisk | NotSignificant
                   | FalseDiscovery | WrongDiagnosis | InvalidConfig | MoreRiskAfterStep

  datatype Result = Proposed(path: string, current: Option<real>, value: real) | Refused(why: Refusal)

  /** The evidence gates: sample, corrected significance, diagnosis. */
  predicate Evidenced(f: Finding, minSample: int, alpha: real) {
    && f.n >= minSample && EffectiveP(f) < alpha
    && (f.testsInFamily > 0 ==> f.significant)
    && (f.diagnosis.Undiagnosed? || f.diagnosis.Parameter?)
  }

  /** The configuration's own validation of a value stored under a path. */
  type Validation = (string, real) -> bool

  /** What a proposal was asked for. */
  datatype Ask = Ask(path: string, current: Option<real>, requested: real)

  /** The gates in the order they are asked, the most serious reason first. */
  function Rank(why: Refusal): nat {
    match why
    case Frozen => 0
    case NotProposable => 1
    case ThinEvidence => 2
    case MoreRisk => 3
    case NotSignificant => 4
    case FalseDiscovery => 5
    case WrongDiagnosis => 6
    case InvalidConfig => 7
    case MoreRiskAfterStep => 8
  }

  /** The direction check: storing v would move a known current value toward more risk. */
  predicate TowardRisk(spec: Spec, current: Option<real>, v: real) {
    current.Some? && v != current.value
    && if v > current.value then spec.direction.SaferLower? else spec.direction.SaferHigher?
  }

  /** What the request would store. */
  function StoredValue(ask: Ask): real
    requires ask.path in TABLE
  {
    var clamped := Clamp(TABLE[ask.path], ask.requested);
    if ask.current.None? then clamped else Limited(TABLE[ask.path], ask.current.value, clamped)
  }

  /** Whether one gate, taken by itself, is against the request. */
  predicate Objects(why: Refusal, ask: Ask, f: Finding, minSample: int, alpha: real, accepts: Validation) {
    match why
    case Frozen => ask.path in FROZEN
    case NotProposable => ask.path !in TABLE
    case ThinEvidence => f.n < minSample
    case MoreRisk =>
      ask.path in TABLE && TowardRisk(TABLE[ask.path], ask.current, Clamp(TABLE[ask.path], ask.requested))
    case NotSignificant => EffectiveP(f) >= alpha
    case FalseDiscovery => f.testsInFamily > 0 && !f.significant
    case WrongDiagnosis => !f.diagnosis.Undiagnosed? && !f.diagnosis.Parameter?
    case InvalidConfig => ask.path in TABLE && !accepts(ask.path, Clamp(TABLE[ask.path], ask.requested))
    case MoreRiskAfterStep =>
      ask.path in TABLE && TowardRisk(TABLE[ask.path], ask.current, StoredValue(ask))
  }

  /** No gate objects. */
  ghost predicate Clear(ask: Ask, f: Finding, minSample: int, alpha: real, accepts: Validation) {
    forall w: Refusal :: !Objects(w, ask, f, minSample, alpha, accepts)
  }

  /** Propose a number: refused for the first gate that objects, and otherwise stored as
      limited. */
  method Propose(ask: Ask, f: Finding, minSample: int, alpha: real, accepts: Validation) returns (r: Result)
    ensures r.Refused? ==>
              && Objects(r.why, ask, f, minSample, alpha, accepts)
              && forall w: Refusal :: Rank(w) < Rank(r.why) ==> !Objects(w, ask, f, minSample, alpha, accepts)
    ensures r.Proposed? <==> Clear(ask, f, minSample, alpha, accepts)
    ensures r.Proposed? ==> ask.path in TABLE && r == Proposed(ask.path, ask.current, StoredValue(ask))
  {
    var Ask(path, current, requested) := ask;
    if path in FROZEN {
      return Refused(Frozen);
    }
    if path !in TABLE {
      return Refused(NotProposable);
    }
    if f.n < minSample {
      return Refused(ThinEvidence);
    }
    var spec := TABLE[path];
    var clamped := Clamp(spec, requested);
    if TowardRisk(spec, current, clamped) {
      return Refused(MoreRisk);
    }
    var p := if f.testsInFamily > 0 then f.pAdjusted else f.pValue;
    if p >= alpha {
      return Refused(NotSignificant);
    }
    if f.testsInFamily > 0 && !f.significant {
      return Refused(FalseDiscovery);
    }
    if !f.diagnosis.Undiagnosed? && !f.diagnosis.Parameter? {
      return Refused(WrongDiagnosis);
    }
    if !accepts(path, clamped) {
      return Refused(InvalidConfig);
    }
    clamped := LimitStep(spec, current, clamped);
    if TowardRisk(spec, current, clamped) {
      return Refused(MoreRiskAfterStep);
    }
    return Proposed(path, current, clamped);
  }

  /** Moves only as far as the step limit allows; a missing or zero current value has no
      limit. */
  method LimitStep(spec: Spec, current: Option<real>, clamped: real) returns (v: real)
    ensures v == if current.None? then clamped else Limited(spec, current.value, clamped)
  {
    v := clamped;
    if current.Some? && current.value != 0.0 {
      if RelativeMove(current.value, clamped) > MAX_STEP {
        v := Clamp(spec, StepToward(current.value, clamped));
      }
    }
  }

  // ---------------------------------------------------------------------
  // What a proposed value can be
  // ---------------------------------------------------------------------

  /** A row of the table: ordered bounds, well above zero where safer is higher, decimal
      and from zero or well above it where safer is lower. */
  predicate InTable(spec: Spec) {
    && spec.least < spec.most
    && (spec.direction.SaferHigher? ==> spec.least > 1)
    && (spec.direction.SaferLower? ==> !spec.integral && spec.least != 1)
  }

  /** A storable setting: on the precision grid and inside the table bounds. */
  predicate Storable(spec: Spec, x: real) {
    OnGrid(x, spec.Unit()) && spec.Min() <= x <= spec.Max()
  }

  lemma {:induction false} TableIsOrdered(path: string)
    requires path in TABLE
    ensures InTable(TABLE[path])
  {
  }

  lemma {:induction false} ClampIsStorable(spec: Spec, v: real)
    requires InTable(spec)
    ensures Storable(spec, Clamp(spec, v))
    ensures Storable(spec, v) ==> Clamp(spec, v) == v
  {
    var u := spec.Unit();
    GridMonotone(spec.least, spec.most, u);
    GridPoint(spec.least, u);
    GridPoint(spec.most, u);
    var x := Max(spec.Min(), Min(spec.Max(), v));
    RoundToNear(x, u);
    RoundToBetween(spec.Min(), x, spec.Max(), u);
    if Storable(spec, v) {
      RoundToFixesGrid(v, u);
    }
  }

  lemma {:induction false} StorableIsNonNegative(spec: Spec, x: real)
    requires Storable(spec, x)
    ensures x >= 0.0
  {
    GridMonotone(0, spec.least, spec.Unit());
  }

  /** x lies between a and b, in either order. */
  predicate Between(a: real, x: real, b: real) {
    a <= x <= b || b <= x <= a
  }

  /** The limited step ends strictly short of its target and moves exactly the
      allowed fraction. */
  lemma {:induction false} StepFallsShort(current: real, target: real)
    requires current > 0.0 && RelativeMove(current, target) > MAX_STEP
    ensures current >= 0.000000001 ==> Between(current, StepToward(current, target), target)
    ensures Abs(StepToward(current, target) - current) == MAX_STEP * current
  {
    var gap := Abs(target - current);
    var d := Max(0.000000001, current);
    DivCompare(gap, d, MAX_STEP);
    var sign := if target > current then 1.0 else -1.0;
    assert StepToward(current, target) == current + sign * (MAX_STEP * current);
  }

  lemma {:induction false} SmallMoveIsSmall(current: real, target: real)
    requires current >= 0.000000001 && RelativeMove(current, target) <= MAX_STEP
    ensures Abs(target - current) <= MAX_STEP * current
  {
    DivCompare(Abs(target - current), current, MAX_STEP);
  }

  lemma {:induction false} PositiveOnGrid(spec: Spec, x: real)
    requires OnGrid(x, spec.Unit()) && x > 0.0
    ensures x >= 0.0001
  {
    var n := Steps(x, spec.Unit()).Floor;
    assert x == GridAt(n, spec.Unit());
    if n <= 0 {
      GridMonotone(n, 0, spec.Unit());
      assert false;
    }
    GridMonotone(1, n, spec.Unit());
  }

  /** From a storable current value, a request that passed the first direction check
      ends in bounds and on the grid, between the current value and the clamped
      request, no riskier, and at most the step limit plus half a unit away: the
      check after the step limit can never fire. */
  lemma {:induction false} LimitedStepIsSafe(spec: Spec, current: real, requested: real)
    requires InTable(spec) && Storable(spec, current)
    requires !Riskier(spec, current, Clamp(spec, requested))
    ensures var value := Limited(spec, current, Clamp(spec, requested));
            && Storable(spec, value) && !Riskier(spec, current, value)
            && Between(current, value, Clamp(spec, requested))
            && Abs(value - current) <= MAX_STEP * current + 0.5 * spec.Unit()
  {
    var u, target := spec.Unit(), Clamp(spec, requested);
    ClampIsStorable(spec, requested);
    StorableIsNonNegative(spec, current);
    if current == 0.0 {
      // Only a safer-when-lower setting can sit at zero, and it cannot go lower.
      if spec.direction.SaferHigher? {
        GridMonotone(1, spec.least, u);
        assert false;
      }
      StorableIsNonNegative(spec, target);
    } else {
      PositiveOnGrid(spec, current);
      if RelativeMove(current, target) > MAX_STEP {
        var short := StepToward(current, target);
        StepFallsShort(current, target);
        ClampIsStorable(spec, short);
        RoundToNear(short, u);
        if current <= target {
          RoundToBetween(current, short, target, u);
        } else {
          RoundToBetween(target, short, current, u);
        }
      } else {
        SmallMoveIsSmall(current, target);
      }
    }
  }

  /** Clamping keeps what is in bounds to the nearest point of the grid, and takes what is
      outside to the bound it passed. */
  lemma {:induction false} ClampIsNearest(spec: Spec, v: real)
    requires InTable(spec)
    ensures v <= spec.Min() ==> Clamp(spec, v) == spec.Min()
    ensures v >= spec.Max() ==> Clamp(spec, v) == spec.Max()
    ensures spec.Min() <= v <= spec.Max() ==> Abs(Clamp(spec, v) - v) <= 0.5 * spec.Unit()
  {
    var u := spec.Unit();
    GridMonotone(spec.least, spec.most, u);
    GridPoint(spec.least, u);
    GridPoint(spec.most, u);
    RoundToFixesGrid(spec.Min(), u);
    RoundToFixesGrid(spec.Max(), u);
    RoundToNear(v, u);
  }

  /** The limiter holds back no more than it must: a request within the step limit is granted
      as clamped, and a longer one goes the whole allowed way toward it, to the nearest point
      of the grid. */
  lemma {:induction false} LimitedStepIsFull(spec: Spec, current: real, requested: real)
    requires InTable(spec) && Storable(spec, current) && current > 0.0
    ensures var target := Clamp(spec, requested);
            var value := Limited(spec, current, target);
            if Abs(target - current) <= 0.35 * current then value == target
            else GoesTheWholeWay(spec, current, value, target)
  {
    var target := Clamp(spec, requested);
    ClampIsStorable(spec, requested);
    PositiveOnGrid(spec, current);
    MoveInShares(current, target);
    if Abs(target - current) > 0.35 * current {
      LongStepIsFull(spec, current, target);
    }
  }

  /** The value is the whole step limit away from the current one, short of half a unit at
      most, and toward the target. */
  predicate GoesTheWholeWay(spec: Spec, current: real, value: real, target: real) {
    0.35 * current - 0.5 * spec.Unit() <= Abs(value - current) && Between(current, value, target)
  }

  lemma {:induction false} MoveInShares(current: real, target: real)
    requires current >= 0.0001
    ensures RelativeMove(current, target) <= 0.35 <==> Abs(target - current) <= 0.35 * current
  {
    DivCompare(Abs(target - current), current, 0.35);
  }

  lemma {:induction false} LongStepIsFull(spec: Spec, current: real, target: real)
    requires InTable(spec) && Storable(spec, current) && Storable(spec, target)
    requires current >= 0.0001 && RelativeMove(current, target) > MAX_STEP
    ensures GoesTheWholeWay(spec, current, Limited(spec, current, target), target)
  {
    var u, short := spec.Unit(), StepToward(current, target);
    StepFallsShort(current, target);
    ClampIsNearest(spec, short);
    RoundToNear(short, u);
    if current <= target {
      RoundToBetween(current, short, target, u);
    } else {
      RoundToBetween(target, short, current, u);
    }
  }

  /** What one accepted proposal guarantees about the setting it would replace. */
  ghost predicate AcceptedMove(path: string, before: real, after: real)
    requires path in TABLE
  {
    exists requested ::
      !Riskier(TABLE[path], before, Clamp(TABLE[path], requested))
      && after == Limited(TABLE[path], before, Clamp(TABLE[path], requested))
  }

  /** A chain of proposals, each made on the value the previous one left. */
  ghost predicate Chain(path: string, values: seq<real>)
    requires path in TABLE
  {
    forall k :: 0 <= k < |values| - 1 ==> AcceptedAt(path, values, k)
  }

  ghost predicate AcceptedAt(path: string, values: seq<real>, k: nat)
    requires path in TABLE && k + 1 < |values|
  {
    AcceptedMove(path, values[k], values[k + 1])
  }

  /** However many proposals are accepted in a row, the setting only ever moves toward
      less risk and never leaves the table. */
  lemma {:induction false} ChainsOnlyGetSafer(path: string, values: seq<real>, j: nat, k: nat)
    requires path in TABLE && Chain(path, values) && j <= k < |values|
    requires Storable(TABLE[path], values[0])
    ensures Storable(TABLE[path], values[j]) && Storable(TABLE[path], values[k])
    ensures !Riskier(TABLE[path], values[j], values[k])
    decreases k
  {
    if j < k {
      ChainsOnlyGetSafer(path, values, j, k - 1);
      MoveAt(path, values, k - 1);
      SaferStill(TABLE[path], values[j], values[k - 1], values[k]);
    } else if k > 0 {
      ChainsOnlyGetSafer(path, values, k - 1, k - 1);
      MoveAt(path, values, k - 1);
    }
  }

  lemma {:induction false} SaferStill(spec: Spec, a: real, b: real, c: real)
    requires !Riskier(spec, a, b) && !Riskier(spec, b, c)
    ensures !Riskier(spec, a, c)
  {
  }

  lemma {:induction false} MoveAt(path: string, values: seq<real>, k: nat)
    requires path in TABLE && Chain(path, values) && k + 1 < |values| && Storable(TABLE[path], values[k])
    ensures Storable(TABLE[path], values[k + 1]) && !Riskier(TABLE[path], values[k], values[k + 1])
  {
    assert AcceptedAt(path, values, k);
    MoveIsSafe(path, values[k], values[k + 1]);
  }

  lemma {:induction false} MoveIsSafe(path: string, current: real, next: real)
    requires path in TABLE && Storable(TABLE[path], current) && AcceptedMove(path, current, next)
    ensures Storable(TABLE[path], next) && !Riskier(TABLE[path], current, next)
  {
    var spec := TABLE[path];
    TableIsOrdered(path);
    var requested :| !Riskier(spec, current, Clamp(spec, requested))
      && next == Limited(spec, current, Clamp(spec, requested));
    LimitedStepIsSafe(spec, current, requested);
  }

  // ---------------------------------------------------------------------
  // The check after the step limit
  // ---------------------------------------------------------------------

  /** Rounding below one unit of the stored precision; an exact half goes to zero. */
  lemma {:induction false} RoundsBelowOneUnit(x: real)
    requires 0.0 <= x < 0.0001
    ensures RoundTo(x, 0.0001) == if x <= 0.00005 then 0.0 else 0.0001
  {
    GridPoint(0, 0.0001);
    GridPoint(1, 0.0001);
    StepsMonotone(0.0001, x, 0.0001);
    StepsMonotone(0.0, x, 0.0001);
    GridDistance(x, 0, 0.5, 0.0001);
  }

  /** Where safer is higher, the limited step never ends below the current value. */
  lemma {:induction false} StepUpStaysAbove(spec: Spec, current: real, requested: real)
    requires InTable(spec) && spec.direction.SaferHigher? && !Riskier(spec, current, Clamp(spec, requested))
    ensures !Riskier(spec, current, Limited(spec, current, Clamp(spec, requested)))
  {
    ClampIsStorable(spec, requested);
    if Clamp(spec, requested) > current {
      StepUpToward(spec, current, Clamp(spec, requested));
    }
  }

  lemma {:induction false} StepUpToward(spec: Spec, current: real, target: real)
    requires InTable(spec) && spec.direction.SaferHigher? && Storable(spec, target) && target > current
    ensures Limited(spec, current, target) >= current
  {
    assert StepToward(current, target) == 1.35 * current;
    ClampIsStorable(spec, 1.35 * current);
    if spec.Min() < current {
      LargeStepUp(spec, current);
    }
  }

  lemma {:induction false} LargeStepUp(spec: Spec, current: real)
    requires InTable(spec) && spec.direction.SaferHigher? && spec.Min() < current <= spec.Max()
    ensures Clamp(spec, 1.35 * current) >= current
  {
    var u, short := spec.Unit(), 1.35 * current;
    GridMonotone(2, spec.least, u);
    GridPoint(spec.most, u);
    if short < spec.Max() {
      assert Clamp(spec, short) == RoundTo(short, u);
      RoundToNear(short, u);
    }
  }

  /** Where safer is lower, the limited step ends above the current value exactly from
      within the last unit above zero. */
  lemma {:induction false} StepDownRisesIff(spec: Spec, current: real, requested: real)
    requires InTable(spec) && spec.direction.SaferLower? && !Riskier(spec, current, Clamp(spec, requested))
    ensures Riskier(spec, current, Limited(spec, current, Clamp(spec, requested)))
            <==> Clamp(spec, requested) == 0.0 && 0.00005 < 0.65 * current && current < 0.0001
  {
    var target := Clamp(spec, requested);
    var short := StepToward(current, target);
    ClampIsStorable(spec, requested);
    ClampIsStorable(spec, short);
    StorableIsNonNegative(spec, target);
    if target < current {
      assert short == 0.65 * current;
      if current < 0.0001 {
        TargetIsZero(spec, target);
        SmallStepDown(spec, current);
      } else {
        LargeStepDown(spec, current);
      }
    }
  }

  lemma {:induction false} TargetIsZero(spec: Spec, target: real)
    requires InTable(spec) && spec.direction.SaferLower? && Storable(spec, target) && target < 0.0001
    ensures target == 0.0 && spec.least == 0
  {
    StorableIsNonNegative(spec, target);
    if target > 0.0 {
      PositiveOnGrid(spec, target);
    }
    if spec.least >= 2 {
      GridMonotone(2, spec.least, 0.0001);
    }
  }

  lemma {:induction false} SmallStepDown(spec: Spec, current: real)
    requires InTable(spec) && spec.direction.SaferLower? && spec.least == 0 && spec.most >= 1
    requires 0.0 < current < 0.0001
    ensures Limited(spec, current, 0.0) > current <==> 0.00005 < 0.65 * current
  {
    var short := 0.65 * current;
    GridMonotone(1, spec.most, 0.0001);
    assert Clamp(spec, short) == RoundTo(short, 0.0001);
    RoundsBelowOneUnit(short);
    if 0.00005 < short {
      WholeMove(current);
    }
  }

  lemma {:induction false} WholeMove(current: real)
    requires current >= 0.000000001
    ensures RelativeMove(current, 0.0) == 1.0 && StepToward(current, 0.0) == 0.65 * current
  {
    DivCompare(current, current, 1.0);
  }

  lemma {:induction false} LargeStepDown(spec: Spec, current: real)
    requires InTable(spec) && spec.direction.SaferLower? && spec.Min() <= current && current >= 0.0001
    ensures Clamp(spec, 0.65 * current) <= current
  {
    var short := 0.65 * current;
    GridPoint(spec.least, 0.0001);
    GridPoint(1, 0.0001);
    GridMonotone(spec.least, spec.most, 0.0001);
    ClampIsStorable(spec, short);
    var x := Max(spec.Min(), Min(spec.Max(), short));
    if short > spec.Min() {
      assert x <= short;
      if short <= 0.0001 {
        RoundToMonotone(x, 0.0001, 0.0001);
      } else {
        RoundToMonotone(x, short, 0.0001);
        RoundToNear(short, 0.0001);
      }
    }
  }

  /** The check after the step limit, exactly: once a request has passed the check before
      it, the limited step turns toward more risk if and only if the setting is safer when
      lower, sits strictly between 10/13 of a unit and one unit of the stored precision,
      and is asked to go to zero. */
  lemma {:induction false} StepTurnsRiskyIff(path: string, current: real, requested: real)
    requires path in TABLE && !Riskier(TABLE[path], current, Clamp(TABLE[path], requested))
    ensures Riskier(TABLE[path], current, Limited(TABLE[path], current, Clamp(TABLE[path], requested)))
            <==> TABLE[path].direction.SaferLower? && Clamp(TABLE[path], requested) == 0.0
                 && 0.00005 < 0.65 * current && current < 0.0001
  {
    TableIsOrdered(path);
    if TABLE[path].direction.SaferLower? {
      StepDownRisesIff(TABLE[path], current, requested);
    } else {
      StepUpStaysAbove(TABLE[path], current, requested);
    }
  }

  /** A value it does fire on: 0.00008 asked to go to zero is limited to 0.000052, which is
      stored as 0.0001. */
  lemma {:induction false} OffGridStepCanTurnRisky()
    ensures var spec := TABLE["risk.breakeven_trigger_r"];
            !Riskier(spec, 0.00008, Clamp(spec, 0.0))
            && Riskier(spec, 0.00008, Limited(spec, 0.00008, Clamp(spec, 0.0)))
  {
    var path := "risk.breakeven_trigger_r";
    GridPoint(0, 0.0001);
    GridMonotone(0, 30000, 0.0001);
    TableIsOrdered(path);
    ClampIsStorable(TABLE[path], 0.0);
    StepTurnsRiskyIff(path, 0.00008, 0.0);
  }

  // ---------------------------------------------------------------------
  // Deriving proposals from findings
  // ---------------------------------------------------------------------

  /** The five patterns that name a setting. */
  datatype Rule = PartialTake | Breakeven | TightTrail | EntrySlippage | NewsAdjacent

  function PatternOf(rule: Rule): string {
    match rule
    case PartialTake => "counterfactual:partial_at_1R"
    case Breakeven => "counterfactual:breakeven_at_1R"
    case TightTrail => "counterfactual:trail_tighter"
    case EntrySlippage => "tag:entry_slippage"
    case NewsAdjacent => "tag:news_adjacent"
  }

  function PathOf(rule: Rule): string {
    match rule
    case PartialTake => "risk.partial_take_r"
    case Breakeven => "risk.breakeven_trigger_r"
    case TightTrail => "risk.trail_atr_multiple"
    case EntrySlippage => "risk.max_spread_pips_multiple"
    case NewsAdjacent => "risk.block_minutes_before_high_impact"
  }

  function DefaultOf(rule: Rule): real {
    match rule
    case PartialTake => 1.5
    case Breakeven => 1.0
    case TightTrail => 2.5
    case EntrySlippage => 2.5
    case NewsAdjacent => 30.0
  }

  /** A counterfactual must gain more than the least effect; a tag's trades must lose more. */
  predicate LargeEnough(rule: Rule, meanDeltaR: real, minEffect: real) {
    if rule.EntrySlippage? || rule.NewsAdjacent? then meanDeltaR < -minEffect else meanDeltaR > minEffect
  }

  function Wanted(rule: Rule, current: real): real {
    match rule
    case PartialTake => Max(1.0, current * 0.75)
    case Breakeven => Max(0.5, current * 0.8)
    case TightTrail => Max(1.0, current * 0.8)
    case EntrySlippage => Max(1.2, current * 0.8)
    case NewsAdjacent => Min(240.0, current * 1.3)
  }

  /** The rule a finding matches, if its effect is large enough for it. */
  function RuleOf(f: Finding, minEffect: real): (rule: Option<Rule>)
    ensures rule.Some? ==> f.pattern == PatternOf(rule.value) && LargeEnough(rule.value, f.meanDeltaR, minEffect)
  {
    if f.pattern == "counterfactual:partial_at_1R" && f.meanDeltaR > minEffect then Some(PartialTake)
    else if f.pattern == "counterfactual:breakeven_at_1R" && f.meanDeltaR > minEffect then Some(Breakeven)
    else if f.pattern == "counterfactual:trail_tighter" && f.meanDeltaR > minEffect then Some(TightTrail)
    else if f.pattern == "tag:entry_slippage" && f.meanDeltaR < -minEffect then Some(EntrySlippage)
    else if f.pattern == "tag:news_adjacent" && f.meanDeltaR < -minEffect then Some(NewsAdjacent)
    else None
  }

  /** The setting, its value in force, and the value a supported finding asks for. */
  function Request(f: Finding, config: map<string, real>, minEffect: real): Option<(string, real, real)> {
    var rule := RuleOf(f, minEffect);
    if rule.Some? then Some(RequestFor(rule.value, config)) else None
  }

  function RequestFor(rule: Rule, config: map<string, real>): (string, real, real) {
    var current := if PathOf(rule) in config then config[PathOf(rule)] else DefaultOf(rule);
    (PathOf(rule), current, Wanted(rule, current))
  }

  function AskOf(request: (string, real, real)): Ask {
    Ask(request.0, Some(request.1), request.2)
  }

  /** The proposal a finding leads to: one if it is supported, asks for something and no
      gate objects. */
  ghost function DerivedFrom(f: Finding, config: map<string, real>, minSample: int, alpha: real,
                             minEffect: real, accepts: Validation): seq<Result>
  {
    var request := Request(f, config, minEffect);
    if Evidenced(f, minSample, alpha) && request.Some?
    then Granted(AskOf(request.value), f, minSample, alpha, accepts) else []
  }

  ghost function Granted(ask: Ask, f: Finding, minSample: int, alpha: real, accepts: Validation): seq<Result> {
    if Clear(ask, f, minSample, alpha, accepts)
    then
      assert !Objects(NotProposable, ask, f, minSample, alpha, accepts);
      [Proposed(ask.path, ask.current, StoredValue(ask))]
    else []
  }

  /** Exactly the proposals of the findings, in their order. */
  ghost function Derived(findings: seq<Finding>, config: map<string, real>, minSample: int, alpha: real,
                         minEffect: real, accepts: Validation): seq<Result>
  {
    if findings == [] then []
    else Derived(findings[..|findings| - 1], config, minSample, alpha, minEffect, accepts)
         + DerivedFrom(findings[|findings| - 1], config, minSample, alpha, minEffect, accepts)
  }

  method DeriveProposals(findings: seq<Finding>, config: map<string, real>, minSample: int,
                         alpha: real, minEffect: real, accepts: Validation)
    returns (out: seq<Result>)
    ensures out == Derived(findings, config, minSample, alpha, minEffect, accepts)
  {
    out := [];
    for i := 0 to |findings|
      invariant out == Derived(findings[..i], config, minSample, alpha, minEffect, accepts)
    {
      assert findings[..i + 1][..i] == findings[..i];
      var next := DeriveOne(findings[i], config, minSample, alpha, minEffect, accepts);
      out := out + next;
    }
    assert findings[..|findings|] == findings;
  }

  method DeriveOne(f: Finding, config: map<string, real>, minSample: int, alpha: real, minEffect: real,
                   accepts: Validation)
    returns (out: seq<Result>)
    ensures out == DerivedFrom(f, config, minSample, alpha, minEffect, accepts)
  {
    if !Evidenced(f, minSample, alpha) {
      return [];
    }
    var request := Request(f, config, minEffect);
    if request.None? {
      return [];
    }
    out := Grant(AskOf(request.value), f, minSample, alpha, accepts);
  }

  method Grant(ask: Ask, f: Finding, minSample: int, alpha: real, accepts: Validation)
    returns (out: seq<Result>)
    ensures out == Granted(ask, f, minSample, alpha, accepts)
  {
    var r := Propose(ask, f, minSample, alpha, accepts);
    out := if r.Proposed? then [r] else [];
  }

  /** An emitted proposal: storable, off the frozen list, no riskier than the value in
      force, and backed by a supported finding of the pass. */
  ghost predicate SoundProposal(r: Result, findings: seq<Finding>, config: map<string, real>,
                                minEffect: real, minSample: int, alpha: real)
  {
    && r.Proposed? && r.path in TABLE && r.path !in FROZEN
    && Storable(TABLE[r.path], r.value)
    && r.current.Some? && !Riskier(TABLE[r.path], r.current.value, r.value)
    && exists f :: f in findings && Evidenced(f, minSample, alpha) && AsksFor(f, config, minEffect, r)
                   && Corrected(f, minSample, alpha)
  }

  /** Enough trades; significant after the correction of its family where there is one, by its
      own p-value where there is none; and not put down to anything but the parameter. */
  predicate Corrected(f: Finding, minSample: int, alpha: real) {
    && f.n >= minSample
    && (if f.testsInFamily == 0 then f.pValue < alpha else f.significant && f.pAdjusted < alpha)
    && f.diagnosis != Luck && f.diagnosis != Regime && f.diagnosis != Insufficient && f.diagnosis != Descriptive
  }

  predicate AsksFor(f: Finding, config: map<string, real>, minEffect: real, r: Result)
    requires r.Proposed?
  {
    var request := Request(f, config, minEffect);
    request.Some? && request.value.0 == r.path && Some(request.value.1) == r.current
  }

  /** Whatever the findings say and whatever the configuration holds, every derived
      proposal is sound. */
  lemma {:induction false} DerivedAreSound(findings: seq<Finding>, config: map<string, real>, minSample: int,
                                           alpha: real, minEffect: real, accepts: Validation, r: Result)
    requires r in Derived(findings, config, minSample, alpha, minEffect, accepts)
    ensures SoundProposal(r, findings, config, minEffect, minSample, alpha)
    decreases |findings|
  {
    var init, f := findings[..|findings| - 1], findings[|findings| - 1];
    if r in Derived(init, config, minSample, alpha, minEffect, accepts) {
      DerivedAreSound(init, config, minSample, alpha, minEffect, accepts, r);
      var g :| g in init && Evidenced(g, minSample, alpha) && AsksFor(g, config, minEffect, r);
      assert g in findings;
    } else {
      OneDerivedIsSound(f, config, minSample, alpha, minEffect, accepts, r);
      assert f in findings;
    }
  }

  lemma {:induction false} OneDerivedIsSound(f: Finding, config: map<string, real>, minSample: int,
                                             alpha: real, minEffect: real, accepts: Validation, r: Result)
    requires r in DerivedFrom(f, config, minSample, alpha, minEffect, accepts)
    ensures r.Proposed? && r.path in TABLE && r.path !in FROZEN && r.current.Some?
    ensures Storable(TABLE[r.path], r.value) && !Riskier(TABLE[r.path], r.current.value, r.value)
    ensures Evidenced(f, minSample, alpha) && AsksFor(f, config, minEffect, r)
  {
    GrantedIsSound(AskOf(Request(f, config, minEffect).value), f, minSample, alpha, accepts, r);
  }

  lemma {:induction false} GrantedIsSound(ask: Ask, f: Finding, minSample: int, alpha: real,
                                          accepts: Validation, r: Result)
    requires ask.current.Some? && r in Granted(ask, f, minSample, alpha, accepts)
    ensures r.Proposed? && r.path == ask.path && r.current == ask.current
    ensures r.path in TABLE && r.path !in FROZEN
    ensures Storable(TABLE[r.path], r.value) && !Riskier(TABLE[r.path], r.current.value, r.value)
  {
    assert !Objects(Frozen, ask, f, minSample, alpha, accepts);
    assert !Objects(NotProposable, ask, f, minSample, alpha, accepts);
    assert !Objects(MoreRiskAfterStep, ask, f, minSample, alpha, accepts);
    TableIsOrdered(ask.path);
    ProposedIsStorable(TABLE[ask.path], ask.current.value, ask.requested);
  }

  /** The loop can never reach the refusal after the step limit: what it asks for where
      safer is lower is at least one half. */
  lemma {:induction false} DerivedStepsNeverTurn(f: Finding, config: map<string, real>, minEffect: real,
                                                 minSample: int, alpha: real, accepts: Validation)
    requires Request(f, config, minEffect).Some?
    requires !Objects(MoreRisk, AskOf(Request(f, config, minEffect).value), f, minSample, alpha, accepts)
    ensures !Objects(MoreRiskAfterStep, AskOf(Request(f, config, minEffect).value), f, minSample, alpha, accepts)
  {
    var rule := RuleOf(f, minEffect).value;
    RulePath(rule);
    WantedNeverTurns(rule, RequestFor(rule, config).1);
  }

  lemma {:induction false} WantedNeverTurns(rule: Rule, current: real)
    requires PathOf(rule) in TABLE
    requires TABLE[PathOf(rule)].direction.SaferHigher? <==> rule.NewsAdjacent?
    ensures var spec, clamped := TABLE[PathOf(rule)], Clamp(TABLE[PathOf(rule)], Wanted(rule, current));
            !Riskier(spec, current, clamped) ==> !Riskier(spec, current, Limited(spec, current, clamped))
  {
    var path := PathOf(rule);
    if !Riskier(TABLE[path], current, Clamp(TABLE[path], Wanted(rule, current))) {
      StepTurnsRiskyIff(path, current, Wanted(rule, current));
      if TABLE[path].direction.SaferLower? {
        ClampIsPositive(path, Wanted(rule, current));
      }
    }
  }

  lemma {:induction false} RulePath(rule: Rule)
    ensures PathOf(rule) in TABLE && PathOf(rule) !in FROZEN
    ensures TABLE[PathOf(rule)].direction.SaferHigher? <==> rule.NewsAdjacent?
  {
    match rule
    case PartialTake => PartialTakePath();
    case Breakeven => BreakevenPath();
    case TightTrail => TightTrailPath();
    case EntrySlippage => EntrySlippagePath();
    case NewsAdjacent => NewsAdjacentPath();
  }

  lemma {:induction false} PartialTakePath()
    ensures PathOf(PartialTake) in TABLE && PathOf(PartialTake) !in FROZEN
    ensures TABLE[PathOf(PartialTake)].direction.SaferLower?
  {
  }

  lemma {:induction false} BreakevenPath()
    ensures PathOf(Breakeven) in TABLE && PathOf(Breakeven) !in FROZEN
    ensures TABLE[PathOf(Breakeven)].direction.SaferLower?
  {
  }

  lemma {:induction false} TightTrailPath()
    ensures PathOf(TightTrail) in TABLE && PathOf(TightTrail) !in FROZEN
    ensures TABLE[PathOf(TightTrail)].direction.SaferLower?
  {
  }

  lemma {:induction false} EntrySlippagePath()
    ensures PathOf(EntrySlippage) in TABLE && PathOf(EntrySlippage) !in FROZEN
    ensures TABLE[PathOf(EntrySlippage)].direction.SaferLower?
  {
  }

  lemma {:induction false} NewsAdjacentPath()
    ensures PathOf(NewsAdjacent) in TABLE && PathOf(NewsAdjacent) !in FROZEN
    ensures TABLE[PathOf(NewsAdjacent)].direction.SaferHigher?
  {
  }

  lemma {:induction false} ClampIsPositive(path: string, requested: real)
    requires path in TABLE && TABLE[path].direction.SaferLower? && requested >= 0.5
    ensures Clamp(TABLE[path], requested) > 0.0
  {
    var spec := TABLE[path];
    TableIsOrdered(path);
    GridPoint(5000, 0.0001);
    RoundToMonotone(0.5, Max(spec.Min(), Min(spec.Max(), requested)), 0.0001);
  }

  /** No pattern is dead: on the default configuration a supported finding of each of the
      five, with a large enough effect in its own direction, leads to a proposal of exactly
      the value it asks for. */
  lemma {:induction false} EveryPatternCanFire(rule: Rule, f: Finding, minSample: int, alpha: real,
                                               minEffect: real, accepts: Validation)
    requires Evidenced(f, minSample, alpha)
    requires f.pattern == PatternOf(rule) && LargeEnough(rule, f.meanDeltaR, minEffect)
    requires accepts(PathOf(rule), Wanted(rule, DefaultOf(rule)))
    ensures DerivedFrom(f, map[], minSample, alpha, minEffect, accepts)
            == [Proposed(PathOf(rule), Some(DefaultOf(rule)), Wanted(rule, DefaultOf(rule)))]
    ensures Wanted(rule, DefaultOf(rule))
            == match rule
               case PartialTake => 1.125
               case Breakeven => 0.8
               case TightTrail => 2.0
               case EntrySlippage => 2.0
               case NewsAdjacent => 39.0
  {
    PatternDecidesRule(f, rule, minEffect);
    RulePath(rule);
    DefaultIsStorable(rule);
    var spec := TABLE[PathOf(rule)];
    SmallSaferStepIsStored(spec, DefaultOf(rule), Wanted(rule, DefaultOf(rule)));
    ClearWhenStored(AskOf(RequestFor(rule, map[])), f, minSample, alpha, accepts);
  }

  lemma {:induction false} PatternDecidesRule(f: Finding, rule: Rule, minEffect: real)
    requires f.pattern == PatternOf(rule) && LargeEnough(rule, f.meanDeltaR, minEffect)
    ensures RuleOf(f, minEffect) == Some(rule)
  {
    assert "counterfactual:partial_at_1R"[15] != "counterfactual:breakeven_at_1R"[15];
    assert "counterfactual:partial_at_1R"[15] != "counterfactual:trail_tighter"[15];
    assert "counterfactual:breakeven_at_1R"[15] != "counterfactual:trail_tighter"[15];
    assert "tag:entry_slippage"[4] != "tag:news_adjacent"[4];
    assert "tag:entry_slippage"[0] == "tag:news_adjacent"[0] == 't';
  }

  lemma {:induction false} ClearWhenStored(ask: Ask, f: Finding, minSample: int, alpha: real, accepts: Validation)
    requires Evidenced(f, minSample, alpha) && ask.path in TABLE && ask.path !in FROZEN && ask.current.Some?
    requires Clamp(TABLE[ask.path], ask.requested) == StoredValue(ask) == ask.requested
    requires !Riskier(TABLE[ask.path], ask.current.value, ask.requested) && accepts(ask.path, ask.requested)
    ensures Clear(ask, f, minSample, alpha, accepts)
  {
  }

  lemma {:induction false} SmallSaferStepIsStored(spec: Spec, current: real, requested: real)
    requires InTable(spec) && Storable(spec, requested) && !Riskier(spec, current, requested)
    requires current > 0.000000001 && Abs(requested - current) <= MAX_STEP * current
    ensures Clamp(spec, requested) == Limited(spec, current, Clamp(spec, requested)) == requested
  {
    ClampIsStorable(spec, requested);
    SmallMoveIsKept(spec, current, requested);
  }

  lemma {:induction false} SmallMoveIsKept(spec: Spec, current: real, target: real)
    requires current > 0.000000001 && Abs(target - current) <= MAX_STEP * current
    ensures Limited(spec, current, target) == target
  {
    DivCompare(Abs(target - current), current, MAX_STEP);
  }

  lemma {:induction false} DefaultIsStorable(rule: Rule)
    ensures PathOf(rule) in TABLE
    ensures var spec, current := TABLE[PathOf(rule)], DefaultOf(rule);
            && InTable(spec) && Storable(spec, Wanted(rule, current))
            && !Riskier(spec, current, Wanted(rule, current))
            && current > 0.000000001 && Abs(Wanted(rule, current) - current) <= MAX_STEP * current
  {
    var spec := TABLE[PathOf(rule)];
    TableIsOrdered(PathOf(rule));
    match rule
    case PartialTake => TablePoint(spec, 11250);
    case Breakeven => TablePoint(spec, 8000);
    case TightTrail => TablePoint(spec, 20000);
    case EntrySlippage => TablePoint(spec, 20000);
    case NewsAdjacent => TablePoint(spec, 39);
  }

  lemma {:induction false} TablePoint(spec: Spec, n: int)
    requires spec.least <= n <= spec.most
    ensures Storable(spec, GridAt(n, spec.Unit()))
  {
    GridPoint(n, spec.Unit());
    GridMonotone(spec.least, n, spec.Unit());
    GridMonotone(n, spec.most, spec.Unit());
  }

  lemma {:induction false} ProposedIsStorable(spec: Spec, current: real, requested: real)
    requires InTable(spec)
    ensures Storable(spec, Limited(spec, current, Clamp(spec, requested)))
  {
    ClampIsStorable(spec, requested);
    ClampIsStorable(spec, StepToward(current, Clamp(spec, requested)));
  }
}
