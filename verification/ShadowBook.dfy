/** The shadow book's triple-barrier resolver: what a signal would have done on
    the bars that followed it, with the stop assumed first whenever one bar
    holds both barriers. */
module ShadowBook {
  import opened Common

  datatype Bar = Bar(open: real, high: real, low: real, close: real)

  datatype Ticket = Ticket(side: Side, entry: real, stop: real, target: Option<real>,
                           horizon: int, costR: real)

  datatype ExitKind = Invalid | Gap | Stop | Target | Horizon | StillOpen

  datatype Exit = Exit(kind: ExitKind, price: real)

  datatype Outcome = Outcome(resolved: bool, r: Option<real>, kind: ExitKind, used: nat)

  /** The stop sits strictly on the losing side of the entry. */
  predicate Tradable(t: Ticket) {
    if t.side.Buy? then t.stop < t.entry else t.stop > t.entry
  }

  function RAt(t: Ticket, price: real): real
    requires Tradable(t)
  {
    var risk := Abs(t.entry - t.stop);
    (if t.side.Buy? then (price - t.entry) / risk else (t.entry - price) / risk) - t.costR
  }

  /** A Python slice `bars[:n]`: a negative n drops bars from the end. */
  function FirstBars(bars: seq<Bar>, n: int): seq<Bar> {
    if n >= |bars| then bars
    else if n >= 0 then bars[..n]
    else if |bars| + n <= 0 then []
    else bars[..|bars| + n]
  }

  /** The adverse-first reading of one bar: gap, then stop, then target. */
  function BarExit(t: Ticket, bar: Bar): Option<Exit> {
    if t.side.Buy? then
      if bar.open <= t.stop then Some(Exit(Gap, bar.open))
      else if bar.low <= t.stop then Some(Exit(Stop, t.stop))
      else if t.target.Some? && bar.high >= t.target.value then
        Some(Exit(Target, if bar.open >= t.target.value then Max(t.target.value, bar.open)
                          else t.target.value))
      else None
    else
      if bar.open >= t.stop then Some(Exit(Gap, bar.open))
      else if bar.high >= t.stop then Some(Exit(Stop, t.stop))
      else if t.target.Some? && bar.low <= t.target.value then
        Some(Exit(Target, if bar.open <= t.target.value then Min(t.target.value, bar.open)
                          else t.target.value))
      else None
  }

  function Settle(t: Ticket, exit: Exit, used: nat): Outcome
    requires Tradable(t)
  {
    Outcome(true, Some(RAt(t, exit.price)), exit.kind, used)
  }

  /** What happens on the bars still ahead once `used` of them have passed. */
  function Walk(t: Ticket, ahead: seq<Bar>, used: nat): (out: Outcome)
    requires Tradable(t)
    ensures used <= out.used <= used + |ahead|
    ensures out.resolved ==> out.used > used && out.r.Some?
    decreases |ahead|
  {
    if ahead == [] then Outcome(false, None, StillOpen, used)
    else
      match BarExit(t, ahead[0])
      case Some(exit) => Settle(t, exit, used + 1)
      case None =>
        if used + 1 >= t.horizon then Settle(t, Exit(Horizon, ahead[0].close), used + 1)
        else Walk(t, ahead[1..], used + 1)
  }

  function Resolution(t: Ticket, bars: seq<Bar>): Outcome {
    if Tradable(t) then Walk(t, FirstBars(bars, t.horizon), 0)
    else Outcome(true, None, Invalid, 0)
  }

  method ResolvePath(t: Ticket, bars: seq<Bar>) returns (out: Outcome)
    ensures out == Resolution(t, bars)
  {
    var risk := Abs(t.entry - t.stop);
    if risk <= 0.0 {
      return Outcome(true, None, Invalid, 0);
    }
    var buy := t.side.Buy?;
    if (buy && t.stop >= t.entry) || (!buy && t.stop <= t.entry) {
      return Outcome(true, None, Invalid, 0);
    }
    var window := FirstBars(bars, t.horizon);
    var used := 0;
    while used < |window|
      invariant used <= |window|
      invariant Walk(t, window, 0) == Walk(t, window[used..], used)
    {
      var bar := window[used];
      assert window[used..][0] == bar && window[used..][1..] == window[used + 1..];
      used := used + 1;
      if buy {
        if bar.open <= t.stop {
          return Outcome(true, Some((bar.open - t.entry) / risk - t.costR), Gap, used);
        }
        if bar.low <= t.stop {
          return Outcome(true, Some((t.stop - t.entry) / risk - t.costR), Stop, used);
        }
        if t.target.Some? && bar.high >= t.target.value {
          var fill := if bar.open >= t.target.value then Max(t.target.value, bar.open)
                      else t.target.value;
          return Outcome(true, Some((fill - t.entry) / risk - t.costR), Target, used);
        }
      } else {
        if bar.open >= t.stop {
          return Outcome(true, Some((t.entry - bar.open) / risk - t.costR), Gap, used);
        }
        if bar.high >= t.stop {
          return Outcome(true, Some((t.entry - t.stop) / risk - t.costR), Stop, used);
        }
        if t.target.Some? && bar.low <= t.target.value {
          var fill := if bar.open <= t.target.value then Min(t.target.value, bar.open)
                      else t.target.value;
          return Outcome(true, Some((t.entry - fill) / risk - t.costR), Target, used);
        }
      }
      if used >= t.horizon {
        var r := if buy then (bar.close - t.entry) / risk else (t.entry - bar.close) / risk;
        return Outcome(true, Some(r - t.costR), Horizon, used);
      }
    }
    return Outcome(false, None, StillOpen, used);
  }

  // ---------------------------------------------------------------------
  // When a ticket is over and what it earns
  // ---------------------------------------------------------------------

  /** The bar trades at or through a barrier. */
  predicate Reaches(t: Ticket, bar: Bar) {
    if t.side.Buy? then
      bar.open <= t.stop || bar.low <= t.stop || (t.target.Some? && bar.high >= t.target.value)
    else
      bar.open >= t.stop || bar.high >= t.stop || (t.target.Some? && bar.low <= t.target.value)
  }

  /** The n-th bar is the last the ticket sees. */
  predicate Ends(t: Ticket, bar: Bar, n: int) {
    Reaches(t, bar) || n >= t.horizon
  }

  predicate NoneEnds(t: Ticket, bars: seq<Bar>, used: nat) {
    forall i :: 0 <= i < |bars| ==> !Ends(t, bars[i], used + i + 1)
  }

  lemma {:induction false} WalkEnds(t: Ticket, ahead: seq<Bar>, used: nat)
    requires Tradable(t)
    ensures var out, n := Walk(t, ahead, used), Walk(t, ahead, used).used - used;
            if out.resolved
            then NoneEnds(t, ahead[..n - 1], used) && Ends(t, ahead[n - 1], out.used)
                 && (out.kind.Horizon? <==> !Reaches(t, ahead[n - 1]))
            else n == |ahead| && NoneEnds(t, ahead, used)
    decreases |ahead|
  {
    if ahead != [] && BarExit(t, ahead[0]).None? && used + 1 < t.horizon {
      WalkEnds(t, ahead[1..], used + 1);
      var out := Walk(t, ahead, used);
      var last := if out.resolved then out.used - used - 1 else |ahead|;
      assert !Ends(t, ahead[0], used + 1);
      forall i | 0 <= i < last ensures !Ends(t, ahead[i], used + i + 1) {
        if i > 0 {
          assert ahead[1..][..last - 1][i - 1] == ahead[i];
        }
      }
    }
  }

  /** A ticket ends on the first bar that trades at a barrier or fills its horizon, and stays
      open while there is none; only a bar that trades at no barrier ends it by its horizon. */
  lemma {:induction false} EndsOnTheFirstBarThatMay(t: Ticket, bars: seq<Bar>)
    requires Tradable(t) && t.horizon > 0
    ensures var out := Resolution(t, bars);
            && out.used <= |bars| && out.used <= t.horizon
            && (if out.resolved
                then out.used > 0 && NoneEnds(t, bars[..out.used - 1], 0)
                     && Ends(t, bars[out.used - 1], out.used)
                     && (out.kind.Horizon? <==> !Reaches(t, bars[out.used - 1]))
                else out.used == |bars| < t.horizon && NoneEnds(t, bars, 0))
  {
    var window, n := FirstBars(bars, t.horizon), Resolution(t, bars).used;
    WalkEnds(t, window, 0);
    if n > 0 {
      assert window[..n - 1] == bars[..n - 1];
    }
    if !Resolution(t, bars).resolved && |bars| >= t.horizon {
      assert Ends(t, window[|window| - 1], |window|);
    }
  }

  /** A horizon of zero or less, which no caller should ask for, ends a ticket on its first bar
      if the horizon leaves it any, and never otherwise. */
  lemma {:induction false} NoHorizonEndsAtOnce(t: Ticket, bars: seq<Bar>)
    requires Tradable(t) && t.horizon <= 0
    ensures var out := Resolution(t, bars);
            if t.horizon < 0 && |bars| > -t.horizon then out.resolved && out.used == 1 && Ends(t, bars[0], 1)
            else out == Outcome(false, None, StillOpen, 0)
  {
    WalkEnds(t, FirstBars(bars, t.horizon), 0);
  }

  /** How far a price is on the winning side of the entry. */
  function Gained(t: Ticket, price: real): real {
    if t.side.Buy? then price - t.entry else t.entry - price
  }

  predicate TargetIsAhead(t: Ticket) {
    t.target.Some? && Gained(t, t.target.value) > 0.0
  }

  /** The outcome earns this distance in units of what was risked, less the cost. */
  predicate EarnsDistance(t: Ticket, out: Outcome, distance: real) {
    out.r.Some? && (out.r.value + t.costR) * Abs(t.entry - t.stop) == distance
  }

  /** What the ticket earns on the bar that ends it. */
  predicate Earns(t: Ticket, out: Outcome, bar: Bar) {
    match out.kind
    case Stop => out.r == Some(-1.0 - t.costR)
    case Gap => EarnsDistance(t, out, Gained(t, bar.open)) && Gained(t, bar.open) <= -Abs(t.entry - t.stop)
    case Horizon => EarnsDistance(t, out, Gained(t, bar.close))
    case Target =>
      && t.target.Some?
      && EarnsDistance(t, out, Max(Gained(t, bar.open), Gained(t, t.target.value)))
    case _ => false
  }

  /** A stop-out earns exactly minus one less the cost; a target earns the distance to it, or
      to a better open, in units of the risk, less the cost; a gap or the horizon earns the
      signed distance of that bar's open or close. */
  lemma {:induction false} WalkEarns(t: Ticket, ahead: seq<Bar>, used: nat)
    requires Tradable(t) && Walk(t, ahead, used).resolved
    ensures Earns(t, Walk(t, ahead, used), ahead[Walk(t, ahead, used).used - used - 1])
    decreases |ahead|
  {
    if BarExit(t, ahead[0]).Some? {
      ExitEarns(t, ahead[0], used + 1);
    } else if used + 1 >= t.horizon {
      SettledEarns(t, Exit(Horizon, ahead[0].close), used + 1);
    } else {
      WalkEarns(t, ahead[1..], used + 1);
    }
  }

  lemma {:induction false} SettledEarns(t: Ticket, exit: Exit, used: nat)
    requires Tradable(t)
    ensures EarnsDistance(t, Settle(t, exit, used), Gained(t, exit.price))
  {
    var risk, gain := Abs(t.entry - t.stop), Gained(t, exit.price);
    assert (gain / risk) * risk == gain;
  }

  lemma {:induction false} StopEarns(t: Ticket, out: Outcome)
    requires Tradable(t) && EarnsDistance(t, out, -Abs(t.entry - t.stop))
    ensures out.r == Some(-1.0 - t.costR)
  {
    assert (out.r.value + t.costR + 1.0) * Abs(t.entry - t.stop) == 0.0;
  }

  /** The price of an exit, as a distance from the entry. */
  lemma {:induction false} ExitDistance(t: Ticket, bar: Bar)
    requires Tradable(t) && BarExit(t, bar).Some?
    ensures var exit, risk := BarExit(t, bar).value, Abs(t.entry - t.stop);
            match exit.kind
            case Stop => Gained(t, exit.price) == -risk
            case Gap => Gained(t, exit.price) == Gained(t, bar.open) <= -risk
            case Target => t.target.Some?
                           && Gained(t, exit.price) == Max(Gained(t, bar.open), Gained(t, t.target.value))
            case _ => false
  {
  }

  lemma {:induction false} ExitEarns(t: Ticket, bar: Bar, used: nat)
    requires Tradable(t) && BarExit(t, bar).Some?
    ensures Earns(t, Settle(t, BarExit(t, bar).value, used), bar)
  {
    var exit := BarExit(t, bar).value;
    ExitDistance(t, bar);
    SettledEarns(t, exit, used);
    if exit.kind.Stop? {
      StopEarns(t, Settle(t, exit, used));
    }
  }

  /** A target ahead of the entry that the bar does not open past earns its own distance. */
  lemma {:induction false} TargetEarns(t: Ticket, out: Outcome, bar: Bar)
    requires Tradable(t) && Earns(t, out, bar) && out.kind.Target?
    requires TargetIsAhead(t) && Gained(t, bar.open) <= Gained(t, t.target.value)
    ensures out.r == Some(Abs(t.target.value - t.entry) / Abs(t.entry - t.stop) - t.costR)
  {
    QuotientOf(out.r.value + t.costR, Abs(t.entry - t.stop), Abs(t.target.value - t.entry));
  }

  lemma {:induction false} QuotientOf(x: real, risk: real, distance: real)
    requires risk > 0.0 && x * risk == distance
    ensures x == distance / risk
  {
    var q := distance / risk;
    assert q * risk == distance;
    assert (x - q) * risk == 0.0;
  }

  /** So for every resolved ticket, and a stop that is not on the losing side of the entry
      resolves at once to nothing. */
  lemma {:induction false} ResolutionEarns(t: Ticket, bars: seq<Bar>)
    requires Resolution(t, bars).resolved
    ensures var out := Resolution(t, bars);
            if Gained(t, t.stop) < 0.0 then 0 < out.used <= |bars| && Earns(t, out, bars[out.used - 1])
            else out == Outcome(true, None, Invalid, 0)
  {
    if Tradable(t) {
      WalkEarns(t, FirstBars(bars, t.horizon), 0);
    }
  }

  /** The cost comes off whatever is earned and decides nothing else. */
  lemma {:induction false} CostComesOff(t: Ticket, bars: seq<Bar>)
    ensures var out, free := Resolution(t, bars), Resolution(t.(costR := 0.0), bars);
            out == free.(r := if free.r.Some? then Some(free.r.value - t.costR) else None)
  {
    if Tradable(t) {
      WalkCost(t, FirstBars(bars, t.horizon), 0);
    }
  }

  lemma {:induction false} WalkCost(t: Ticket, ahead: seq<Bar>, used: nat)
    requires Tradable(t)
    ensures Tradable(t.(costR := 0.0))
    ensures var out, free := Walk(t, ahead, used), Walk(t.(costR := 0.0), ahead, used);
            out == free.(r := if free.r.Some? then Some(free.r.value - t.costR) else None)
    decreases |ahead|
  {
    if ahead != [] && BarExit(t, ahead[0]).None? && used + 1 < t.horizon {
      WalkCost(t, ahead[1..], used + 1);
    }
  }

  // ---------------------------------------------------------------------
  // Intrabar price paths
  // ---------------------------------------------------------------------

  /** A price path through one bar: it starts at the open, ends at the close,
      stays inside the range and visits both extremes. */
  ghost predicate Inside(ticks: seq<real>, bar: Bar) {
    && |ticks| > 0 && ticks[0] == bar.open && ticks[|ticks| - 1] == bar.close
    && bar.low in ticks && bar.high in ticks
    && forall x :: x in ticks ==> bar.low <= x <= bar.high
  }

  predicate WellFormed(bar: Bar) {
    bar.low <= bar.open <= bar.high && bar.low <= bar.close <= bar.high
  }

  predicate HitsStop(t: Ticket, price: real) {
    if t.side.Buy? then price <= t.stop else price >= t.stop
  }

  predicate HitsTarget(t: Ticket, price: real) {
    t.target.Some? && if t.side.Buy? then price >= t.target.value else price <= t.target.value
  }

  /** First touch along the rest of a path inside a bar, where the price moves
      through every level in between and so fills at the level. */
  function TouchWithin(t: Ticket, ticks: seq<real>): Option<Exit> {
    if ticks == [] then None
    else if HitsStop(t, ticks[0]) then Some(Exit(Stop, t.stop))
    else if HitsTarget(t, ticks[0]) then Some(Exit(Target, t.target.value))
    else TouchWithin(t, ticks[1..])
  }

  /** First touch along one bar's path. The open is a jump from the previous
      close, so a level it has passed fills at the open itself. */
  function TouchInBar(t: Ticket, ticks: seq<real>): Option<Exit>
    requires |ticks| > 0
  {
    if HitsStop(t, ticks[0]) then Some(Exit(Gap, ticks[0]))
    else if HitsTarget(t, ticks[0]) then Some(Exit(Target, ticks[0]))
    else TouchWithin(t, ticks[1..])
  }

  ghost predicate PathsInside(paths: seq<seq<real>>, bars: seq<Bar>) {
    && |paths| == |bars|
    && (forall i :: 0 <= i < |bars| ==> WellFormed(bars[i]))
    && forall i :: 0 <= i < |bars| ==> Inside(paths[i], bars[i])
  }

  /** First-touch simulation over bars whose intrabar paths are known. */
  ghost function Simulate(t: Ticket, paths: seq<seq<real>>, ahead: seq<Bar>, used: nat): Outcome
    requires Tradable(t) && PathsInside(paths, ahead)
    decreases |ahead|
  {
    if ahead == [] then Outcome(false, None, StillOpen, used)
    else
      assert Inside(paths[0], ahead[0]);
      match TouchInBar(t, paths[0])
      case Some(exit) => Settle(t, exit, used + 1)
      case None =>
        if used + 1 >= t.horizon then Settle(t, Exit(Horizon, ahead[0].close), used + 1)
        else Simulate(t, paths[1..], ahead[1..], used + 1)
  }

  /** The target lies beyond the stop, on the winning side of it. */
  predicate TargetBeyondStop(t: Ticket) {
    t.target.Some? ==> if t.side.Buy? then t.target.value > t.stop else t.target.value < t.stop
  }

  predicate NoWorse(side: Side, a: real, b: real) {
    if side.Buy? then a >= b else a <= b
  }

  lemma {:induction false} BetterPriceBetterR(t: Ticket, a: real, b: real)
    requires Tradable(t)
    ensures NoWorse(t.side, a, b) <==> RAt(t, a) >= RAt(t, b)
  {
    var risk := Abs(t.entry - t.stop);
    var d := if t.side.Buy? then a - b else b - a;
    assert RAt(t, a) - RAt(t, b) == d / risk;
  }

  lemma {:induction false} TouchWithinSpec(t: Ticket, ticks: seq<real>)
    requires TargetBeyondStop(t)
    ensures TouchWithin(t, ticks).Some? <==>
            exists x :: x in ticks && (HitsStop(t, x) || HitsTarget(t, x))
    ensures (forall x :: x in ticks ==> !HitsStop(t, x)) && TouchWithin(t, ticks).Some? ==>
              t.target.Some? && TouchWithin(t, ticks).value == Exit(Target, t.target.value)
    ensures TouchWithin(t, ticks).Some? ==>
              NoWorse(t.side, TouchWithin(t, ticks).value.price, t.stop)
  {
    if ticks != [] {
      TouchWithinSpec(t, ticks[1..]);
      assert ticks == [ticks[0]] + ticks[1..];
    }
  }

  /** One bar, any path through it: the bar is an exit bar exactly when the
      adverse-first reading says so, and the true fill is never worse. */
  lemma {:induction false} BarIsWorstCase(t: Ticket, bar: Bar, ticks: seq<real>)
    requires TargetBeyondStop(t) && Inside(ticks, bar)
    ensures TouchInBar(t, ticks).Some? <==> BarExit(t, bar).Some?
    ensures TouchInBar(t, ticks).Some? ==>
              NoWorse(t.side, TouchInBar(t, ticks).value.price, BarExit(t, bar).value.price)
  {
    TouchWithinSpec(t, ticks[1..]);
    assert ticks == [ticks[0]] + ticks[1..];
    assert forall x :: x in ticks <==> x == bar.open || x in ticks[1..];
  }

  /** Adverse-first is a true worst case: along every price path consistent with
      the bars, first-touch trading exits on the same bar with at least the R the
      resolver reports. */
  lemma {:induction false} AdverseFirstIsWorstCase(t: Ticket, paths: seq<seq<real>>, ahead: seq<Bar>, used: nat)
    requires Tradable(t) && TargetBeyondStop(t) && PathsInside(paths, ahead)
    ensures var actual := Simulate(t, paths, ahead, used);
            var reported := Walk(t, ahead, used);
            && actual.resolved == reported.resolved && actual.used == reported.used
            && actual.r.Some? == reported.r.Some?
            && (actual.r.Some? ==> actual.r.value >= reported.r.value)
    decreases |ahead|
  {
    if ahead != [] {
      BarIsWorstCase(t, ahead[0], paths[0]);
      var touch, exit := TouchInBar(t, paths[0]), BarExit(t, ahead[0]);
      if touch.Some? {
        BetterPriceBetterR(t, touch.value.price, exit.value.price);
      } else if used + 1 < t.horizon {
        AdverseFirstIsWorstCase(t, paths[1..], ahead[1..], used + 1);
      }
    }
  }

  // ---------------------------------------------------------------------
  // How tight the worst case is
  // ---------------------------------------------------------------------

  /** The bar opens at or through the target and only later trades to the stop:
      no path can reach the stop first, and the resolver still charges it. */
  predicate OpensThroughTarget(t: Ticket, bar: Bar) {
    && HitsTarget(t, bar.open) && !HitsStop(t, bar.open)
    && HitsStop(t, if t.side.Buy? then bar.low else bar.high)
  }

  function AdversePath(t: Ticket, bar: Bar): seq<real> {
    if t.side.Buy? then [bar.open, bar.low, bar.high, bar.close]
    else [bar.open, bar.high, bar.low, bar.close]
  }

  lemma {:induction false} AdversePathInside(t: Ticket, bar: Bar)
    requires WellFormed(bar)
    ensures Inside(AdversePath(t, bar), bar)
  {
    var ticks := AdversePath(t, bar);
    assert ticks[1] in ticks && ticks[2] in ticks;
  }

  lemma {:induction false} AdversePathTouch(t: Ticket, bar: Bar)
    requires WellFormed(bar) && TargetBeyondStop(t) && !OpensThroughTarget(t, bar)
    ensures TouchInBar(t, AdversePath(t, bar)) == BarExit(t, bar)
  {
    var near, far := if t.side.Buy? then bar.low else bar.high, if t.side.Buy? then bar.high else bar.low;
    assert AdversePath(t, bar)[1..] == [near, far, bar.close];
    TouchThree(t, near, far, bar.close);
  }

  lemma {:induction false} TouchThree(t: Ticket, a: real, b: real, c: real)
    ensures TouchWithin(t, [a, b, c]) ==
            if HitsStop(t, a) then Some(Exit(Stop, t.stop))
            else if HitsTarget(t, a) then Some(Exit(Target, t.target.value))
            else if HitsStop(t, b) then Some(Exit(Stop, t.stop))
            else if HitsTarget(t, b) then Some(Exit(Target, t.target.value))
            else if HitsStop(t, c) then Some(Exit(Stop, t.stop))
            else if HitsTarget(t, c) then Some(Exit(Target, t.target.value))
            else None
  {
    assert [a, b, c][1..] == [b, c] && [b, c][1..] == [c] && [c][1..] == [];
    assert TouchWithin(t, [c]) ==
           if HitsStop(t, c) then Some(Exit(Stop, t.stop))
           else if HitsTarget(t, c) then Some(Exit(Target, t.target.value)) else None;
  }

  lemma {:induction false} OpenThroughTargetIsStrictlyBetter(t: Ticket, bar: Bar, ticks: seq<real>)
    requires Tradable(t) && TargetBeyondStop(t) && Inside(ticks, bar) && OpensThroughTarget(t, bar)
    ensures TouchInBar(t, ticks).Some? && BarExit(t, bar).Some?
    ensures RAt(t, TouchInBar(t, ticks).value.price) > RAt(t, BarExit(t, bar).value.price)
  {
    BetterPriceBetterR(t, BarExit(t, bar).value.price, ticks[0]);
  }

  function AdversePaths(t: Ticket, bars: seq<Bar>): (paths: seq<seq<real>>)
    ensures |paths| == |bars|
    ensures forall i :: 0 <= i < |bars| ==> paths[i] == AdversePath(t, bars[i])
  {
    seq(|bars|, i requires 0 <= i < |bars| => AdversePath(t, bars[i]))
  }

  lemma {:induction false} AdversePathsInside(t: Ticket, bars: seq<Bar>)
    requires forall i :: 0 <= i < |bars| ==> WellFormed(bars[i])
    ensures PathsInside(AdversePaths(t, bars), bars)
  {
    forall i | 0 <= i < |bars|
      ensures Inside(AdversePaths(t, bars)[i], bars[i])
    {
      AdversePathInside(t, bars[i]);
    }
  }

  /** Whether the bar that ends the walk opened through the target. */
  predicate ExitBarOpensThroughTarget(t: Ticket, ahead: seq<Bar>, used: nat)
    decreases |ahead|
  {
    ahead != [] &&
    if BarExit(t, ahead[0]).Some? then OpensThroughTarget(t, ahead[0])
    else used + 1 < t.horizon && ExitBarOpensThroughTarget(t, ahead[1..], used + 1)
  }

  /** The reported outcome is reached by an actual price path unless the exit bar
      opened through the target... */
  lemma {:induction false} WorstCaseIsReached(t: Ticket, ahead: seq<Bar>, used: nat)
    requires Tradable(t) && TargetBeyondStop(t)
    requires forall i :: 0 <= i < |ahead| ==> WellFormed(ahead[i])
    requires !ExitBarOpensThroughTarget(t, ahead, used)
    ensures PathsInside(AdversePaths(t, ahead), ahead)
    ensures Simulate(t, AdversePaths(t, ahead), ahead, used) == Walk(t, ahead, used)
    decreases |ahead|
  {
    AdversePathsInside(t, ahead);
    if ahead != [] {
      BarIsWorstCase(t, ahead[0], AdversePaths(t, ahead)[0]);
      if BarExit(t, ahead[0]).Some? {
        AdversePathTouch(t, ahead[0]);
      } else if used + 1 < t.horizon {
        WorstCaseIsReached(t, ahead[1..], used + 1);
        assert AdversePaths(t, ahead)[1..] == AdversePaths(t, ahead[1..]);
      }
    }
  }

  /** ... and when it did, every path does strictly better than reported. */
  lemma {:induction false} WorstCaseIsPessimistic(t: Ticket, paths: seq<seq<real>>, ahead: seq<Bar>, used: nat)
    requires Tradable(t) && TargetBeyondStop(t) && PathsInside(paths, ahead)
    requires ExitBarOpensThroughTarget(t, ahead, used)
    ensures Simulate(t, paths, ahead, used).r.Some? && Walk(t, ahead, used).r.Some?
    ensures Simulate(t, paths, ahead, used).r.value > Walk(t, ahead, used).r.value
    decreases |ahead|
  {
    BarIsWorstCase(t, ahead[0], paths[0]);
    if BarExit(t, ahead[0]).Some? {
      OpenThroughTargetIsStrictlyBetter(t, ahead[0], paths[0]);
    } else {
      WorstCaseIsPessimistic(t, paths[1..], ahead[1..], used + 1);
    }
  }

  /** Tightness in one statement: some consistent path earns exactly the reported
      outcome if and only if the exit bar does not open through the target. */
  lemma {:induction false} ReportedOutcomeIsAttainable(t: Ticket, ahead: seq<Bar>, used: nat)
    requires Tradable(t) && TargetBeyondStop(t)
    requires forall i :: 0 <= i < |ahead| ==> WellFormed(ahead[i])
    ensures (exists paths :: PathsInside(paths, ahead)
              && Simulate(t, paths, ahead, used) == Walk(t, ahead, used))
            <==> !ExitBarOpensThroughTarget(t, ahead, used)
  {
    if ExitBarOpensThroughTarget(t, ahead, used) {
      forall paths | PathsInside(paths, ahead)
        ensures Simulate(t, paths, ahead, used) != Walk(t, ahead, used)
      {
        WorstCaseIsPessimistic(t, paths, ahead, used);
      }
    } else {
      WorstCaseIsReached(t, ahead, used);
    }
  }

  // ---------------------------------------------------------------------
  // Mirror symmetry and causality
  // ---------------------------------------------------------------------

  function Reflect(bar: Bar): Bar {
    Bar(-bar.open, -bar.low, -bar.high, -bar.close)
  }

  function ReflectAll(bars: seq<Bar>): (out: seq<Bar>)
    ensures |out| == |bars|
    ensures forall i :: 0 <= i < |bars| ==> out[i] == Reflect(bars[i])
  {
    seq(|bars|, i requires 0 <= i < |bars| => Reflect(bars[i]))
  }

  function Mirror(t: Ticket): Ticket {
    Ticket(t.side.Opposite(), -t.entry, -t.stop,
           if t.target.Some? then Some(-t.target.value) else None, t.horizon, t.costR)
  }

  lemma {:induction false} MirrorR(t: Ticket, price: real)
    requires Tradable(t)
    ensures Tradable(Mirror(t)) && RAt(Mirror(t), -price) == RAt(t, price)
  {
    assert Abs(Mirror(t).entry - Mirror(t).stop) == Abs(t.entry - t.stop);
    assert -price - -t.entry == t.entry - price;
  }

  lemma {:induction false} WalkMirrors(t: Ticket, ahead: seq<Bar>, used: nat)
    requires Tradable(t)
    ensures Tradable(Mirror(t))
    ensures Walk(Mirror(t), ReflectAll(ahead), used) == Walk(t, ahead, used)
    decreases |ahead|
  {
    MirrorR(t, 0.0);
    if ahead != [] {
      var mirrored := ReflectAll(ahead);
      assert mirrored[1..] == ReflectAll(ahead[1..]);
      if BarExit(t, ahead[0]).Some? {
        MirrorR(t, BarExit(t, ahead[0]).value.price);
      } else {
        MirrorR(t, ahead[0].close);
        WalkMirrors(t, ahead[1..], used + 1);
      }
    }
  }

  /** The SELL branches are the BUY branches with every price reflected. */
  lemma {:induction false} SellMirrorsBuy(t: Ticket, bars: seq<Bar>)
    ensures Resolution(Mirror(t), ReflectAll(bars)) == Resolution(t, bars)
  {
    if Tradable(t) {
      assert ReflectAll(FirstBars(bars, t.horizon)) == FirstBars(ReflectAll(bars), t.horizon);
      WalkMirrors(t, FirstBars(bars, t.horizon), 0);
    }
  }

  lemma {:induction false} WalkIsCausal(t: Ticket, a: seq<Bar>, b: seq<Bar>, used: nat)
    requires Tradable(t) && Walk(t, a, used).resolved
    requires var n := Walk(t, a, used).used - used; n <= |b| && a[..n] == b[..n]
    ensures Walk(t, b, used) == Walk(t, a, used)
    decreases |a|
  {
    var n := Walk(t, a, used).used - used;
    assert a[..n][0] == b[..n][0];
    if BarExit(t, a[0]).None? && used + 1 < t.horizon {
      assert a[1..][..n - 1] == a[..n][1..] == b[..n][1..] == b[1..][..n - 1];
      WalkIsCausal(t, a[1..], b[1..], used + 1);
    }
  }

  /** A resolved outcome depends only on the bars it used: any other record that
      agrees on those bars, and is not cut short by a negative horizon, gives the
      same outcome. */
  lemma {:induction false} OutcomeDependsOnUsedBars(t: Ticket, a: seq<Bar>, b: seq<Bar>)
    requires Resolution(t, a).resolved
    requires t.horizon > 0 || |a| <= |b|
    requires var n := Resolution(t, a).used; n <= |a| && n <= |b| && a[..n] == b[..n]
    ensures Resolution(t, b) == Resolution(t, a)
  {
    if Tradable(t) {
      var n := Resolution(t, a).used;
      var wa, wb := FirstBars(a, t.horizon), FirstBars(b, t.horizon);
      assert n <= |wb|;
      assert wa[..n] == a[..n] && wb[..n] == b[..n];
      WalkIsCausal(t, wa, wb, 0);
    }
  }

  /** Bars that arrive later never change a resolved outcome. */
  lemma {:induction false} LaterBarsChangeNothing(t: Ticket, bars: seq<Bar>, later: seq<Bar>)
    requires Resolution(t, bars).resolved
    ensures Resolution(t, bars + later) == Resolution(t, bars)
  {
    var n := Resolution(t, bars).used;
    assert n <= |bars|;
    assert (bars + later)[..n] == bars[..n];
    OutcomeDependsOnUsedBars(t, bars, bars + later);
  }
}
