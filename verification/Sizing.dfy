/** Turning an engine-approved size into the lots that are sent: by the agent, by a
    human accepting its proposal, and by a human's own ticket. Caution only shrinks. */
module Sizing {
  import opened Common
  import opened RealFacts
  import opened Rounding

  datatype Contract = Contract(minLot: real, lotStep: real)

  predicate Tradable(inst: Contract) {
    0.0 < inst.lotStep <= inst.minLot
  }

  /** Round toward zero on the lot grid. */
  function RoundLotsDown(inst: Contract, lots: real): real
    requires Tradable(inst)
  {
    if lots <= 0.0 then 0.0 else FloorTo(lots, inst.lotStep)
  }

  /** The engine's approval: a size and the risk it carries. */
  datatype Approval = Approval(lots: real, riskAmount: real, riskPct: real)

  datatype Sized = Sized(lots: real, riskAmount: real, riskPct: real, recorded: real)

  function RoundFour(x: real): real {
    RoundTo(x, 0.0001)
  }

  function Shrunk(approval: Approval, caution: real): real {
    approval.lots * caution
  }

  /** The size for a caution: the largest lot-grid size within the shrunk approval,
      or nothing when that is below the minimum. */
  ghost predicate SizedFor(inst: Contract, approval: Approval, caution: real, out: Option<Sized>)
    requires Tradable(inst)
  {
    var cap := Shrunk(approval, caution);
    match out
    case Some(s) =>
      && inst.minLot <= s.lots <= cap && OnGrid(s.lots, inst.lotStep)
      && (forall x :: OnGrid(x, inst.lotStep) && x <= cap ==> x <= s.lots)
      && s.riskAmount == approval.riskAmount * caution
      && s.riskPct == approval.riskPct * caution
      && s.recorded == RoundFour(caution)
    case None =>
      forall x :: OnGrid(x, inst.lotStep) && x <= cap ==> x < inst.minLot
  }

  method SizeFor(inst: Contract, approval: Approval, caution: real) returns (out: Option<Sized>)
    requires Tradable(inst)
    ensures SizedFor(inst, approval, caution, out)
  {
    var cap := Shrunk(approval, caution);
    var lots := RoundLotsDown(inst, cap);
    FloorToGreatest(cap, inst.lotStep);
    if lots < inst.minLot {
      return None;
    }
    return Some(Sized(lots, approval.riskAmount * caution, approval.riskPct * caution, RoundFour(caution)));
  }

  lemma {:induction false} ShrinkOrder(approval: Approval, c: real, d: real)
    requires approval.lots >= 0.0 && c <= d
    ensures Shrunk(approval, c) <= Shrunk(approval, d)
    ensures d <= 1.0 ==> Shrunk(approval, d) <= approval.lots
  {
    MulMonotone(c, d, approval.lots);
    if d <= 1.0 {
      MulMonotone(d, 1.0, approval.lots);
    }
  }

  /** More caution never sends more lots. */
  lemma {:induction false} LessCautionNoFewerLots(inst: Contract, approval: Approval, c: real, d: real,
                                                  x: Option<Sized>, y: Option<Sized>)
    requires Tradable(inst) && approval.lots >= 0.0 && c <= d
    requires SizedFor(inst, approval, c, x) && SizedFor(inst, approval, d, y)
    ensures x.Some? ==> y.Some? && x.value.lots <= y.value.lots
  {
    ShrinkOrder(approval, c, d);
  }

  // ---------------------------------------------------------------------
  // The caution in force
  // ---------------------------------------------------------------------

  /** A layer may only shrink: a reading of one or more changes nothing. */
  function Tighten(caution: real, layer: real): real {
    if layer < 1.0 then Min(caution, layer) else caution
  }

  function TightenAll(caution: real, layers: seq<real>): real {
    if layers == [] then caution else Tighten(TightenAll(caution, layers[..|layers| - 1]), layers[|layers| - 1])
  }

  /** Lessons first, then news, reference price and brain, clamped to [0, 1]. */
  method CautionFor(lessons: real, layers: seq<real>) returns (caution: real)
    ensures 0.0 <= caution <= 1.0
    ensures caution == Max(0.0, Min(1.0, TightenAll(lessons, layers)))
  {
    var c := lessons;
    for i := 0 to |layers|
      invariant c == TightenAll(lessons, layers[..i])
    {
      assert layers[..i + 1][..i] == layers[..i];
      if layers[i] < 1.0 {
        c := Min(c, layers[i]);
      }
    }
    assert layers[..|layers|] == layers;
    caution := Max(0.0, Min(1.0, c));
  }

  /** Every source bounds the result, and one of them attains it. */
  lemma {:induction false} TightenAllIsTheLeast(lessons: real, layers: seq<real>)
    ensures TightenAll(lessons, layers) <= lessons
    ensures forall i :: 0 <= i < |layers| && layers[i] < 1.0 ==> TightenAll(lessons, layers) <= layers[i]
    ensures TightenAll(lessons, layers) == lessons
            || exists i :: 0 <= i < |layers| && layers[i] < 1.0 && TightenAll(lessons, layers) == layers[i]
  {
    if layers != [] {
      TightenAllIsTheLeast(lessons, layers[..|layers| - 1]);
    }
  }

  // ---------------------------------------------------------------------
  // Accepting a proposal
  // ---------------------------------------------------------------------

  function AcceptedCaution(current: real, recorded: real): real {
    Max(0.0, Min(Min(1.0, current), recorded))
  }

  method AcceptProposal(inst: Contract, approval: Approval, current: real, recorded: real)
    returns (out: Option<Sized>)
    requires Tradable(inst)
    ensures SizedFor(inst, approval, AcceptedCaution(current, recorded), out)
  {
    var caution := Max(0.0, Min(Min(1.0, current), recorded));
    out := SizeFor(inst, approval, caution);
  }

  /** Acceptance is never looser than the caution computed now nor than the one the
      proposal recorded. */
  lemma {:induction false} AcceptanceIsBounded(inst: Contract, approval: Approval, current: real, recorded: real,
                                               out: Option<Sized>)
    requires Tradable(inst) && approval.lots >= 0.0 && 0.0 <= current <= 1.0 && 0.0 <= recorded
    requires SizedFor(inst, approval, AcceptedCaution(current, recorded), out) && out.Some?
    ensures inst.minLot <= out.value.lots <= approval.lots
    ensures out.value.lots <= Shrunk(approval, current) && out.value.lots <= Shrunk(approval, recorded)
  {
    var c := AcceptedCaution(current, recorded);
    ShrinkOrder(approval, c, current);
    ShrinkOrder(approval, c, recorded);
  }

  /** The recorded multiplier is rounded to four places, so acceptance is never looser
      than the caution the agent itself applied, whatever the fresh reading, if and
      only if that rounding did not go up. */
  lemma {:induction false} NeverLooserIffNotRoundedUp(applied: real)
    requires 0.0 <= applied <= 1.0
    ensures (forall current :: AcceptedCaution(current, RoundFour(applied)) <= applied)
            <==> RoundFour(applied) <= applied
  {
    var recorded := RoundFour(applied);
    RecordedInUnit(applied);
    if recorded > applied {
      assert AcceptedCaution(1.0, recorded) == recorded;
    }
  }

  /** ... and it is looser by at most half of the last recorded place. */
  lemma {:induction false} AtMostHalfAPlaceLooser(applied: real, current: real)
    requires 0.0 <= applied <= 1.0
    ensures AcceptedCaution(current, RoundFour(applied)) <= applied + 0.00005
  {
    RoundToNear(applied, 0.0001);
  }

  lemma {:induction false} RecordedInUnit(applied: real)
    requires 0.0 <= applied <= 1.0
    ensures 0.0 <= RoundFour(applied) <= 1.0
  {
    GridPoint(0, 0.0001);
    GridPoint(10000, 0.0001);
    RoundToBetween(GridAt(0, 0.0001), applied, GridAt(10000, 0.0001), 0.0001);
  }

  /** A caution of 0.50006 on 100 approved lots proposes 50.00 and, accepted under a
      full current reading, sends 50.01. */
  lemma {:induction false} AcceptedLooserThanProposed(proposed: Option<Sized>, accepted: Option<Sized>)
    requires var inst, approval := Contract(0.01, 0.01), Approval(100.0, 500.0, 0.5);
             && SizedFor(inst, approval, 0.50006, proposed)
             && SizedFor(inst, approval, AcceptedCaution(1.0, RoundFour(0.50006)), accepted)
    ensures proposed.Some? && proposed.value.lots == 50.0
    ensures accepted.Some? && accepted.value.lots == 50.01
  {
    var inst, approval := Contract(0.01, 0.01), Approval(100.0, 500.0, 0.5);
    GridDistance(0.50006, 5001, 0.4, 0.0001);
    GridDistance(0.50006, 5001, 0.5, 0.0001);
    assert RoundFour(0.50006) == GridAt(5001, 0.0001) == 0.5001;
    LargestBelow(inst, 50.006, 5000);
    LargestBelow(inst, 50.01, 5001);
    assert Shrunk(approval, 0.50006) == 50.006 && Shrunk(approval, 0.5001) == 50.01;
  }

  lemma {:induction false} LargestBelow(inst: Contract, cap: real, n: int)
    requires inst == Contract(0.01, 0.01) && n as real * 0.01 <= cap < n as real * 0.01 + 0.01
    ensures OnGrid(n as real * 0.01, 0.01)
    ensures forall x :: OnGrid(x, 0.01) && x <= cap ==> x <= n as real * 0.01
  {
    GridPoint(n, 0.01);
    forall x | OnGrid(x, 0.01) && x <= cap
      ensures x <= n as real * 0.01
    {
      var m := Steps(x, 0.01).Floor;
      assert x == GridAt(m, 0.01) == m as real * 0.01;
      assert m <= n;
    }
  }

  // ---------------------------------------------------------------------
  // A human's own ticket
  // ---------------------------------------------------------------------

  /** Asking for less risk than the budget lowers the caution in proportion; asking
      for more changes nothing; asking for none is refused. */
  function TicketCaution(caution: real, wanted: Option<real>, budget: real): real
    requires wanted.Some? && wanted.value < budget ==> budget != 0.0
  {
    if wanted.Some? && wanted.value < budget then Min(caution, wanted.value / budget) else caution
  }

  method ManualTicket(inst: Contract, approval: Approval, caution: real, wanted: Option<real>,
                      budget: real) returns (out: Option<Sized>)
    requires Tradable(inst) && budget > 0.0
    ensures wanted.Some? && wanted.value <= 0.0 ==> out.None?
    ensures !(wanted.Some? && wanted.value <= 0.0) ==>
              SizedFor(inst, approval, TicketCaution(caution, wanted, budget), out)
  {
    var c := caution;
    if wanted.Some? {
      if wanted.value <= 0.0 {
        return None;
      }
      if wanted.value < budget {
        c := Min(c, wanted.value / budget);
      }
    }
    out := SizeFor(inst, approval, c);
  }

  /** A ticket's caution is the lesser of the caution in force and the part of the budget it
      asks for, and attains it. */
  lemma {:induction false} TicketTakesTheLess(caution: real, wanted: Option<real>, budget: real)
    requires budget > 0.0 && 0.0 <= caution <= 1.0
    ensures var c := TicketCaution(caution, wanted, budget);
            && c <= caution && (wanted.Some? ==> c * budget <= Max(wanted.value, caution * budget))
            && (wanted.None? || wanted.value >= budget ==> c == caution)
            && (wanted.Some? && wanted.value < budget ==> c * budget == Min(caution * budget, wanted.value))
  {
    if wanted.Some? && wanted.value < budget {
      DivCompare(wanted.value, budget, caution);
      var part := wanted.value / budget;
      assert part * budget == wanted.value;
      if part < caution {
        MulMonotone(part, caution, budget);
      } else {
        MulMonotone(caution, part, budget);
      }
    }
  }

  /** A ticket never exceeds what its own risk request, the caution in force and the
      engine allow; a request above the budget is capped at the budget. */
  lemma {:induction false} TicketIsBounded(inst: Contract, approval: Approval, caution: real,
                                           wanted: Option<real>, budget: real, out: Option<Sized>)
    requires Tradable(inst) && budget > 0.0 && approval.lots >= 0.0 && 0.0 <= caution <= 1.0
    requires SizedFor(inst, approval, TicketCaution(caution, wanted, budget), out) && out.Some?
    ensures inst.minLot <= out.value.lots <= Shrunk(approval, caution) <= approval.lots
    ensures wanted.Some? ==> out.value.lots * budget <= approval.lots * Min(wanted.value, budget)
  {
    TicketWithinCaution(approval, caution, wanted, budget);
    if wanted.Some? {
      TicketWithinRequest(approval, caution, wanted.value, budget, out.value.lots);
    }
  }

  lemma {:induction false} TicketWithinCaution(approval: Approval, caution: real, wanted: Option<real>, budget: real)
    requires budget > 0.0 && approval.lots >= 0.0 && 0.0 <= caution <= 1.0
    ensures Shrunk(approval, TicketCaution(caution, wanted, budget)) <= Shrunk(approval, caution) <= approval.lots
  {
    ShrinkOrder(approval, TicketCaution(caution, wanted, budget), caution);
  }

  lemma {:induction false} TicketWithinRequest(approval: Approval, caution: real, wanted: real, budget: real,
                                               lots: real)
    requires budget > 0.0 && approval.lots >= 0.0 && 0.0 <= caution <= 1.0
    requires lots <= Shrunk(approval, TicketCaution(caution, Some(wanted), budget))
    ensures lots * budget <= approval.lots * Min(wanted, budget)
  {
    ShareOfBudget(wanted, budget);
    var share := Min(wanted, budget) / budget;
    ShrinkOrder(approval, TicketCaution(caution, Some(wanted), budget), share);
    ShareBound(approval, Min(wanted, budget), budget, lots);
  }

  lemma {:induction false} ShareOfBudget(wanted: real, budget: real)
    requires budget > 0.0
    ensures wanted < budget ==> Min(wanted, budget) / budget == wanted / budget
    ensures wanted >= budget ==> Min(wanted, budget) / budget == 1.0
  {
  }

  lemma {:induction false} ShareBound(approval: Approval, m: real, budget: real, lots: real)
    requires budget > 0.0 && lots <= Shrunk(approval, m / budget)
    ensures lots * budget <= approval.lots * m
  {
    var q := m / budget;
    assert q * budget == m;
    MulMonotone(lots, approval.lots * q, budget);
    assert (approval.lots * q) * budget == approval.lots * (q * budget);
  }
}
