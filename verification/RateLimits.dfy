/** The two brakes on provider traffic: the call budget over trailing windows of the
    journal, and the per-provider breaker that backs off after a rate-limit answer. */
module RateLimits {
  import opened Common

  const HOUR := 3_600_000_000_000
  const DAY := 86_400_000_000_000

  /** Seconds in nanoseconds, the unit of every clock. */
  function Ns(seconds: int): int {
    seconds * 1_000_000_000
  }

  // ---------------------------------------------------------------------
  // The breaker
  // ---------------------------------------------------------------------

  datatype Reply = Answered | RateLimited | Failed

  datatype Breaker = Breaker(failures: nat, openUntil: int)

  const CLOSED := Breaker(0, 0)

  function Pow2(n: nat): (p: nat)
    ensures p >= 1
  {
    if n == 0 then 1 else 2 * Pow2(n - 1)
  }

  /** One minute, doubling with each consecutive failure, never above an hour. */
  function WaitSec(failures: nat): int
    requires failures > 0
  {
    var doubled := 60 * Pow2(failures - 1);
    if doubled <= 3600 then doubled else 3600
  }

  predicate Open(b: Breaker, now: int) {
    now < b.openUntil
  }

  /** A 429 or 529 opens the breaker for longer; a success closes it; any other
      failure leaves it alone. */
  function Noted(b: Breaker, now: int, reply: Reply): Breaker {
    match reply
    case Answered => CLOSED
    case RateLimited => Breaker(b.failures + 1, now + Ns(WaitSec(b.failures + 1)))
    case Failed => b
  }

  // ---------------------------------------------------------------------
  // The journal and the provider chain
  // ---------------------------------------------------------------------

  /** One journal row: a provider call with its answer, or a budget refusal. */
  datatype Entry = Call(provider: string, started: int, ts: int, reply: Reply) | Refusal(ts: int)

  datatype Provider = Provider(id: string, typesafe: bool)

  /** What asking a provider would meet: the clock at the check and at the end, and
      the venue's answer. */
  datatype Turn = Turn(at: int, ended: int, reply: Reply)

  datatype Gateway = Gateway(log: seq<Entry>, breakers: map<string, Breaker>)

  datatype Limits = Limits(perHour: nat, perDay: nat)

  function BreakerOf(breakers: map<string, Breaker>, id: string): Breaker {
    if id in breakers then breakers[id] else CLOSED
  }

  function CountSince(log: seq<Entry>, since: int): (n: nat)
    ensures n <= |log|
  {
    if log == [] then 0
    else CountSince(log[..|log| - 1], since) + if log[|log| - 1].ts >= since then 1 else 0
  }

  predicate OverBudget(log: seq<Entry>, now: int, limits: Limits) {
    CountSince(log, now - HOUR) >= limits.perHour || CountSince(log, now - DAY) >= limits.perDay
  }

  function Asked(g: Gateway, id: string, turn: Turn): Gateway {
    Gateway(g.log + [Call(id, turn.at, turn.ended, turn.reply)],
            g.breakers[id := Noted(BreakerOf(g.breakers, id), turn.ended, turn.reply)])
  }

  /** Skipped without traffic: a provider that does not write text, or one backing off. */
  predicate Skipped(g: Gateway, p: Provider, turn: Turn) {
    p.typesafe || Open(BreakerOf(g.breakers, p.id), turn.at)
  }

  /** Try the chain in order until one provider answers. */
  function Walked(g: Gateway, chain: seq<Provider>, turns: seq<Turn>): Gateway
    requires |turns| == |chain|
    decreases |chain|
  {
    if chain == [] then g
    else if Skipped(g, chain[0], turns[0]) then Walked(g, chain[1..], turns[1..])
    else
      var asked := Asked(g, chain[0].id, turns[0]);
      if turns[0].reply.Answered? then asked else Walked(asked, chain[1..], turns[1..])
  }

  /** Which provider of the chain answers, if any. */
  function Winner(g: Gateway, chain: seq<Provider>, turns: seq<Turn>): (k: Option<nat>)
    requires |turns| == |chain|
    ensures k.Some? ==> k.value < |chain| && turns[k.value].reply.Answered?
    decreases |chain|
  {
    if chain == [] then None
    else if !Skipped(g, chain[0], turns[0]) && turns[0].reply.Answered? then Some(0)
    else
      var rest := Winner(if Skipped(g, chain[0], turns[0]) then g else Asked(g, chain[0].id, turns[0]),
                         chain[1..], turns[1..]);
      if rest.Some? then Some(rest.value + 1) else None
  }

  /** A walk only adds to the journal. */
  lemma {:induction false} WalkOnlyAdds(g: Gateway, chain: seq<Provider>, turns: seq<Turn>)
    requires |turns| == |chain|
    ensures g.log <= Walked(g, chain, turns).log
    decreases |chain|
  {
    if chain != [] {
      if Skipped(g, chain[0], turns[0]) {
        WalkOnlyAdds(g, chain[1..], turns[1..]);
      } else if !turns[0].reply.Answered? {
        WalkOnlyAdds(Asked(g, chain[0].id, turns[0]), chain[1..], turns[1..]);
      }
    }
  }

  predicate FailedCall(e: Entry) {
    e.Call? && !e.reply.Answered?
  }

  /** The answer is the last call of the walk, and there is none exactly when the walk's
      calls all failed. */
  lemma {:induction false} WinnerIsTheLastCall(g: Gateway, chain: seq<Provider>, turns: seq<Turn>)
    requires |turns| == |chain|
    ensures var after, k := Walked(g, chain, turns).log, Winner(g, chain, turns);
            && g.log <= after
            && (k.Some? ==> |after| > |g.log| && after[|after| - 1]
                            == Call(chain[k.value].id, turns[k.value].at, turns[k.value].ended, Answered))
            && (k.None? ==> forall i :: |g.log| <= i < |after| ==> FailedCall(after[i]))
    decreases |chain|
  {
    WalkOnlyAdds(g, chain, turns);
    if chain != [] {
      if Skipped(g, chain[0], turns[0]) {
        WinnerIsTheLastCall(g, chain[1..], turns[1..]);
      } else if !turns[0].reply.Answered? {
        var asked := Asked(g, chain[0].id, turns[0]);
        WinnerIsTheLastCall(asked, chain[1..], turns[1..]);
        assert FailedCall(asked.log[|g.log|]);
      }
    }
  }

  /** No provider is named twice. */
  predicate Distinct(chain: seq<Provider>) {
    forall i, j :: 0 <= i < j < |chain| ==> chain[i].id != chain[j].id
  }

  /** The provider writes text and, going by the breakers before the walk, is not backing
      off when its turn comes. */
  predicate MayAsk(g: Gateway, p: Provider, turn: Turn) {
    !p.typesafe && turn.at >= BreakerOf(g.breakers, p.id).openUntil
  }

  predicate CalledSince(log: seq<Entry>, from: nat, id: string) {
    exists r :: from <= r < |log| && log[r].Call? && log[r].provider == id
  }

  lemma {:induction false} CalledSinceSplits(log: seq<Entry>, from: nat, id: string)
    requires from < |log| && log[from].Call?
    ensures CalledSince(log, from, id) <==> log[from].provider == id || CalledSince(log, from + 1, id)
  {
  }

  /** An answer of the walk: the providers up to it, or all of them when there is none, were
      called if and only if they may be asked, and nobody after it; none before it answered. */
  ghost predicate Falls(g: Gateway, chain: seq<Provider>, turns: seq<Turn>, log: seq<Entry>, k: Option<nat>)
    requires |turns| == |chain|
  {
    && (k.Some? ==> k.value < |chain| && MayAsk(g, chain[k.value], turns[k.value])
                    && turns[k.value].reply.Answered?)
    && forall j :: 0 <= j < |chain| ==> FallsAt(g, chain, turns, log, k, j)
  }

  predicate FallsAt(g: Gateway, chain: seq<Provider>, turns: seq<Turn>, log: seq<Entry>, k: Option<nat>, j: nat)
    requires j < |chain| == |turns|
  {
    && (CalledSince(log, |g.log|, chain[j].id)
        <==> MayAsk(g, chain[j], turns[j]) && (k.Some? ==> j <= k.value))
    && (MayAsk(g, chain[j], turns[j]) && turns[j].reply.Answered? ==> k.Some? && k.value <= j)
  }

  /** The walk only calls providers of its chain. */
  lemma {:induction false} WalkCallsItsChain(g: Gateway, chain: seq<Provider>, turns: seq<Turn>, id: string)
    requires |turns| == |chain| && forall i :: 0 <= i < |chain| ==> chain[i].id != id
    ensures !CalledSince(Walked(g, chain, turns).log, |g.log|, id)
    decreases |chain|
  {
    if chain != [] {
      if Skipped(g, chain[0], turns[0]) {
        WalkCallsItsChain(g, chain[1..], turns[1..], id);
      } else {
        var asked := Asked(g, chain[0].id, turns[0]);
        if !turns[0].reply.Answered? {
          WalkCallsItsChain(asked, chain[1..], turns[1..], id);
          FirstCallStays(asked, chain[1..], turns[1..]);
          CalledSinceSplits(Walked(asked, chain[1..], turns[1..]).log, |g.log|, id);
        }
      }
    }
  }

  lemma {:induction false} FirstCallStays(asked: Gateway, chain: seq<Provider>, turns: seq<Turn>)
    requires |turns| == |chain| && asked.log != []
    ensures var n, after := |asked.log|, Walked(asked, chain, turns).log;
            |after| >= n && after[n - 1] == asked.log[n - 1]
  {
    WalkOnlyAdds(asked, chain, turns);
  }

  /** The gateway when the turn of position j comes, while nobody has answered. */
  function ReachedAt(g: Gateway, chain: seq<Provider>, turns: seq<Turn>, j: nat): Gateway
    requires j <= |chain| == |turns|
  {
    if j == 0 then g
    else
      var before := ReachedAt(g, chain, turns, j - 1);
      if MayAsk(before, chain[j - 1], turns[j - 1]) then Asked(before, chain[j - 1].id, turns[j - 1]) else before
  }

  lemma {:induction false} ReachedFromNext(g: Gateway, chain: seq<Provider>, turns: seq<Turn>, j: nat)
    requires chain != [] && j < |chain| == |turns|
    ensures ReachedAt(g, chain, turns, j + 1)
            == ReachedAt(ReachedAt(g, chain, turns, 1), chain[1..], turns[1..], j)
  {
    if j > 0 {
      ReachedFromNext(g, chain, turns, j - 1);
    }
  }

  /** Position j may be asked when its turn comes and answers. */
  predicate AnswersAt(g: Gateway, chain: seq<Provider>, turns: seq<Turn>, j: nat)
    requires j < |chain| == |turns|
  {
    MayAsk(ReachedAt(g, chain, turns, j), chain[j], turns[j]) && turns[j].reply.Answered?
  }

  /** The failover, for any chain, one that names a provider twice included: the answer is that
      of the first position that may be asked when its turn comes and answers, and the walk
      is everything asked up to it, or up to the end when nobody answers. */
  lemma {:induction false} FailoverIsInOrder(g: Gateway, chain: seq<Provider>, turns: seq<Turn>)
    requires |turns| == |chain|
    ensures var k := Winner(g, chain, turns);
            var stop := if k.Some? then k.value + 1 else |chain|;
            && Walked(g, chain, turns) == ReachedAt(g, chain, turns, stop)
            && (k.Some? ==> AnswersAt(g, chain, turns, k.value))
            && forall j :: 0 <= j < (if k.Some? then k.value else |chain|) ==> !AnswersAt(g, chain, turns, j)
    decreases |chain|
  {
    if chain != [] {
      var next := ReachedAt(g, chain, turns, 1);
      assert ReachedAt(g, chain, turns, 0) == g;
      assert Skipped(g, chain[0], turns[0]) <==> !MayAsk(g, chain[0], turns[0]);
      if !AnswersAt(g, chain, turns, 0) {
        FailoverIsInOrder(next, chain[1..], turns[1..]);
        var rest := Winner(next, chain[1..], turns[1..]);
        forall j | 0 <= j < |chain| - 1
          ensures AnswersAt(g, chain, turns, j + 1) <==> AnswersAt(next, chain[1..], turns[1..], j)
        {
          ReachedFromNext(g, chain, turns, j);
        }
        ReachedFromNext(g, chain, turns, if rest.Some? then rest.value + 1 else |chain| - 1);
        forall j | 0 <= j < (if rest.Some? then rest.value + 1 else |chain|)
          ensures !AnswersAt(g, chain, turns, j)
        {
          if j > 0 {
            assert !AnswersAt(next, chain[1..], turns[1..], j - 1);
          }
        }
      }
    }
  }

  /** With no provider named twice, in terms of the breakers before the walk: the first provider of the chain that may be asked and answers is
      the one that answers, every one before it that may be asked was called and failed, and
      no other was called. */
  lemma {:induction false} FirstAnswerWins(g: Gateway, chain: seq<Provider>, turns: seq<Turn>)
    requires |turns| == |chain| && Distinct(chain)
    ensures Falls(g, chain, turns, Walked(g, chain, turns).log, Winner(g, chain, turns))
    decreases |chain|
  {
    if chain != [] {
      var skipped, asked := Skipped(g, chain[0], turns[0]), Asked(g, chain[0].id, turns[0]);
      var next := if skipped then g else asked;
      WalkCallsItsChain(next, chain[1..], turns[1..], chain[0].id);
      if skipped || !turns[0].reply.Answered? {
        FirstAnswerWins(next, chain[1..], turns[1..]);
        FallsFurther(g, next, chain, turns);
      } else {
        forall j | 0 <= j < |chain|
          ensures FallsAt(g, chain, turns, asked.log, Some(0), j)
        {
          CalledSinceSplits(asked.log, |g.log|, chain[j].id);
        }
      }
    }
  }

  lemma {:induction false} FallsFurther(g: Gateway, next: Gateway, chain: seq<Provider>, turns: seq<Turn>)
    requires chain != [] && |turns| == |chain| && Distinct(chain)
    requires var skipped := Skipped(g, chain[0], turns[0]);
             && next == (if skipped then g else Asked(g, chain[0].id, turns[0]))
             && (skipped || !turns[0].reply.Answered?)
    requires !CalledSince(Walked(next, chain[1..], turns[1..]).log, |next.log|, chain[0].id)
    requires Falls(next, chain[1..], turns[1..], Walked(next, chain[1..], turns[1..]).log,
                   Winner(next, chain[1..], turns[1..]))
    ensures Falls(g, chain, turns, Walked(g, chain, turns).log, Winner(g, chain, turns))
  {
    var log, rest := Walked(next, chain[1..], turns[1..]).log, Winner(next, chain[1..], turns[1..]);
    if next != g {
      FirstCallStays(next, chain[1..], turns[1..]);
    }
    forall j | 0 <= j < |chain|
      ensures FallsAt(g, chain, turns, log, Winner(g, chain, turns), j)
    {
      if next != g {
        CalledSinceSplits(log, |g.log|, chain[j].id);
      }
      if j > 0 {
        assert chain[0].id != chain[j].id;
        assert FallsAt(next, chain[1..], turns[1..], log, rest, j - 1);
      }
    }
    if rest.Some? {
      assert chain[0].id != chain[rest.value + 1].id;
    }
  }

  function Completed(g: Gateway, limits: Limits, now: int, chain: seq<Provider>, turns: seq<Turn>): Gateway
    requires |turns| == |chain|
  {
    if OverBudget(g.log, now, limits) then g.(log := g.log + [Refusal(now)])
    else Walked(g, chain, turns)
  }

  /** The structured path asks the leading provider once, checking its breaker before
      the budget. */
  function ClassifiedBy(g: Gateway, limits: Limits, now: int, id: string, turn: Turn): Gateway {
    if Open(BreakerOf(g.breakers, id), now) then g
    else if OverBudget(g.log, now, limits) then g.(log := g.log + [Refusal(now)])
    else Asked(g, id, turn)
  }

  function Later(k: Option<nat>, offset: nat): Option<nat> {
    if k.Some? then Some(k.value + offset) else None
  }

  /** One turn of the walk. */
  lemma {:induction false} WalkStep(g: Gateway, chain: seq<Provider>, turns: seq<Turn>, k: nat)
    requires |turns| == |chain| && k < |chain|
    ensures var p, turn := chain[k], turns[k];
            var rest, after := chain[k + 1..], turns[k + 1..];
            var skipped, asked := Skipped(g, p, turn), Asked(g, p.id, turn);
            && Walked(g, chain[k..], turns[k..])
               == (if skipped then Walked(g, rest, after)
                   else if turn.reply.Answered? then asked else Walked(asked, rest, after))
            && Later(Winner(g, chain[k..], turns[k..]), k)
               == (if skipped then Later(Winner(g, rest, after), k + 1)
                   else if turn.reply.Answered? then Some(k) else Later(Winner(asked, rest, after), k + 1))
  {
    assert chain[k..][1..] == chain[k + 1..] && turns[k..][1..] == turns[k + 1..];
  }

  class Service {
    var log: seq<Entry>
    var breakers: map<string, Breaker>
    const limits: Limits

    ghost function Now(): Gateway
      reads this
    {
      Gateway(log, breakers)
    }

    constructor (limits: Limits)
      ensures Now() == Gateway([], map[]) && this.limits == limits
    {
      log, breakers, this.limits := [], map[], limits;
    }

    method BudgetReached(now: int) returns (over: bool)
      ensures over == OverBudget(log, now, limits)
    {
      var hour, day := 0, 0;
      for i := 0 to |log|
        invariant hour == CountSince(log[..i], now - HOUR) && day == CountSince(log[..i], now - DAY)
      {
        assert log[..i + 1][..i] == log[..i];
        if log[i].ts >= now - HOUR {
          hour := hour + 1;
        }
        if log[i].ts >= now - DAY {
          day := day + 1;
        }
      }
      assert log[..|log|] == log;
      over := hour >= limits.perHour || day >= limits.perDay;
    }

    method NoteBreaker(id: string, now: int, reply: Reply)
      modifies this`breakers
      ensures breakers == old(breakers)[id := Noted(BreakerOf(old(breakers), id), now, reply)]
    {
      var b := BreakerOf(breakers, id);
      if reply.Answered? {
        b := CLOSED;
      } else if reply.RateLimited? {
        b := b.(failures := b.failures + 1);
        var doubled := 60 * Pow2(b.failures - 1);
        var wait := if doubled <= 3600 then doubled else 3600;
        b := b.(openUntil := now + Ns(wait));
      }
      breakers := breakers[id := b];
    }

    method Complete(now: int, chain: seq<Provider>, turns: seq<Turn>) returns (answered: Option<nat>)
      requires |turns| == |chain|
      modifies this
      ensures Now() == Completed(old(Now()), limits, now, chain, turns)
      ensures answered == if OverBudget(old(log), now, limits) then None else Winner(old(Now()), chain, turns)
    {
      var over := BudgetReached(now);
      if over {
        log := log + [Refusal(now)];
        return None;
      }
      var k := 0;
      while k < |chain|
        invariant 0 <= k <= |chain|
        invariant Walked(old(Now()), chain, turns) == Walked(Now(), chain[k..], turns[k..])
        invariant Winner(old(Now()), chain, turns) == Later(Winner(Now(), chain[k..], turns[k..]), k)
      {
        var p, turn := chain[k], turns[k];
        WalkStep(Now(), chain, turns, k);
        k := k + 1;
        if p.typesafe || Open(BreakerOf(breakers, p.id), turn.at) {
          continue;
        }
        NoteBreaker(p.id, turn.ended, turn.reply);
        log := log + [Call(p.id, turn.at, turn.ended, turn.reply)];
        if turn.reply.Answered? {
          return Some(k - 1);
        }
      }
      return None;
    }

    method Classify(now: int, id: string, turn: Turn) returns (answered: bool)
      modifies this
      ensures Now() == ClassifiedBy(old(Now()), limits, now, id, turn)
      ensures answered <==> !Open(BreakerOf(old(breakers), id), now) && !OverBudget(old(log), now, limits)
                            && turn.reply.Answered?
    {
      if Open(BreakerOf(breakers, id), now) {
        return false;
      }
      var over := BudgetReached(now);
      if over {
        log := log + [Refusal(now)];
        return false;
      }
      NoteBreaker(id, turn.ended, turn.reply);
      log := log + [Call(id, turn.at, turn.ended, turn.reply)];
      return turn.reply.Answered?;
    }
  }

  // ---------------------------------------------------------------------
  // Runs on a clock that does not go back
  // ---------------------------------------------------------------------

  datatype Op =
    | DoComplete(now: int, chain: seq<Provider>, turns: seq<Turn>)
    | DoClassify(now: int, id: string, turn: Turn)

  predicate Ordered(now: int, turns: seq<Turn>)
    decreases |turns|
  {
    turns == [] || (now <= turns[0].at <= turns[0].ended && Ordered(turns[0].ended, turns[1..]))
  }

  function Latest(log: seq<Entry>, start: int): int {
    if log == [] then start else log[|log| - 1].ts
  }

  /** The operation is well formed and happens after everything in the journal. */
  predicate Timely(g: Gateway, op: Op) {
    match op
    case DoComplete(now, chain, turns) =>
      |turns| == |chain| && Latest(g.log, now) <= now && Ordered(now, turns)
    case DoClassify(now, id, turn) => Latest(g.log, now) <= now <= turn.at <= turn.ended
  }

  function Step(g: Gateway, limits: Limits, op: Op): Gateway
    requires Timely(g, op)
  {
    match op
    case DoComplete(now, chain, turns) => Completed(g, limits, now, chain, turns)
    case DoClassify(now, id, turn) => ClassifiedBy(g, limits, now, id, turn)
  }

  /** states is a run of the gateway under the given operations. */
  ghost predicate IsRun(limits: Limits, ops: seq<Op>, states: seq<Gateway>) {
    && |states| == |ops| + 1 && states[0] == Gateway([], map[])
    && forall i :: 0 <= i < |ops| ==> RunsAt(limits, ops, states, i)
  }

  predicate RunsAt(limits: Limits, ops: seq<Op>, states: seq<Gateway>, i: nat)
    requires i < |ops| && |states| == |ops| + 1
  {
    Timely(states[i], ops[i]) && states[i + 1] == Step(states[i], limits, ops[i])
  }

  lemma {:induction false} RunPrefix(limits: Limits, ops: seq<Op>, states: seq<Gateway>)
    requires IsRun(limits, ops, states) && ops != []
    ensures IsRun(limits, ops[..|ops| - 1], states[..|ops|])
    ensures RunsAt(limits, ops, states, |ops| - 1)
  {
    var n := |ops| - 1;
    var before, reached := ops[..n], states[..n + 1];
    forall i | 0 <= i < n ensures RunsAt(limits, before, reached, i) {
      assert RunsAt(limits, ops, states, i);
    }
  }

  // ---------------------------------------------------------------------
  // The hourly and the daily budget
  // ---------------------------------------------------------------------

  predicate SortedLog(log: seq<Entry>) {
    forall i, j :: 0 <= i <= j < |log| ==> log[i].ts <= log[j].ts
  }

  /** Provider calls journalled in the span of time that ends at t. */
  function CallsWithin(log: seq<Entry>, t: int, span: int): nat {
    if log == [] then 0
    else CallsWithin(log[..|log| - 1], t, span)
         + if log[|log| - 1].Call? && t - span <= log[|log| - 1].ts <= t then 1 else 0
  }

  lemma {:induction false} CallsAreCounted(log: seq<Entry>, t: int, span: int, since: int)
    requires since <= t - span
    ensures CallsWithin(log, t, span) <= CountSince(log, since)
  {
    if log != [] {
      CallsAreCounted(log[..|log| - 1], t, span, since);
    }
  }

  /** What one operation writes: rows no earlier than its clock, in order. */
  ghost predicate Extends(before: seq<Entry>, after: seq<Entry>, now: int, most: nat) {
    && |before| <= |after| <= |before| + most && after[..|before|] == before
    && (forall i :: |before| <= i < |after| ==> after[i].ts >= now)
    && forall i, j :: |before| <= i <= j < |after| ==> after[i].ts <= after[j].ts
  }

  lemma {:induction false} WalkExtends(g: Gateway, chain: seq<Provider>, turns: seq<Turn>, now: int)
    requires |turns| == |chain| && Ordered(now, turns)
    ensures Extends(g.log, Walked(g, chain, turns).log, now, |chain|)
    decreases |chain|
  {
    if chain != [] {
      if Skipped(g, chain[0], turns[0]) {
        WalkExtends(g, chain[1..], turns[1..], turns[0].ended);
      } else {
        var asked := Asked(g, chain[0].id, turns[0]);
        if !turns[0].reply.Answered? {
          WalkExtends(asked, chain[1..], turns[1..], turns[0].ended);
          var after := Walked(asked, chain[1..], turns[1..]).log;
          assert after[|g.log|] == after[..|asked.log|][|g.log|] == asked.log[|g.log|];
          assert after[..|g.log|] == asked.log[..|g.log|];
        }
      }
    }
  }

  lemma {:induction false} CallsSplit(before: seq<Entry>, after: seq<Entry>, t: int, span: int)
    requires |before| <= |after| && after[..|before|] == before
    ensures CallsWithin(after, t, span) <= CallsWithin(before, t, span) + |after| - |before|
    ensures (forall i :: |before| <= i < |after| ==> after[i].ts > t) ==>
              CallsWithin(after, t, span) == CallsWithin(before, t, span)
    decreases |after|
  {
    if |after| > |before| {
      var shorter := after[..|after| - 1];
      assert shorter[..|before|] == before;
      CallsSplit(before, shorter, t, span);
    } else {
      assert after == before;
    }
  }

  ghost predicate SpanBound(log: seq<Entry>, span: int, bound: int) {
    forall t :: CallsWithin(log, t, span) <= bound
  }

  /** Longest chain that a run of operations walks; the structured path asks one. */
  predicate ChainsWithin(op: Op, most: nat) {
    1 <= most && (op.DoComplete? ==> |op.chain| <= most)
  }

  lemma {:induction false} ExtensionStaysSorted(before: seq<Entry>, after: seq<Entry>, now: int, most: nat)
    requires SortedLog(before) && Extends(before, after, now, most)
    requires forall i :: 0 <= i < |before| ==> before[i].ts <= now
    ensures SortedLog(after)
  {
    assert forall i :: 0 <= i < |before| ==> after[i] == after[..|before|][i] == before[i];
  }

  lemma {:induction false} StepExtends(g: Gateway, limits: Limits, op: Op, most: nat)
    requires Timely(g, op) && ChainsWithin(op, most)
    ensures var after := Step(g, limits, op).log;
            && Extends(g.log, after, op.now, most)
            && (OverBudget(g.log, op.now, limits) ==> forall i :: |g.log| <= i < |after| ==> after[i].Refusal?)
  {
    if op.DoComplete? && !OverBudget(g.log, op.now, limits) {
      WalkExtends(g, op.chain, op.turns, op.now);
    }
  }

  /** A log extended within the budget keeps the bound: an hour that reaches past the
      operation's clock holds at most what the budget had seen and what was added. */
  lemma {:induction false} WithinBudgetKeepsBound(before: seq<Entry>, after: seq<Entry>, now: int, most: nat,
                                                  span: int, limit: int)
    requires Extends(before, after, now, most) && CountSince(before, now - span) < limit
    requires SpanBound(before, span, most - 1 + limit)
    ensures SpanBound(after, span, most - 1 + limit)
  {
    forall t
      ensures CallsWithin(after, t, span) <= most - 1 + limit
    {
      CallsSplit(before, after, t, span);
      if t >= now {
        CallsAreCounted(before, t, span, t - span);
        CountShrinks(before, now - span, t - span);
      }
    }
  }

  lemma {:induction false} RefusedKeepsBound(before: seq<Entry>, after: seq<Entry>, span: int, bound: int)
    requires |before| <= |after| && after[..|before|] == before && SpanBound(before, span, bound)
    requires forall i :: |before| <= i < |after| ==> after[i].Refusal?
    ensures SpanBound(after, span, bound)
  {
    forall t
      ensures CallsWithin(after, t, span) <= bound
    {
      RefusalsAreNotCalls(before, after, t, span);
    }
  }

  /** The journal holds at most the hourly and at most the daily maximum of calls, each less
      one plus the longest chain, in every trailing hour and every trailing day. */
  ghost predicate WithinLimits(log: seq<Entry>, limits: Limits, most: nat) {
    SpanBound(log, HOUR, most - 1 + limits.perHour) && SpanBound(log, DAY, most - 1 + limits.perDay)
  }

  lemma {:induction false} StepKeepsLimits(g: Gateway, limits: Limits, op: Op, most: nat)
    requires Timely(g, op) && ChainsWithin(op, most)
    requires SortedLog(g.log) && WithinLimits(g.log, limits, most)
    ensures SortedLog(Step(g, limits, op).log) && WithinLimits(Step(g, limits, op).log, limits, most)
  {
    var after := Step(g, limits, op).log;
    StepExtends(g, limits, op, most);
    ExtensionStaysSorted(g.log, after, op.now, most);
    if OverBudget(g.log, op.now, limits) {
      RefusedKeepsBound(g.log, after, HOUR, most - 1 + limits.perHour);
      RefusedKeepsBound(g.log, after, DAY, most - 1 + limits.perDay);
    } else {
      WithinBudgetKeepsBound(g.log, after, op.now, most, HOUR, limits.perHour);
      WithinBudgetKeepsBound(g.log, after, op.now, most, DAY, limits.perDay);
    }
  }

  lemma {:induction false} CountShrinks(log: seq<Entry>, a: int, b: int)
    requires a <= b
    ensures CountSince(log, b) <= CountSince(log, a)
  {
    if log != [] {
      CountShrinks(log[..|log| - 1], a, b);
    }
  }

  lemma {:induction false} RefusalsAreNotCalls(before: seq<Entry>, after: seq<Entry>, t: int, span: int)
    requires |before| <= |after| && after[..|before|] == before
    requires forall i :: |before| <= i < |after| ==> after[i].Refusal?
    ensures CallsWithin(after, t, span) == CallsWithin(before, t, span)
    decreases |after|
  {
    if |after| > |before| {
      var shorter := after[..|after| - 1];
      assert shorter[..|before|] == before;
      RefusalsAreNotCalls(before, shorter, t, span);
    } else {
      assert after == before;
    }
  }

  /** In every run, no trailing hour holds more provider calls than the hourly maximum less
      one plus the longest chain, and no trailing day more than the daily maximum less one
      plus the longest chain: only the last operation admitted can overshoot, and by at most
      its own chain. */
  lemma {:induction false} CallsAreBounded(limits: Limits, ops: seq<Op>, states: seq<Gateway>, most: nat)
    requires IsRun(limits, ops, states)
    requires 1 <= most && forall i :: 0 <= i < |ops| ==> ChainsWithin(ops[i], most)
    ensures SortedLog(states[|ops|].log) && WithinLimits(states[|ops|].log, limits, most)
  {
    if ops != [] {
      var n := |ops| - 1;
      RunPrefix(limits, ops, states);
      CallsAreBounded(limits, ops[..n], states[..n + 1], most);
      assert RunsAt(limits, ops, states, n);
      StepKeepsLimits(states[n], limits, ops[n], most);
    }
  }

  /** A budget is used up by what the journal holds of the last hour or the last day, calls
      and refusals alike. */
  lemma {:induction false} BudgetIsUsedUpIff(log: seq<Entry>, now: int, limits: Limits)
    ensures OverBudget(log, now, limits)
            <==> || |RowsSince(log, now - 3600 * 1_000_000_000)| >= limits.perHour
                 || |RowsSince(log, now - 86_400 * 1_000_000_000)| >= limits.perDay
  {
    CountIsRows(log, now - HOUR);
    CountIsRows(log, now - DAY);
  }

  function RowsSince(log: seq<Entry>, since: int): set<nat> {
    set i: nat | i < |log| && log[i].ts >= since
  }

  lemma {:induction false} CountIsRows(log: seq<Entry>, since: int)
    ensures CountSince(log, since) == |RowsSince(log, since)|
  {
    if log != [] {
      var n := |log| - 1;
      CountIsRows(log[..n], since);
      OneMoreRow(log, since);
    }
  }

  lemma {:induction false} OneMoreRow(log: seq<Entry>, since: int)
    requires log != []
    ensures var n := |log| - 1;
            n !in RowsSince(log[..n], since)
            && RowsSince(log, since) == RowsSince(log[..n], since) + if log[n].ts >= since then {n} else {}
  {
  }

  lemma {:induction false} RecentRowsCount(log: seq<Entry>, since: int, from: nat)
    requires from <= |log| && forall i :: from <= i < |log| ==> log[i].ts >= since
    ensures CountSince(log, since) >= |log| - from
    decreases |log|
  {
    if from < |log| {
      RecentRowsCount(log[..|log| - 1], since, from);
    }
  }

  /** Text is asked for again and again, each time within the given time of the one before,
      and each time something is journalled: a call, or a refusal. */
  ghost predicate AsksSteadily(ops: seq<Op>, states: seq<Gateway>, gap: int) {
    && |states| == |ops| + 1
    && forall i :: 0 <= i < |ops| ==> AskedAgain(ops, states, gap, i)
  }

  predicate AskedAgain(ops: seq<Op>, states: seq<Gateway>, gap: int, i: nat)
    requires i < |ops| && |states| == |ops| + 1
  {
    && ops[i].DoComplete? && |states[i + 1].log| > |states[i].log|
    && (i > 0 ==> ops[i].now - ops[i - 1].now <= gap)
  }

  lemma {:induction false} RowsOfTheLast(limits: Limits, ops: seq<Op>, states: seq<Gateway>, gap: int, i: nat, k: nat)
    requires IsRun(limits, ops, states) && AsksSteadily(ops, states, gap) && i <= k < |ops|
    ensures |states[k].log| - |states[i].log| >= k - i
    ensures forall r :: |states[i].log| <= r < |states[k].log| ==> states[k].log[r].ts >= ops[i].now
    ensures ops[k].now - ops[i].now <= (k - i) * gap
    decreases k
  {
    if i < k {
      RowsOfTheLast(limits, ops, states, gap, i, k - 1);
      assert AskedAgain(ops, states, gap, k - 1) && AskedAgain(ops, states, gap, k);
      assert RunsAt(limits, ops, states, k - 1);
      OpsAreInOrder(limits, ops, states, gap, i, k - 1);
      var before, after := states[k - 1].log, states[k].log;
      StepExtends(states[k - 1], limits, ops[k - 1], |ops[k - 1].chain| + 1);
      assert forall r :: 0 <= r < |before| ==> after[r] == after[..|before|][r] == before[r];
    }
  }

  lemma {:induction false} OpsAreInOrder(limits: Limits, ops: seq<Op>, states: seq<Gateway>, gap: int, i: nat, k: nat)
    requires IsRun(limits, ops, states) && AsksSteadily(ops, states, gap) && i <= k < |ops|
    ensures ops[i].now <= ops[k].now
    decreases k
  {
    if i < k {
      OpsAreInOrder(limits, ops, states, gap, i, k - 1);
      assert AskedAgain(ops, states, gap, k - 1);
      assert RunsAt(limits, ops, states, k - 1) && RunsAt(limits, ops, states, k);
      StepExtends(states[k - 1], limits, ops[k - 1], |ops[k - 1].chain| + 1);
    }
  }

  /** A refusal uses up the budget like a call. So a caller that asks steadily, at least as
      often as the hourly maximum allows, is served at first and then never again, however
      long the run: every request from the maximum on is refused, and no provider is called
      although a whole hour may pass without any call. */
  lemma {:induction false} SteadyCallersAreShutOut(limits: Limits, ops: seq<Op>, states: seq<Gateway>, gap: int, k: nat)
    requires IsRun(limits, ops, states) && AsksSteadily(ops, states, gap)
    requires limits.perHour * gap <= HOUR && limits.perHour <= k < |ops|
    ensures states[k + 1] == states[k].(log := states[k].log + [Refusal(ops[k].now)])
  {
    var i, log := k - limits.perHour, states[k].log;
    RowsOfTheLast(limits, ops, states, gap, i, k);
    RecentRowsCount(log, ops[k].now - HOUR, |states[i].log|);
    assert RunsAt(limits, ops, states, k) && AskedAgain(ops, states, gap, k);
  }

  // ---------------------------------------------------------------------
  // Backing off
  // ---------------------------------------------------------------------

  /** The calls a provider received, oldest first. */
  function CallsTo(log: seq<Entry>, id: string): (calls: seq<Entry>)
    ensures forall i :: 0 <= i < |calls| ==> calls[i].Call?
  {
    if log == [] then []
    else
      var last := log[|log| - 1];
      CallsTo(log[..|log| - 1], id) + if last.Call? && last.provider == id then [last] else []
  }

  /** The breaker a history of calls leaves behind. */
  function BreakerAfter(calls: seq<Entry>): Breaker
    requires forall i :: 0 <= i < |calls| ==> calls[i].Call?
  {
    if calls == [] then CLOSED
    else
      var n := |calls| - 1;
      Noted(BreakerAfter(calls[..n]), calls[n].ts, calls[n].reply)
  }

  /** No call started while the breaker its predecessors left was open. */
  ghost predicate Respectful(calls: seq<Entry>)
    requires forall i :: 0 <= i < |calls| ==> calls[i].Call?
  {
    forall k :: 0 <= k < |calls| ==> RespectsAt(calls, k)
  }

  predicate RespectsAt(calls: seq<Entry>, k: nat)
    requires k < |calls| && forall i :: 0 <= i < |calls| ==> calls[i].Call?
  {
    !Open(BreakerAfter(calls[..k]), calls[k].started) && calls[k].started <= calls[k].ts
  }

  ghost predicate Faithful(g: Gateway) {
    forall id :: BreakerOf(g.breakers, id) == BreakerAfter(CallsTo(g.log, id)) && Respectful(CallsTo(g.log, id))
  }

  lemma {:induction false} RespectfulGrows(calls: seq<Entry>, last: Entry)
    requires forall k :: 0 <= k < |calls| ==> calls[k].Call?
    requires Respectful(calls) && last.Call? && last.started <= last.ts
    requires !Open(BreakerAfter(calls), last.started)
    ensures Respectful(calls + [last])
    ensures BreakerAfter(calls + [last]) == Noted(BreakerAfter(calls), last.ts, last.reply)
  {
    var all := calls + [last];
    assert all[..|calls|] == calls;
    forall k | 0 <= k < |all|
      ensures RespectsAt(all, k)
    {
      if k < |calls| {
        assert RespectsAt(calls, k);
        assert all[..k] == calls[..k] && all[k] == calls[k];
      }
    }
  }

  lemma {:induction false} CallsToGrow(log: seq<Entry>, last: Entry, id: string)
    ensures CallsTo(log + [last], id)
            == CallsTo(log, id) + if last.Call? && last.provider == id then [last] else []
  {
    assert (log + [last])[..|log|] == log;
  }

  lemma {:induction false} AskedIsFaithful(g: Gateway, id: string, turn: Turn)
    requires Faithful(g) && !Open(BreakerOf(g.breakers, id), turn.at) && turn.at <= turn.ended
    ensures Faithful(Asked(g, id, turn))
  {
    var after, last := Asked(g, id, turn), Call(id, turn.at, turn.ended, turn.reply);
    forall other
      ensures BreakerOf(after.breakers, other) == BreakerAfter(CallsTo(after.log, other))
      ensures Respectful(CallsTo(after.log, other))
    {
      CallsToGrow(g.log, last, other);
      assert BreakerOf(g.breakers, other) == BreakerAfter(CallsTo(g.log, other));
      if other == id {
        RespectfulGrows(CallsTo(g.log, id), last);
      } else {
        assert CallsTo(after.log, other) == CallsTo(g.log, other);
      }
    }
  }

  lemma {:induction false} WalkIsFaithful(g: Gateway, chain: seq<Provider>, turns: seq<Turn>, now: int)
    requires Faithful(g) && |turns| == |chain| && Ordered(now, turns)
    ensures Faithful(Walked(g, chain, turns))
    decreases |chain|
  {
    if chain != [] {
      if Skipped(g, chain[0], turns[0]) {
        WalkIsFaithful(g, chain[1..], turns[1..], turns[0].ended);
      } else {
        AskedIsFaithful(g, chain[0].id, turns[0]);
        if !turns[0].reply.Answered? {
          WalkIsFaithful(Asked(g, chain[0].id, turns[0]), chain[1..], turns[1..], turns[0].ended);
        }
      }
    }
  }

  lemma {:induction false} RefusalIsFaithful(g: Gateway, now: int)
    requires Faithful(g)
    ensures Faithful(g.(log := g.log + [Refusal(now)]))
  {
    var after := g.(log := g.log + [Refusal(now)]);
    forall id
      ensures CallsTo(after.log, id) == CallsTo(g.log, id)
    {
      CallsToGrow(g.log, Refusal(now), id);
    }
  }

  lemma {:induction false} StepIsFaithful(g: Gateway, limits: Limits, op: Op)
    requires Faithful(g) && Timely(g, op)
    ensures Faithful(Step(g, limits, op))
  {
    if OverBudget(g.log, op.now, limits) {
      RefusalIsFaithful(g, op.now);
    } else if op.DoComplete? {
      WalkIsFaithful(g, op.chain, op.turns, op.now);
    } else if !Open(BreakerOf(g.breakers, op.id), op.now) {
      AskedIsFaithful(g, op.id, op.turn);
    }
  }

  /** In every run the stored breakers are exactly what the journal implies, and no
      call was made through an open one. */
  lemma {:induction false} RunsAreFaithful(limits: Limits, ops: seq<Op>, states: seq<Gateway>)
    requires IsRun(limits, ops, states)
    ensures Faithful(states[|ops|])
  {
    if ops != [] {
      var n := |ops| - 1;
      RunPrefix(limits, ops, states);
      RunsAreFaithful(limits, ops[..n], states[..n + 1]);
      assert RunsAt(limits, ops, states, n);
      StepIsFaithful(states[n], limits, ops[n]);
    }
  }

  /** How many of the calls were rate-limited. */
  function LimitedCalls(calls: seq<Entry>): nat
    requires forall i :: 0 <= i < |calls| ==> calls[i].Call?
  {
    if calls == [] then 0
    else LimitedCalls(calls[..|calls| - 1]) + if calls[|calls| - 1].reply.RateLimited? then 1 else 0
  }

  /** What a breaker counts, read off the calls: the rate-limited ones since the last answer.
      i is where the calls since the last answer begin. */
  lemma {:induction false} BreakerCountsTheStreak(calls: seq<Entry>, i: nat)
    requires i <= |calls| && forall k :: 0 <= k < |calls| ==> calls[k].Call?
    requires i > 0 ==> calls[i - 1].reply.Answered?
    requires forall k :: i <= k < |calls| ==> !calls[k].reply.Answered?
    ensures BreakerAfter(calls).failures == LimitedCalls(calls[i..])
    ensures BreakerAfter(calls).failures == 0 ==> BreakerAfter(calls) == CLOSED
    decreases |calls|
  {
    var n := |calls| - 1;
    if i < |calls| {
      BreakerCountsTheStreak(calls[..n], i);
      assert calls[i..][..n - i] == calls[..n][i..];
    }
  }

  /** ... and how long it stays open: from the latest rate-limited call, if nothing answered
      since, a minute, doubled for each one counted before it, up to an hour. Failures of
      any other kind change nothing. */
  lemma {:induction false} BreakerWaits(calls: seq<Entry>, k: nat)
    requires k < |calls| && forall j :: 0 <= j < |calls| ==> calls[j].Call?
    requires calls[k].reply.RateLimited? && forall j :: k < j < |calls| ==> calls[j].reply.Failed?
    ensures var b := BreakerAfter(calls);
            && b.failures == BreakerAfter(calls[..k]).failures + 1
            && var doubled := 60 * Pow2(b.failures - 1);
               b.openUntil == calls[k].ts + Ns(if doubled <= 3600 then doubled else 3600)
    decreases |calls|
  {
    var n := |calls| - 1;
    if k < n {
      BreakerWaits(calls[..n], k);
      assert calls[..n][..k] == calls[..k];
    }
  }

  lemma {:induction false} WaitGrows(f: nat, g: nat)
    requires 0 < f <= g
    ensures WaitSec(f) <= WaitSec(g)
    decreases g
  {
    if f < g {
      WaitGrows(f, g - 1);
    }
  }

  /** The least time n back-offs in a row take, from a closed breaker. */
  function LeastSpan(n: nat): int {
    if n == 0 then 0 else LeastSpan(n - 1) + WaitSec(n)
  }

  lemma {:induction false} LeastSpanBound(n: nat)
    ensures (n + 1) * 3600 <= LeastSpan(n) + 21420
  {
    if n <= 6 {
      assert Pow2(0) == 1 && Pow2(1) == 2 && Pow2(2) == 4 && Pow2(3) == 8 && Pow2(4) == 16 && Pow2(5) == 32;
      assert WaitSec(1) == 60 && WaitSec(2) == 120 && WaitSec(3) == 240 && WaitSec(4) == 480
             && WaitSec(5) == 960 && WaitSec(6) == 1920;
      assert LeastSpan(0) == 0 && LeastSpan(1) == 60 && LeastSpan(2) == 180 && LeastSpan(3) == 420;
      assert LeastSpan(4) == 900 && LeastSpan(5) == 1860 && LeastSpan(6) == 3780;
    } else {
      LeastSpanBound(n - 1);
      LateWaitsAreAnHour(n);
    }
  }

  lemma {:induction false} LateWaitsAreAnHour(n: nat)
    requires n >= 7
    ensures WaitSec(n) == 3600
  {
    if n == 7 {
      assert Pow2(6) == 2 * Pow2(5) == 4 * Pow2(4) == 8 * Pow2(3) == 16 * Pow2(2) == 32 * Pow2(1) == 64;
    } else {
      LateWaitsAreAnHour(n - 1);
    }
  }

  /** Calls i..j of one provider, all but perhaps the last rate-limited. */
  ghost predicate RateLimitedRun(calls: seq<Entry>, i: nat, j: nat)
    requires forall k :: 0 <= k < |calls| ==> calls[k].Call?
  {
    i <= j < |calls| && forall k :: i <= k < j ==> calls[k].reply.RateLimited?
  }

  lemma {:induction false} FailuresCount(calls: seq<Entry>, i: nat, j: nat)
    requires forall k :: 0 <= k < |calls| ==> calls[k].Call?
    requires RateLimitedRun(calls, i, j)
    ensures BreakerAfter(calls[..j]).failures == BreakerAfter(calls[..i]).failures + (j - i)
  {
    if i < j {
      FailuresCount(calls, i, j - 1);
      assert calls[..j][..j - 1] == calls[..j - 1];
    }
  }

  lemma {:induction false} RunsTakeTime(calls: seq<Entry>, i: nat, j: nat)
    requires forall k :: 0 <= k < |calls| ==> calls[k].Call?
    requires Respectful(calls) && RateLimitedRun(calls, i, j)
    ensures calls[j].started - calls[i].started >= Ns(LeastSpan(j - i))
  {
    if i < j {
      RunsTakeTime(calls, i, j - 1);
      OneWait(calls, i, j);
      assert LeastSpan(j - i) == LeastSpan(j - 1 - i) + WaitSec(j - i);
    }
  }

  /** The call after the k-th rate-limited one in a row waits at least the k-th delay. */
  lemma {:induction false} OneWait(calls: seq<Entry>, i: nat, j: nat)
    requires forall k :: 0 <= k < |calls| ==> calls[k].Call?
    requires Respectful(calls) && RateLimitedRun(calls, i, j) && i < j
    ensures calls[j].started - calls[j - 1].started >= Ns(WaitSec(j - i))
  {
    FailuresCount(calls, i, j - 1);
    NextBreaker(calls, j);
    WaitGrows(j - i, BreakerAfter(calls[..j - 1]).failures + 1);
    assert RespectsAt(calls, j) && RespectsAt(calls, j - 1);
  }

  lemma {:induction false} NextBreaker(calls: seq<Entry>, j: nat)
    requires forall k :: 0 <= k < |calls| ==> calls[k].Call?
    requires 0 < j <= |calls|
    ensures BreakerAfter(calls[..j])
            == Noted(BreakerAfter(calls[..j - 1]), calls[j - 1].ts, calls[j - 1].reply)
  {
    assert calls[..j][..j - 1] == calls[..j - 1];
  }

  /** Under uninterrupted rate-limit answers a provider is asked at most 5.95 + T/3600
      times in any T seconds, whatever state the breaker started from. */
  lemma {:induction false} BackOffBoundsTraffic(limits: Limits, ops: seq<Op>, states: seq<Gateway>,
                                                id: string, i: nat, j: nat)
    requires IsRun(limits, ops, states)
    requires RateLimitedRun(CallsTo(states[|ops|].log, id), i, j)
    ensures var calls := CallsTo(states[|ops|].log, id);
            Ns((j - i + 1) * 3600) <= calls[j].started - calls[i].started + Ns(21420)
  {
    RunsAreFaithful(limits, ops, states);
    RunsTakeTime(CallsTo(states[|ops|].log, id), i, j);
    SpanBoundsTheCount(j - i);
  }

  lemma {:induction false} SpanBoundsTheCount(n: nat)
    ensures Ns((n + 1) * 3600) <= Ns(LeastSpan(n)) + Ns(21420)
  {
    LeastSpanBound(n);
  }

  lemma {:induction false} LateSpan(n: nat)
    requires n >= 6
    ensures LeastSpan(n) == (n + 1) * 3600 - 21420
  {
    if n == 6 {
      LeastSpanBound(6);
      assert Pow2(0) == 1 && Pow2(1) == 2 && Pow2(2) == 4 && Pow2(3) == 8 && Pow2(4) == 16 && Pow2(5) == 32;
      assert LeastSpan(3) == 420 && LeastSpan(6) == LeastSpan(3) + 480 + 960 + 1920;
    } else {
      LateSpan(n - 1);
      LateWaitsAreAnHour(n);
    }
  }

  // The fastest traffic the breaker allows: asked again the moment it may be, and
  // rate-limited at once every time.

  function FastCall(id: string, k: nat): Entry {
    Call(id, Ns(LeastSpan(k)), Ns(LeastSpan(k)), RateLimited)
  }

  function FastLog(id: string, n: nat): (log: seq<Entry>)
    ensures |log| == n && forall k :: 0 <= k < n ==> log[k] == FastCall(id, k)
  {
    seq(n, k requires 0 <= k < n => FastCall(id, k))
  }

  function FastState(id: string, n: nat): Gateway {
    Gateway(FastLog(id, n),
            if n == 0 then map[] else map[id := Breaker(n, Ns(LeastSpan(n)))])
  }

  function FastOp(id: string, k: nat): Op {
    DoClassify(Ns(LeastSpan(k)), id, Turn(Ns(LeastSpan(k)), Ns(LeastSpan(k)), RateLimited))
  }

  lemma {:induction false} FastStep(limits: Limits, id: string, k: nat)
    requires k < limits.perHour && k < limits.perDay
    ensures Timely(FastState(id, k), FastOp(id, k))
    ensures Step(FastState(id, k), limits, FastOp(id, k)) == FastState(id, k + 1)
  {
    var g, turn := FastState(id, k), Turn(Ns(LeastSpan(k)), Ns(LeastSpan(k)), RateLimited);
    assert LeastSpan(k + 1) == LeastSpan(k) + WaitSec(k + 1);
    assert k > 0 ==> LeastSpan(k) == LeastSpan(k - 1) + WaitSec(k);
    assert FastLog(id, k + 1) == FastLog(id, k) + [FastCall(id, k)];
    assert BreakerOf(g.breakers, id).failures == k && !Open(BreakerOf(g.breakers, id), Ns(LeastSpan(k)));
    assert Asked(g, id, turn).breakers == FastState(id, k + 1).breakers;
  }

  lemma {:induction false} FastLogIsTheCalls(id: string, n: nat)
    ensures CallsTo(FastLog(id, n), id) == FastLog(id, n)
  {
    if n > 0 {
      FastLogIsTheCalls(id, n - 1);
      CallsToGrow(FastLog(id, n - 1), FastCall(id, n - 1), id);
      FastLogGrows(id, n - 1);
    }
  }

  lemma {:induction false} FastLogGrows(id: string, n: nat)
    ensures FastLog(id, n + 1) == FastLog(id, n) + [FastCall(id, n)]
  {
  }

  /** The bound is attained: for every n from six on, and any budget that admits n + 1
      calls, some run asks one provider n + 1 times in a row, rate-limited each time, in
      exactly the least time the bound allows. */
  lemma {:induction false} BackOffBoundIsAttained(limits: Limits, id: string, n: nat)
    returns (ops: seq<Op>, states: seq<Gateway>)
    requires n >= 6 && n < limits.perHour && n < limits.perDay
    ensures IsRun(limits, ops, states)
    ensures var calls := CallsTo(states[|ops|].log, id);
            && |calls| == n + 1 && RateLimitedRun(calls, 0, n)
            && calls[n].started - calls[0].started == Ns((n + 1) * 3600 - 21420)
  {
    ops := seq(n + 1, k requires 0 <= k <= n => FastOp(id, k));
    states := seq(n + 2, k requires 0 <= k <= n + 1 => FastState(id, k));
    forall k | 0 <= k < |ops|
      ensures RunsAt(limits, ops, states, k)
    {
      FastStep(limits, id, k);
    }
    FastLogIsTheCalls(id, n + 1);
    LateSpan(n);
  }
}
