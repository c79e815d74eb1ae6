/** The entry loop of the agent: every candidate is judged by the risk engine on a
    context that is rebuilt after each order that may be live. */
module EntryLoop {
  import opened Common
  import OM = OrderManager

  /** The engine's frequency limits; spacing is in nanoseconds. */
  datatype Limits = Limits(day: nat, week: nat, year: nat, spacing: int)

  /** The venue day, week and year the counters count. */
  datatype Keys = Keys(day: Option<int>, week: Option<(int, int)>, year: Option<int>)

  /** What the agent itself knows: its order book, frequency counters, the time of its
      last entry, the periods it counts, and whether it is halted. */
  datatype State = State(book: OM.Book, day: nat, week: nat, year: nat, lastEntry: Option<int>,
                         keys: Keys, halted: bool)

  /** What the state file holds of the frequency rules. */
  datatype Ledger = Ledger(day: nat, week: nat, year: nat, lastEntry: Option<int>, keys: Keys)

  const NO_ENTRIES := Ledger(0, 0, 0, None, Keys(None, None, None))

  function LedgerOf(s: State): Ledger {
    Ledger(s.day, s.week, s.year, s.lastEntry, s.keys)
  }

  /** A start: the ledger as it was saved over an empty order book. */
  function Restored(saved: Ledger, halted: bool): State {
    State(OM.Book(map[], {}), saved.day, saved.week, saved.year, saved.lastEntry, saved.keys, halted)
  }

  /** The part of the risk context the frequency and halt rules read. stop: the kill
      switch is engaged or the drawdown is at its limit. */
  datatype Context = Context(now: int, day: nat, week: nat, year: nat, lastEntry: Option<int>,
                             unresolved: nat, halted: bool, stop: bool)

  /** One signal and everything the world answers while it is handled. */
  datatype Candidate = Candidate(
    id: string, instrument: string,
    actionable: bool,       // priced, passed by the meta-label gate, well-formed
    otherRules: bool,       // no other rule of the engine vetoes it
    sized: bool,            // the lots left by the caution reach the minimum
    automatic: bool,        // the mode sends it rather than proposing or queueing it
    reply: OM.Reply, query: OM.Query,
    enteredAt: int,         // the clock when the entry is recorded
    rebuiltAt: int, stop: bool,         // what a rebuilt context would see
    bookMismatch: bool)     // the venue's positions contradict the agent's record

  datatype Verdict = Skipped | Vetoed(halting: bool) | Sent(outcome: OM.Outcome)

  /** One judgement: the agent before it, the context judged on, and the agent after. */
  datatype Step = Step(before: State, ctx: Context, c: Candidate, verdict: Verdict, after: State)

  function UnknownIds(b: OM.Book): set<string> {
    set id | id in b.orders && b.orders[id].state.Unknown?
  }

  function BuildContext(s: State, now: int, stop: bool): Context {
    Context(now, s.day, s.week, s.year, s.lastEntry, |UnknownIds(s.book)|, s.halted, stop)
  }

  predicate Halting(ctx: Context) {
    ctx.halted || ctx.stop
  }

  predicate Spaced(lim: Limits, ctx: Context) {
    ctx.lastEntry.Some? ==> ctx.now - ctx.lastEntry.value >= lim.spacing
  }

  predicate Approved(lim: Limits, ctx: Context, c: Candidate) {
    && !Halting(ctx) && ctx.unresolved == 0
    && ctx.day < lim.day && ctx.week < lim.week && ctx.year < lim.year
    && Spaced(lim, ctx) && c.otherRules
  }

  /** Orders the venue holds or may hold. */
  predicate MayBeLive(s: OM.OrderState) {
    s.Filled? || s.Partial? || s.Acked? || s.Unknown?
  }

  /** An order that may be live consumes the frequency budget. */
  function Counted(s: State, at: int): State {
    s.(day := s.day + 1, week := s.week + 1, year := s.year + 1, lastEntry := Some(at))
  }

  predicate Counts(v: Verdict) {
    v.Sent? && v.outcome.Settled? && MayBeLive(v.outcome.state)
  }

  function Executed(s: State, c: Candidate): State {
    var sub := OM.Submitted(s.book, c.id, c.instrument, c.reply, c.query);
    var sent := s.(book := sub.book);
    if Counts(Sent(sub.outcome)) then Counted(sent, c.enteredAt) else sent
  }

  function Judge(lim: Limits, ctx: Context, s: State, c: Candidate): Verdict {
    if !c.actionable then Skipped
    else if !Approved(lim, ctx, c) then Vetoed(Halting(ctx))
    else if !c.sized || !c.automatic then Skipped
    else Sent(OM.Submitted(s.book, c.id, c.instrument, c.reply, c.query).outcome)
  }

  function Acted(lim: Limits, s: State, ctx: Context, c: Candidate): Step {
    var v := Judge(lim, ctx, s, c);
    Step(s, ctx, c, v, if v.Sent? then Executed(s, c)
                       else if v == Vetoed(true) then s.(halted := true) else s)
  }

  /** Hydrating the venue's positions halts an agent whose record contradicts them. */
  function Hydrated(s: State, c: Candidate): State {
    if c.bookMismatch then s.(halted := true) else s
  }

  /** What a judgement hands on: the agent and the context for the next candidate. */
  function Onward(step: Step): (State, Context) {
    if Counts(step.verdict) then
      var next := Hydrated(step.after, step.c);
      (next, BuildContext(next, step.c.rebuiltAt, step.c.stop))
    else (step.after, step.ctx)
  }

  /** A cycle's judgements in order. An exception ends the cycle. */
  function Cycle(lim: Limits, s: State, ctx: Context, cs: seq<Candidate>): seq<Step>
    decreases |cs|
  {
    if cs == [] then []
    else
      var step := Acted(lim, s, ctx, cs[0]);
      if step.verdict == Sent(OM.Illegal) then [step]
      else [step] + Cycle(lim, Onward(step).0, Onward(step).1, cs[1..])
  }

  function Final(lim: Limits, s: State, ctx: Context, cs: seq<Candidate>): State
    decreases |cs|
  {
    if cs == [] then s
    else
      var step := Acted(lim, s, ctx, cs[0]);
      if step.verdict == Sent(OM.Illegal) then step.after
      else Final(lim, Onward(step).0, Onward(step).1, cs[1..])
  }

  /** The part of a cycle after its first judgement. */
  function Rest(lim: Limits, step: Step, cs: seq<Candidate>): seq<Step> {
    if step.verdict == Sent(OM.Illegal) then [] else Cycle(lim, Onward(step).0, Onward(step).1, cs)
  }

  function RestFinal(lim: Limits, step: Step, cs: seq<Candidate>): State {
    if step.verdict == Sent(OM.Illegal) then step.after else Final(lim, Onward(step).0, Onward(step).1, cs)
  }

  function VerdictsOf(steps: seq<Step>): seq<Verdict> {
    seq(|steps|, k requires 0 <= k < |steps| => steps[k].verdict)
  }

  lemma {:induction false} VerdictsOfFirst(step: Step, rest: seq<Step>)
    ensures VerdictsOf([step] + rest) == [step.verdict] + VerdictsOf(rest)
  {
  }

  lemma {:induction false} CycleAt(lim: Limits, s: State, ctx: Context, cs: seq<Candidate>, i: nat)
    requires i < |cs|
    ensures var step := Acted(lim, s, ctx, cs[i]);
            && Cycle(lim, s, ctx, cs[i..]) == [step] + Rest(lim, step, cs[i + 1..])
            && Final(lim, s, ctx, cs[i..]) == RestFinal(lim, step, cs[i + 1..])
  {
    assert cs[i..][0] == cs[i] && cs[i..][1..] == cs[i + 1..];
    var step := Acted(lim, s, ctx, cs[i]);
    assert step.verdict == Sent(OM.Illegal) ==> [step] + [] == [step];
  }

  /** The agent and its state file. */
  datatype Durable = Durable(s: State, saved: Ledger)

  /** An entry that was counted is saved at once, and so is a halt. */
  predicate Saves(step: Step) {
    Counts(step.verdict) || (step.verdict == Vetoed(true) && !step.before.halted)
  }

  /** What the file holds after one judgement, and after a cycle of them. */
  function WrittenBy(saved: Ledger, step: Step): Ledger {
    if Saves(step) then LedgerOf(step.after) else saved
  }

  function Written(saved: Ledger, steps: seq<Step>): Ledger
    decreases |steps|
  {
    if steps == [] then saved else Written(WrittenBy(saved, steps[0]), steps[1..])
  }

  lemma {:induction false} WrittenFirst(saved: Ledger, step: Step, rest: seq<Step>)
    ensures Written(saved, [step] + rest) == Written(WrittenBy(saved, step), rest)
  {
    assert ([step] + rest)[1..] == rest;
  }

  function HaltSaved(saved: Ledger, s: State, halts: bool): Ledger {
    if halts && !s.halted then LedgerOf(s) else saved
  }

  class Agent {
    const limits: Limits
    const oms: OM.Manager
    var tradesToday: nat
    var tradesWeek: nat
    var tradesYear: nat
    var lastEntryNs: Option<int>
    var halted: bool
    var dayKey: Option<int>
    var weekKey: Option<(int, int)>
    var yearKey: Option<int>
    var saved: Ledger           // what the state file holds

    /** A start from the state file. */
    constructor (limits: Limits, oms: OM.Manager, saved: Ledger, halted: bool)
      requires oms.View() == OM.Book(map[], {})
      ensures this.limits == limits && this.oms == oms && this.saved == saved
      ensures View() == Restored(saved, halted)
    {
      this.limits, this.oms, this.saved, this.halted := limits, oms, saved, halted;
      tradesToday, tradesWeek, tradesYear, lastEntryNs := saved.day, saved.week, saved.year, saved.lastEntry;
      dayKey, weekKey, yearKey := saved.keys.day, saved.keys.week, saved.keys.year;
    }

    function View(): State
      reads this, oms
    {
      State(oms.View(), tradesToday, tradesWeek, tradesYear, lastEntryNs, Keys(dayKey, weekKey, yearKey), halted)
    }

    function Disk(): Durable
      reads this, oms
    {
      Durable(View(), saved)
    }

    method SaveState()
      modifies this`saved
      ensures saved == LedgerOf(View())
    {
      saved := Ledger(tradesToday, tradesWeek, tradesYear, lastEntryNs, Keys(dayKey, weekKey, yearKey));
    }

    method Rebuild(now: int, stop: bool) returns (ctx: Context)
      ensures ctx == BuildContext(View(), now, stop)
    {
      var unresolved := set id | id in oms.orders && oms.orders[id].state.Unknown?;
      assert unresolved == UnknownIds(oms.View());
      ctx := Context(now, tradesToday, tradesWeek, tradesYear, lastEntryNs, |unresolved|, halted, stop);
    }

    method Halt()
      modifies `halted, `saved
      ensures View() == old(View()).(halted := true)
      ensures saved == HaltSaved(old(saved), old(View()), true)
    {
      if !halted {
        halted := true;
        SaveState();
      }
    }

    method Execute(c: Candidate, replies: nat -> OM.Reply) returns (outcome: OM.Outcome)
      requires OM.LastReply(replies, 0, oms.maxRetries) == c.reply
      modifies this, oms
      ensures outcome == OM.Submitted(old(oms.View()), c.id, c.instrument, c.reply, c.query).outcome
      ensures View() == Executed(old(View()), c)
      ensures saved == if Counts(Sent(outcome)) then LedgerOf(View()) else old(saved)
    {
      outcome := oms.Submit(c.id, c.instrument, replies, c.query);
      if outcome.Settled? && MayBeLive(outcome.state) {
        tradesToday := tradesToday + 1;
        tradesWeek := tradesWeek + 1;
        tradesYear := tradesYear + 1;
        lastEntryNs := Some(c.enteredAt);
        SaveState();
      }
    }

    method ActOnSignal(ctx: Context, c: Candidate, replies: nat -> OM.Reply) returns (v: Verdict)
      requires OM.LastReply(replies, 0, oms.maxRetries) == c.reply
      modifies this, oms
      ensures Step(old(View()), ctx, c, v, View()) == Acted(limits, old(View()), ctx, c)
      ensures saved == WrittenBy(old(saved), Acted(limits, old(View()), ctx, c))
    {
      if !c.actionable {
        return Skipped;
      }
      if !Approved(limits, ctx, c) {
        if Halting(ctx) {
          Halt();
        }
        return Vetoed(Halting(ctx));
      }
      if !c.sized || !c.automatic {
        return Skipped;
      }
      var outcome := Execute(c, replies);
      v := Sent(outcome);
    }

    /** Evaluates every candidate, rebuilding the context after each order that may be
        live. The verdicts are those of the cycle's judgements, in order. */
    method ConsiderEntries(start: Context, cs: seq<Candidate>, replies: seq<nat -> OM.Reply>)
      returns (verdicts: seq<Verdict>)
      requires |replies| == |cs|
      requires forall i :: 0 <= i < |cs| ==> OM.LastReply(replies[i], 0, oms.maxRetries) == cs[i].reply
      modifies this, oms
      ensures verdicts == VerdictsOf(Cycle(limits, old(View()), start, cs))
      ensures View() == Final(limits, old(View()), start, cs)
      ensures saved == Written(old(saved), Cycle(limits, old(View()), start, cs))
    {
      verdicts := [];
      var ctx, i := start, 0;
      ghost var file := Written(saved, Cycle(limits, View(), start, cs));
      ghost var all, end := VerdictsOf(Cycle(limits, View(), start, cs)), Final(limits, View(), start, cs);
      while i < |cs|
        invariant 0 <= i <= |cs|
        invariant all == verdicts + VerdictsOf(Cycle(limits, View(), ctx, cs[i..]))
        invariant end == Final(limits, View(), ctx, cs[i..])
        invariant file == Written(saved, Cycle(limits, View(), ctx, cs[i..]))
      {
        ghost var step := Acted(limits, View(), ctx, cs[i]);
        CycleAt(limits, View(), ctx, cs, i);
        VerdictsOfFirst(step, Rest(limits, step, cs[i + 1..]));
        WrittenFirst(saved, step, Rest(limits, step, cs[i + 1..]));
        var v;
        v, ctx := Consider(ctx, cs[i], replies[i]);
        assert verdicts + ([v] + VerdictsOf(Rest(limits, step, cs[i + 1..])))
            == (verdicts + [v]) + VerdictsOf(Rest(limits, step, cs[i + 1..]));
        verdicts := verdicts + [v];
        if v == Sent(OM.Illegal) {
          return;
        }
        i := i + 1;
      }
    }

    /** Judges one candidate and leaves the context for the next. */
    method Consider(ctx: Context, c: Candidate, replies: nat -> OM.Reply) returns (v: Verdict, next: Context)
      requires OM.LastReply(replies, 0, oms.maxRetries) == c.reply
      modifies this, oms
      ensures var step := Acted(limits, old(View()), ctx, c);
              && v == step.verdict && (View(), next) == Onward(step)
              && saved == WrittenBy(old(saved), step)
    {
      next := ctx;
      v := ActOnSignal(ctx, c, replies);
      if Counts(v) {
        next := Refresh(c);
      }
    }

    /** A manual ticket or an accepted proposal: judged through the same engine on a context
        of its own, rebuilt after the venue's positions are read. A halting veto refuses it
        without halting the agent. */
    method JudgeTicket(now: int, stop: bool, c: Candidate, replies: nat -> OM.Reply) returns (v: Verdict)
      requires OM.LastReply(replies, 0, oms.maxRetries) == c.reply
      modifies this, oms
      ensures v == TicketStep(limits, old(View()), now, stop, c).verdict
      ensures Disk() == DurableNext(limits, old(Disk()), Ticket(now, stop, c))
    {
      if c.bookMismatch {
        Halt();
      }
      var ctx := Rebuild(now, stop);
      if !c.actionable {
        return Skipped;
      }
      if !Approved(limits, ctx, c) {
        return Vetoed(Halting(ctx));
      }
      if !c.sized || !c.automatic {
        return Skipped;
      }
      var outcome := Execute(c, replies);
      v := Sent(outcome);
    }

    /** Each budget starts again exactly when its own period key changes. */
    method RollPeriods(day: int, week: (int, int), year: int)
      modifies this
      ensures View() == old(View()).(day := if old(dayKey) == Some(day) then old(tradesToday) else 0,
                                     week := if old(weekKey) == Some(week) then old(tradesWeek) else 0,
                                     year := if old(yearKey) == Some(year) then old(tradesYear) else 0,
                                     keys := Keys(Some(day), Some(week), Some(year)))
      ensures Disk() == DurableNext(limits, old(Disk()), Roll(day, week, year))
    {
      var rolled := dayKey != Some(day) || weekKey != Some(week) || yearKey != Some(year);
      if dayKey != Some(day) {
        dayKey, tradesToday := Some(day), 0;
      }
      if weekKey != Some(week) {
        weekKey, tradesWeek := Some(week), 0;
      }
      if yearKey != Some(year) {
        yearKey, tradesYear := Some(year), 0;
      }
      if rolled {
        SaveState();
      }
    }

    /** Re-reads the venue's positions and rebuilds the context. */
    method Refresh(c: Candidate) returns (ctx: Context)
      modifies this
      ensures View() == Hydrated(old(View()), c)
      ensures ctx == BuildContext(View(), c.rebuiltAt, c.stop)
      ensures saved == HaltSaved(old(saved), old(View()), c.bookMismatch)
    {
      if c.bookMismatch {
        Halt();
      }
      ctx := Rebuild(c.rebuiltAt, c.stop);
    }
  }

  // ---------------------------------------------------------------------
  // One cycle
  // ---------------------------------------------------------------------

  /** The context shows the agent's own counters, last entry and unresolved orders, and
      vetoes everything once the agent is halted. */
  predicate Current(ctx: Context, s: State) {
    && (s.halted ==> Halting(ctx)) && (ctx.halted ==> s.halted)
    && ctx.day == s.day && ctx.week == s.week && ctx.year == s.year && ctx.lastEntry == s.lastEntry
    && ctx.unresolved == |UnknownIds(s.book)|
  }

  /** Whatever does not count leaves the counters and the unknown orders as they were,
      unless it raises. */
  lemma {:induction false} UncountedChangesNothing(lim: Limits, s: State, ctx: Context, c: Candidate)
    requires Current(ctx, s)
    ensures var step := Acted(lim, s, ctx, c);
            !Counts(step.verdict) && step.verdict != Sent(OM.Illegal) ==> Current(ctx, step.after)
  {
    var step := Acted(lim, s, ctx, c);
    if step.verdict.Sent? && step.verdict.outcome.Settled? && !MayBeLive(step.verdict.outcome.state) {
      var after := OM.Submitted(s.book, c.id, c.instrument, c.reply, c.query).book;
      if after != s.book {
        assert c.id !in s.book.orders;
        assert UnknownIds(after) == UnknownIds(s.book);
      }
    }
  }

  lemma {:induction false} OnwardIsCurrent(lim: Limits, s: State, ctx: Context, c: Candidate)
    requires Current(ctx, s)
    ensures var step := Acted(lim, s, ctx, c);
            step.verdict != Sent(OM.Illegal) ==> Current(Onward(step).1, Onward(step).0)
  {
    UncountedChangesNothing(lim, s, ctx, c);
  }

  /** Every candidate of a cycle is judged on the agent's own counters, last entry and
      number of unresolved orders at that moment, whatever the venue answers. */
  lemma {:induction false} JudgedOnCurrentCounters(lim: Limits, s: State, ctx: Context, cs: seq<Candidate>, k: nat)
    requires Current(ctx, s) && k < |Cycle(lim, s, ctx, cs)|
    ensures var step := Cycle(lim, s, ctx, cs)[k]; Current(step.ctx, step.before)
    decreases |cs|
  {
    var step := Acted(lim, s, ctx, cs[0]);
    if k > 0 {
      OnwardIsCurrent(lim, s, ctx, cs[0]);
      JudgedOnCurrentCounters(lim, Onward(step).0, Onward(step).1, cs[1..], k - 1);
    }
  }

  function Entries(steps: seq<Step>): nat {
    if steps == [] then 0 else (if Counts(steps[0].verdict) then 1 else 0) + Entries(steps[1..])
  }

  function Cap(used: nat, limit: nat): nat {
    if used < limit then limit - used else 0
  }

  /** A cycle takes no more entries than each cap leaves, and the counters account for
      exactly the entries taken. */
  lemma {:induction false} EntriesStayWithinTheCaps(lim: Limits, s: State, ctx: Context, cs: seq<Candidate>)
    requires Current(ctx, s)
    ensures var n := Entries(Cycle(lim, s, ctx, cs));
            && n <= Cap(s.day, lim.day) && n <= Cap(s.week, lim.week) && n <= Cap(s.year, lim.year)
            && Final(lim, s, ctx, cs).day == s.day + n
            && Final(lim, s, ctx, cs).week == s.week + n
            && Final(lim, s, ctx, cs).year == s.year + n
    decreases |cs|
  {
    if cs != [] {
      var step := Acted(lim, s, ctx, cs[0]);
      CycleAt(lim, s, ctx, cs, 0);
      assert cs[0..] == cs;
      var rest := Rest(lim, step, cs[1..]);
      assert ([step] + rest)[1..] == rest;
      CountedOnce(lim, s, ctx, cs[0]);
      if step.verdict != Sent(OM.Illegal) {
        OnwardIsCurrent(lim, s, ctx, cs[0]);
        EntriesStayWithinTheCaps(lim, Onward(step).0, Onward(step).1, cs[1..]);
      }
    }
  }

  lemma {:induction false} CountedOnce(lim: Limits, s: State, ctx: Context, c: Candidate)
    requires Current(ctx, s)
    ensures var step := Acted(lim, s, ctx, c);
            var n := if Counts(step.verdict) then 1 else 0;
            && n <= Cap(s.day, lim.day) && n <= Cap(s.week, lim.week) && n <= Cap(s.year, lim.year)
            && step.after.day == Onward(step).0.day == s.day + n
            && step.after.week == Onward(step).0.week == s.week + n
            && step.after.year == Onward(step).0.year == s.year + n
  {
  }

  /** The context vetoes everything. */
  predicate Closed(ctx: Context) {
    ctx.unresolved > 0 || Halting(ctx)
  }

  lemma {:induction false} ClosedStaysClosed(lim: Limits, s: State, ctx: Context, cs: seq<Candidate>, k: nat)
    requires Closed(ctx) && k < |Cycle(lim, s, ctx, cs)|
    ensures !Cycle(lim, s, ctx, cs)[k].verdict.Sent?
    decreases |cs|
  {
    if k > 0 {
      var step := Acted(lim, s, ctx, cs[0]);
      ClosedStaysClosed(lim, Onward(step).0, Onward(step).1, cs[1..], k - 1);
    }
  }

  /** After a judgement that leaves an order unresolved, or halts the agent, the context
      vetoes everything. */
  lemma {:induction false} UnknownCloses(lim: Limits, s: State, ctx: Context, c: Candidate)
    requires Current(ctx, s)
    requires var step := Acted(lim, s, ctx, c);
             step.verdict != Sent(OM.Illegal)
             && (UnknownIds(step.after.book) != {} || step.verdict == Vetoed(true))
    ensures Closed(Onward(Acted(lim, s, ctx, c)).1)
  {
    OnwardIsCurrent(lim, s, ctx, c);
  }

  /** Nothing is sent while an order is unresolved, and in one cycle nothing is sent
      after an order whose outcome is unknown, nor after the engine halts the agent. */
  lemma {:induction false} NothingFollowsAnUnknown(lim: Limits, s: State, ctx: Context, cs: seq<Candidate>,
                                                   j: nat, k: nat)
    requires Current(ctx, s) && j < k < |Cycle(lim, s, ctx, cs)|
    requires var step := Cycle(lim, s, ctx, cs)[j];
             UnknownIds(step.after.book) != {} || step.verdict == Vetoed(true)
    ensures !Cycle(lim, s, ctx, cs)[k].verdict.Sent?
    decreases |cs|
  {
    var step := Acted(lim, s, ctx, cs[0]);
    var (s', ctx') := Onward(step);
    if j > 0 {
      OnwardIsCurrent(lim, s, ctx, cs[0]);
      NothingFollowsAnUnknown(lim, s', ctx', cs[1..], j - 1, k - 1);
    } else {
      UnknownCloses(lim, s, ctx, cs[0]);
      ClosedStaysClosed(lim, s', ctx', cs[1..], k - 1);
    }
  }

  /** A newly sent order that the venue holds or may hold is counted, unless its
      submission raised: it timed out and the query then found it pending, acknowledged
      or cancelled. */
  lemma {:induction false} LiveOrdersAreCountedIff(s: State, c: Candidate)
    requires c.id !in s.book.orders && c.instrument !in s.book.quarantine
    ensures var after := Executed(s, c);
            && c.id in after.book.orders
            && (MayBeLive(after.book.orders[c.id].state) ==>
                  (after.day == s.day + 1 <==> !(c.reply.Timeout? && OM.Unsettling(c.query))))
            && (!MayBeLive(after.book.orders[c.id].state) ==> after.day == s.day)
  {
  }

  /** What an order spends, by what the venue said of it: everything but a rejection is
      counted, exhausted retries and failures nobody can explain included, and the one
      exception is the submission that raised. */
  lemma {:induction false} SpendsIff(s: State, c: Candidate)
    requires c.id !in s.book.orders && c.instrument !in s.book.quarantine
    ensures var after, heard := Executed(s, c), OM.Heard(c.reply, c.query);
            var spends := !c.reply.Permanent? && !OM.SaysRejected(heard)
                          && !(c.reply.Timeout? && OM.SaysOpen(heard));
            && after.day == s.day + (if spends then 1 else 0)
            && after.week == s.week + (if spends then 1 else 0)
            && after.year == s.year + (if spends then 1 else 0)
            && after.lastEntry == (if spends then Some(c.enteredAt) else s.lastEntry)
            && after.halted == s.halted && after.keys == s.keys
  {
    OM.NewOrderEnds(s.book, c.id, c.instrument, c.reply, c.query);
  }

  /** An order refused or already known spends nothing new: a refusal changes nothing at all. */
  lemma {:induction false} RefusalSpendsNothing(s: State, c: Candidate)
    requires c.instrument in s.book.quarantine
    ensures Executed(s, c) == s
  {
  }

  // ---------------------------------------------------------------------
  // Whole runs
  // ---------------------------------------------------------------------

  /** What happens to the agent: a cycle, a ticket or accepted proposal judged on its own
      context, a look at the venue's calendar, a resolution, a halt, a resume, and a crash
      with a restart, which comes up halted or not. A crash between two candidates is a
      cycle over the first of them followed by a restart. */
  datatype Event =
    | Loop(now: int, stop: bool, cs: seq<Candidate>)
    | Ticket(now: int, stop: bool, c: Candidate)
    | Roll(day: int, week: (int, int), year: int)
    | Resolve(id: string, query: OM.Query)
    | Halt | Resume
    | Restart(halted: bool)

  /** The judgement of a ticket. */
  function TicketStep(lim: Limits, s: State, now: int, stop: bool, c: Candidate): Step {
    Acted(lim, Hydrated(s, c), BuildContext(Hydrated(s, c), now, stop), c)
  }

  function StepsOf(lim: Limits, s: State, e: Event): seq<Step> {
    match e
    case Loop(now, stop, cs) => if s.halted then [] else Cycle(lim, s, BuildContext(s, now, stop), cs)
    case Ticket(now, stop, c) => [TicketStep(lim, s, now, stop, c)]
    case _ => []
  }

  function After(lim: Limits, s: State, e: Event): State {
    match e
    case Loop(now, stop, cs) => if s.halted then s else Final(lim, s, BuildContext(s, now, stop), cs)
    case Ticket(now, stop, c) =>
      var step := TicketStep(lim, s, now, stop, c);
      if step.verdict == Vetoed(true) then step.before else step.after
    case Roll(day, week, year) =>
      s.(day := if s.keys.day == Some(day) then s.day else 0,
         week := if s.keys.week == Some(week) then s.week else 0,
         year := if s.keys.year == Some(year) then s.year else 0,
         keys := Keys(Some(day), Some(week), Some(year)))
    case Resolve(id, q) => s.(book := OM.Next(s.book, OM.Resolve(id, q)))
    case Halt => s.(halted := true)
    case Resume => s.(halted := false)
    case Restart(halted) => Restored(LedgerOf(s), halted)
  }

  function Run(lim: Limits, s: State, es: seq<Event>): State
    decreases |es|
  {
    if es == [] then s else Run(lim, After(lim, s, es[0]), es[1..])
  }

  function Trace(lim: Limits, s: State, es: seq<Event>): seq<Step>
    decreases |es|
  {
    if es == [] then [] else StepsOf(lim, s, es[0]) + Trace(lim, After(lim, s, es[0]), es[1..])
  }

  ghost predicate IsJudgement(lim: Limits, step: Step) {
    step == Acted(lim, step.before, step.ctx, step.c) && Current(step.ctx, step.before)
  }

  /** Judgements in order, each taking over the last entry of the one before it. */
  ghost predicate Follows(lim: Limits, from: Option<int>, steps: seq<Step>, to: Option<int>)
    decreases |steps|
  {
    if steps == [] then from == to
    else
      && steps[0].before.lastEntry == from && IsJudgement(lim, steps[0])
      && Follows(lim, steps[0].after.lastEntry, steps[1..], to)
  }

  lemma {:induction false} FollowsConcat(lim: Limits, a: Option<int>, first: seq<Step>, b: Option<int>,
                                         second: seq<Step>, c: Option<int>)
    requires Follows(lim, a, first, b) && Follows(lim, b, second, c)
    ensures Follows(lim, a, first + second, c)
    decreases |first|
  {
    if first == [] {
      assert first + second == second;
    } else {
      FollowsConcat(lim, first[0].after.lastEntry, first[1..], b, second, c);
      assert (first + second)[1..] == first[1..] + second;
    }
  }

  lemma {:induction false} CycleFollows(lim: Limits, s: State, ctx: Context, cs: seq<Candidate>)
    requires Current(ctx, s)
    ensures Follows(lim, s.lastEntry, Cycle(lim, s, ctx, cs), Final(lim, s, ctx, cs).lastEntry)
    decreases |cs|
  {
    if cs != [] {
      var step := Acted(lim, s, ctx, cs[0]);
      CycleAt(lim, s, ctx, cs, 0);
      assert cs[0..] == cs;
      var rest := Rest(lim, step, cs[1..]);
      assert ([step] + rest)[1..] == rest;
      if step.verdict != Sent(OM.Illegal) {
        OnwardIsCurrent(lim, s, ctx, cs[0]);
        CycleFollows(lim, Onward(step).0, Onward(step).1, cs[1..]);
      }
    }
  }

  lemma {:induction false} EventFollows(lim: Limits, s: State, e: Event)
    ensures Follows(lim, s.lastEntry, StepsOf(lim, s, e), After(lim, s, e).lastEntry)
  {
    match e
    case Loop(now, stop, cs) => CycleFollows(lim, s, BuildContext(s, now, stop), cs);
    case Ticket(now, stop, c) =>
      var step := TicketStep(lim, s, now, stop, c);
      assert IsJudgement(lim, step);
      assert [step][1..] == [];
    case _ =>
  }

  lemma {:induction false} RunFollows(lim: Limits, s: State, es: seq<Event>)
    ensures Follows(lim, s.lastEntry, Trace(lim, s, es), Run(lim, s, es).lastEntry)
    decreases |es|
  {
    if es != [] {
      var next := After(lim, s, es[0]);
      EventFollows(lim, s, es[0]);
      RunFollows(lim, next, es[1..]);
      FollowsConcat(lim, s.lastEntry, StepsOf(lim, s, es[0]), next.lastEntry,
                    Trace(lim, next, es[1..]), Run(lim, s, es).lastEntry);
    }
  }

  lemma {:induction false} FollowsAt(lim: Limits, from: Option<int>, steps: seq<Step>, to: Option<int>, k: nat)
    requires Follows(lim, from, steps, to) && k < |steps|
    ensures IsJudgement(lim, steps[k])
    decreases |steps|
  {
    if k > 0 {
      FollowsAt(lim, steps[0].after.lastEntry, steps[1..], to, k - 1);
    }
  }

  /** In every run, an order is sent only when no order of the agent is unresolved and
      every frequency counter is below its cap. */
  lemma {:induction false} SentOnlyInTheClear(lim: Limits, s: State, es: seq<Event>, k: nat)
    requires k < |Trace(lim, s, es)| && Trace(lim, s, es)[k].verdict.Sent?
    ensures var before := Trace(lim, s, es)[k].before;
            && UnknownIds(before.book) == {}
            && before.day < lim.day && before.week < lim.week && before.year < lim.year
  {
    RunFollows(lim, s, es);
    FollowsAt(lim, s.lastEntry, Trace(lim, s, es), Run(lim, s, es).lastEntry, k);
  }

  /** Everything the agent, its mode, the engine and the size must agree to, written out. */
  predicate MaySend(lim: Limits, step: Step) {
    var s, c := step.before, step.c;
    && c.actionable && c.otherRules && c.sized && c.automatic
    && !s.halted && !step.ctx.stop
    && (forall id :: id in s.book.orders ==> !s.book.orders[id].state.Unknown?)
    && s.day < lim.day && s.week < lim.week && s.year < lim.year
    && (s.lastEntry.Some? ==> step.ctx.now >= s.lastEntry.value + lim.spacing)
  }

  lemma {:induction false} NoneUnknownIff(b: OM.Book)
    ensures |UnknownIds(b)| == 0 <==> forall id :: id in b.orders ==> !b.orders[id].state.Unknown?
  {
    if id :| id in b.orders && b.orders[id].state.Unknown? {
      assert id in UnknownIds(b);
    }
  }

  /** In every run, exactly when an order is sent: in an automatic mode, for an actionable
      signal of a size that reaches the minimum, which no rule vetoes, by an agent that is
      not halted, has no unresolved order, is within every cap and far enough from its last
      entry. */
  lemma {:induction false} SentIff(lim: Limits, s: State, es: seq<Event>, k: nat)
    requires k < |Trace(lim, s, es)|
    ensures Trace(lim, s, es)[k].verdict.Sent? <==> MaySend(lim, Trace(lim, s, es)[k])
  {
    RunFollows(lim, s, es);
    FollowsAt(lim, s.lastEntry, Trace(lim, s, es), Run(lim, s, es).lastEntry, k);
    NoneUnknownIff(Trace(lim, s, es)[k].before.book);
  }

  predicate HaltsAt(step: Step) {
    step.verdict == Vetoed(true) || (Counts(step.verdict) && step.c.bookMismatch)
  }

  predicate SomeHalts(steps: seq<Step>) {
    exists k :: 0 <= k < |steps| && HaltsAt(steps[k])
  }

  lemma {:induction false} SomeHaltsFirst(step: Step, rest: seq<Step>)
    ensures SomeHalts([step] + rest) <==> HaltsAt(step) || SomeHalts(rest)
  {
    var all := [step] + rest;
    if HaltsAt(step) {
      assert HaltsAt(all[0]);
    }
    if SomeHalts(rest) {
      var k :| 0 <= k < |rest| && HaltsAt(rest[k]);
      assert HaltsAt(all[k + 1]);
    }
    if SomeHalts(all) && !HaltsAt(step) {
      var k :| 0 <= k < |all| && HaltsAt(all[k]);
      assert HaltsAt(rest[k - 1]);
    }
  }

  lemma {:induction false} CycleHaltsIff(lim: Limits, s: State, ctx: Context, cs: seq<Candidate>)
    ensures Final(lim, s, ctx, cs).halted <==> s.halted || SomeHalts(Cycle(lim, s, ctx, cs))
    decreases |cs|
  {
    if cs != [] {
      var step := Acted(lim, s, ctx, cs[0]);
      CycleAt(lim, s, ctx, cs, 0);
      assert cs[0..] == cs;
      SomeHaltsFirst(step, Rest(lim, step, cs[1..]));
      if step.verdict != Sent(OM.Illegal) {
        CycleHaltsIff(lim, Onward(step).0, Onward(step).1, cs[1..]);
      }
    }
  }

  /** What halts an agent: a halting veto in a cycle, or a book that contradicts the venue
      where the positions are read; of a ticket only the latter. A halted agent judges no
      candidate of a cycle. */
  lemma {:induction false} HaltsIff(lim: Limits, s: State, e: Event)
    requires e.Loop? || e.Ticket?
    ensures After(lim, s, e).halted <==> s.halted || (if e.Loop? then SomeHalts(StepsOf(lim, s, e)) else e.c.bookMismatch)
    ensures e.Loop? && s.halted ==> StepsOf(lim, s, e) == [] && After(lim, s, e) == s
  {
    if e.Loop? && !s.halted {
      CycleHaltsIff(lim, s, BuildContext(s, e.now, e.stop), e.cs);
    }
  }

  predicate Ticking(steps: seq<Step>) {
    forall k :: 0 <= k < |steps| ==> steps[k].c.enteredAt >= steps[k].ctx.now
  }

  lemma {:induction false} FollowingEntriesAreLater(lim: Limits, from: Option<int>, steps: seq<Step>,
                                                    to: Option<int>, k: nat)
    requires Follows(lim, from, steps, to) && Ticking(steps) && lim.spacing >= 0 && from.Some?
    requires k < |steps| && Counts(steps[k].verdict)
    ensures steps[k].c.enteredAt >= from.value + lim.spacing
    decreases k
  {
    if k > 0 {
      FollowingEntriesAreLater(lim, steps[0].after.lastEntry, steps[1..], to, k - 1);
    }
  }

  lemma {:induction false} FollowsSpaced(lim: Limits, from: Option<int>, steps: seq<Step>, to: Option<int>,
                                         j: nat, k: nat)
    requires Follows(lim, from, steps, to) && Ticking(steps) && lim.spacing >= 0
    requires j < k < |steps| && Counts(steps[j].verdict) && Counts(steps[k].verdict)
    ensures steps[k].c.enteredAt >= steps[j].c.enteredAt + lim.spacing
    decreases j
  {
    if j == 0 {
      FollowingEntriesAreLater(lim, steps[0].after.lastEntry, steps[1..], to, k - 1);
    } else {
      FollowsSpaced(lim, steps[0].after.lastEntry, steps[1..], to, j - 1, k - 1);
    }
  }

  /** In every run over a clock that does not step back between a context and the entry
      it allows, any two entries are at least the configured spacing apart. */
  lemma {:induction false} EntriesAreSpaced(lim: Limits, s: State, es: seq<Event>, j: nat, k: nat)
    requires lim.spacing >= 0 && Ticking(Trace(lim, s, es)) && j < k < |Trace(lim, s, es)|
    requires Counts(Trace(lim, s, es)[j].verdict) && Counts(Trace(lim, s, es)[k].verdict)
    ensures Trace(lim, s, es)[k].c.enteredAt >= Trace(lim, s, es)[j].c.enteredAt + lim.spacing
  {
    RunFollows(lim, s, es);
    FollowsSpaced(lim, s.lastEntry, Trace(lim, s, es), Run(lim, s, es).lastEntry, j, k);
  }

  lemma {:induction false} EntriesConcat(a: seq<Step>, b: seq<Step>)
    ensures Entries(a + b) == Entries(a) + Entries(b)
    decreases |a|
  {
    if a == [] {
      assert a + b == b;
    } else {
      EntriesConcat(a[1..], b);
      assert (a + b)[1..] == a[1..] + b;
    }
  }

  predicate NewDay(s: State, e: Event) {
    e.Roll? && s.keys.day != Some(e.day)
  }

  predicate NewWeek(s: State, e: Event) {
    e.Roll? && s.keys.week != Some(e.week)
  }

  predicate NewYear(s: State, e: Event) {
    e.Roll? && s.keys.year != Some(e.year)
  }

  lemma {:induction false} CycleKeepsKeys(lim: Limits, s: State, ctx: Context, cs: seq<Candidate>)
    ensures Final(lim, s, ctx, cs).keys == s.keys
    decreases |cs|
  {
    if cs != [] {
      var step := Acted(lim, s, ctx, cs[0]);
      if step.verdict != Sent(OM.Illegal) {
        CycleKeepsKeys(lim, Onward(step).0, Onward(step).1, cs[1..]);
      }
    }
  }

  lemma {:induction false} EventEntries(lim: Limits, s: State, e: Event)
    ensures var n := Entries(StepsOf(lim, s, e));
            && n <= Cap(s.day, lim.day) && n <= Cap(s.week, lim.week) && n <= Cap(s.year, lim.year)
            && After(lim, s, e).day == (if NewDay(s, e) then 0 else s.day + n)
            && After(lim, s, e).week == (if NewWeek(s, e) then 0 else s.week + n)
            && After(lim, s, e).year == (if NewYear(s, e) then 0 else s.year + n)
    ensures !e.Roll? ==> After(lim, s, e).keys == s.keys
  {
    match e
    case Loop(now, stop, cs) =>
      EntriesStayWithinTheCaps(lim, s, BuildContext(s, now, stop), cs);
      CycleKeepsKeys(lim, s, BuildContext(s, now, stop), cs);
    case Ticket(now, stop, c) =>
      var step := TicketStep(lim, s, now, stop, c);
      assert [step][1..] == [];
      assert Entries([step]) == if Counts(step.verdict) then 1 else 0;
    case _ =>
  }

  /** The calendar shows one venue day, week or year throughout. */
  predicate WithinDay(es: seq<Event>, key: Option<int>) {
    forall e :: e in es && e.Roll? ==> Some(e.day) == key
  }

  predicate WithinWeek(es: seq<Event>, key: Option<(int, int)>) {
    forall e :: e in es && e.Roll? ==> Some(e.week) == key
  }

  predicate WithinYear(es: seq<Event>, key: Option<int>) {
    forall e :: e in es && e.Roll? ==> Some(e.year) == key
  }

  /** In every run that starts within the caps, restarts included, the counters stay within
      them, and in one venue day, week or year no more entries are taken than that period's
      cap leaves. */
  lemma {:induction false} BudgetsHoldOverRuns(lim: Limits, s: State, es: seq<Event>)
    requires s.day <= lim.day && s.week <= lim.week && s.year <= lim.year
    ensures var end := Run(lim, s, es);
            && end.day <= lim.day && end.week <= lim.week && end.year <= lim.year
            && (WithinDay(es, s.keys.day) ==> Entries(Trace(lim, s, es)) == end.day - s.day)
            && (WithinWeek(es, s.keys.week) ==> Entries(Trace(lim, s, es)) == end.week - s.week)
            && (WithinYear(es, s.keys.year) ==> Entries(Trace(lim, s, es)) == end.year - s.year)
    decreases |es|
  {
    if es != [] {
      var next := After(lim, s, es[0]);
      EventEntries(lim, s, es[0]);
      BudgetsHoldOverRuns(lim, next, es[1..]);
      EntriesConcat(StepsOf(lim, s, es[0]), Trace(lim, next, es[1..]));
      assert es[0] in es && forall e :: e in es[1..] ==> e in es;
    }
  }

  // ---------------------------------------------------------------------
  // The state file over runs
  // ---------------------------------------------------------------------

  /** The agent beside its file: a restart reads the file, and the file is written only
      where the agent saves. */
  function DurableNext(lim: Limits, d: Durable, e: Event): Durable {
    var s, after := d.s, After(lim, d.s, e);
    match e
    case Loop(now, stop, cs) => Durable(after, Written(d.saved, StepsOf(lim, s, e)))
    case Ticket(now, stop, c) =>
      var saved := HaltSaved(d.saved, s, c.bookMismatch);
      Durable(after, if Counts(TicketStep(lim, s, now, stop, c).verdict) then LedgerOf(after) else saved)
    case Roll(day, week, year) =>
      Durable(after, if NewDay(s, e) || NewWeek(s, e) || NewYear(s, e) then LedgerOf(after) else d.saved)
    case Resolve(_, _) => Durable(after, d.saved)
    case Halt => Durable(after, HaltSaved(d.saved, s, true))
    case Resume => Durable(after, if s.halted then LedgerOf(after) else d.saved)
    case Restart(halted) => Durable(Restored(d.saved, halted), d.saved)
  }

  function DurableRun(lim: Limits, d: Durable, es: seq<Event>): Durable
    decreases |es|
  {
    if es == [] then d else DurableRun(lim, DurableNext(lim, d, es[0]), es[1..])
  }

  /** The judgements of a run whose restarts read the file. */
  function DurableTrace(lim: Limits, d: Durable, es: seq<Event>): seq<Step>
    decreases |es|
  {
    if es == [] then [] else StepsOf(lim, d.s, es[0]) + DurableTrace(lim, DurableNext(lim, d, es[0]), es[1..])
  }

  /** A judgement that is not saved leaves nothing to save. */
  lemma {:induction false} CycleIsSaved(lim: Limits, s: State, ctx: Context, cs: seq<Candidate>)
    ensures Written(LedgerOf(s), Cycle(lim, s, ctx, cs)) == LedgerOf(Final(lim, s, ctx, cs))
    decreases |cs|
  {
    if cs != [] {
      var step := Acted(lim, s, ctx, cs[0]);
      CycleAt(lim, s, ctx, cs, 0);
      assert cs[0..] == cs;
      WrittenFirst(LedgerOf(s), step, Rest(lim, step, cs[1..]));
      assert WrittenBy(LedgerOf(s), step) == LedgerOf(step.after) == LedgerOf(Onward(step).0);
      if step.verdict != Sent(OM.Illegal) {
        CycleIsSaved(lim, Onward(step).0, Onward(step).1, cs[1..]);
      }
    }
  }

  lemma {:induction false} EventIsSaved(lim: Limits, s: State, e: Event)
    ensures var next := After(lim, s, e);
            DurableNext(lim, Durable(s, LedgerOf(s)), e) == Durable(next, LedgerOf(next))
  {
    if e.Loop? && !s.halted {
      CycleIsSaved(lim, s, BuildContext(s, e.now, e.stop), e.cs);
    }
  }

  /** Over any run with crashes and restarts between its steps the file holds the agent's own
      counters, last entry and periods, so a restart changes none of them: the run is the
      one that never lost them, judgement for judgement. */
  lemma {:induction false} CountersSurviveRestarts(lim: Limits, s: State, es: seq<Event>)
    ensures var d := Durable(s, LedgerOf(s));
            && DurableRun(lim, d, es) == Durable(Run(lim, s, es), LedgerOf(Run(lim, s, es)))
            && DurableTrace(lim, d, es) == Trace(lim, s, es)
    decreases |es|
  {
    if es != [] {
      EventIsSaved(lim, s, es[0]);
      CountersSurviveRestarts(lim, After(lim, s, es[0]), es[1..]);
    }
  }

  /** A crash loop buys no entries: from the first start on, whatever restarts a run holds,
      a stretch of it within one venue day takes at most a day's entries, within one week a
      week's, within one year a year's. */
  lemma {:induction false} CrashesBuyNoEntries(lim: Limits, before: seq<Event>, es: seq<Event>)
    ensures var d := DurableRun(lim, Durable(Restored(NO_ENTRIES, false), NO_ENTRIES), before);
            var n := Entries(DurableTrace(lim, d, es));
            && (WithinDay(es, d.s.keys.day) ==> n <= lim.day)
            && (WithinWeek(es, d.s.keys.week) ==> n <= lim.week)
            && (WithinYear(es, d.s.keys.year) ==> n <= lim.year)
  {
    var first := Restored(NO_ENTRIES, false);
    CountersSurviveRestarts(lim, first, before);
    BudgetsHoldOverRuns(lim, first, before);
    CountersSurviveRestarts(lim, Run(lim, first, before), es);
    BudgetsHoldOverRuns(lim, Run(lim, first, before), es);
  }

  // ---------------------------------------------------------------------
  // An order that never settles
  // ---------------------------------------------------------------------

  predicate Unsettled(s: State, id: string) {
    id in s.book.orders && s.book.orders[id].state.Unknown?
  }

  lemma {:induction false} UnsettledCloses(s: State, id: string, now: int, stop: bool)
    requires Unsettled(s, id)
    ensures Closed(BuildContext(s, now, stop))
  {
    assert id in UnknownIds(s.book);
  }

  lemma {:induction false} ClosedKeepsTheBook(lim: Limits, s: State, ctx: Context, cs: seq<Candidate>)
    requires Closed(ctx)
    ensures Final(lim, s, ctx, cs).book == s.book
    decreases |cs|
  {
    if cs != [] {
      var step := Acted(lim, s, ctx, cs[0]);
      ClosedKeepsTheBook(lim, Onward(step).0, Onward(step).1, cs[1..]);
    }
  }

  /** Nothing here settles the order: the venue never answers for it, or still reports it
      pending, acknowledged, cancelled or unknown, and the process is not restarted. */
  predicate SettlesNot(e: Event, id: string) {
    !e.Restart? && (e.Resolve? && e.id == id ==> OM.LeavesUnknown(e.query))
  }

  lemma {:induction false} NothingIsSent(steps: seq<Step>, more: seq<Step>)
    requires forall k :: 0 <= k < |steps| ==> !steps[k].verdict.Sent?
    requires forall k :: 0 <= k < |more| ==> !more[k].verdict.Sent?
    ensures forall k :: 0 <= k < |steps + more| ==> !(steps + more)[k].verdict.Sent?
  {
  }

  lemma {:induction false} UnsettledStep(lim: Limits, s: State, e: Event, id: string)
    requires Unsettled(s, id) && SettlesNot(e, id)
    ensures Unsettled(After(lim, s, e), id)
    ensures forall k :: 0 <= k < |StepsOf(lim, s, e)| ==> !StepsOf(lim, s, e)[k].verdict.Sent?
  {
    match e
    case Loop(now, stop, cs) =>
      if !s.halted {
        var ctx := BuildContext(s, now, stop);
        UnsettledCloses(s, id, now, stop);
        ClosedKeepsTheBook(lim, s, ctx, cs);
        forall k | 0 <= k < |Cycle(lim, s, ctx, cs)| ensures !Cycle(lim, s, ctx, cs)[k].verdict.Sent? {
          ClosedStaysClosed(lim, s, ctx, cs, k);
        }
      }
    case Ticket(now, stop, c) => UnsettledCloses(Hydrated(s, c), id, now, stop);
    case _ =>
  }

  /** One order that the venue reports as cancelled, or never finds, stops all trading: over
      every run in which no answer settles it, the order stays unknown, and nothing is sent
      on any instrument by any cycle, ticket or accepted proposal. */
  lemma {:induction false} UnsettledOrderStopsTrading(lim: Limits, s: State, es: seq<Event>, id: string)
    requires Unsettled(s, id) && forall e :: e in es ==> SettlesNot(e, id)
    ensures Unsettled(Run(lim, s, es), id)
    ensures forall k :: 0 <= k < |Trace(lim, s, es)| ==> !Trace(lim, s, es)[k].verdict.Sent?
    decreases |es|
  {
    if es != [] {
      var next := After(lim, s, es[0]);
      assert es[0] in es && forall e :: e in es[1..] ==> e in es;
      UnsettledStep(lim, s, es[0], id);
      UnsettledOrderStopsTrading(lim, next, es[1..], id);
      NothingIsSent(StepsOf(lim, s, es[0]), Trace(lim, next, es[1..]));
    }
  }
}
