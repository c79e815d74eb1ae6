/** Order submission under uncertain outcomes: the retry loop, the quarantine of
    instruments whose order may or may not exist at the venue, and resolution by query. */
module OrderManager {
  import opened Common

  datatype OrderState = Pending | Sent | Acked | Partial | Filled | Rejected | Cancelled | Unknown

  predicate Terminal(s: OrderState) {
    s.Filled? || s.Rejected? || s.Cancelled?
  }

  /** The moves an order may make; staying put is always allowed. */
  predicate Legal(from: OrderState, to: OrderState) {
    from == to ||
    match from
    case Pending => to.Sent? || to.Rejected? || to.Cancelled?
    case Sent => !to.Pending?
    case Acked => !to.Pending? && !to.Sent?
    case Partial => to.Filled? || to.Cancelled? || to.Unknown?
    case Unknown => to.Filled? || to.Partial? || to.Rejected? || to.Cancelled?
    case _ => false
  }

  datatype Order = Order(state: OrderState, instrument: string, hasFill: bool)

  /** What the venue says of one order. stopHeld: the protective stop was confirmed, or
      re-asserted at once. */
  datatype Result = Result(state: OrderState, fills: bool, stopHeld: bool)

  /** The answer to one submission attempt. */
  datatype Reply = Answer(result: Result) | Timeout | Transient | Permanent | Failure

  datatype Query = Found(result: Result) | NotFound | QueryFailed

  datatype Book = Book(orders: map<string, Order>, quarantine: set<string>)

  /** How a submission or a resolution ends for its caller. Illegal is an exception. */
  datatype Outcome = Settled(state: OrderState) | Refused | Illegal

  datatype Step = Step(book: Book, outcome: Outcome)

  /** The state a venue answer asks for. A cancelled order is read as a live one. */
  function Target(s: OrderState): OrderState {
    match s
    case Rejected => Rejected
    case Unknown => Unknown
    case Filled => Filled
    case Partial => Partial
    case _ => Acked
  }

  /** The book after a venue answer about one of its orders. */
  function Applied(b: Book, id: string, r: Result): Step
    requires id in b.orders
  {
    var o := b.orders[id];
    var target := Target(r.state);
    var hasFill := o.hasFill || (r.fills && !target.Rejected? && !target.Unknown?);
    var final := if (target.Filled? || target.Partial?) && !hasFill then Unknown else target;
    var naked := (final.Filled? || final.Partial?) && !r.stopHeld;
    var frozen := naked || (final.Unknown? && Legal(o.state, final));
    var quarantine := if frozen then b.quarantine + {o.instrument} else b.quarantine;
    if Legal(o.state, final)
    then Step(Book(b.orders[id := Order(final, o.instrument, hasFill)], quarantine), Settled(final))
    else Step(Book(b.orders[id := o.(hasFill := hasFill)], quarantine), Illegal)
  }

  /** The book after asking the venue about an order; anything but an unknown order is
      left alone. */
  function Resolved(b: Book, id: string, q: Query): Step
    requires id in b.orders
  {
    var o := b.orders[id];
    if !o.state.Unknown? || !q.Found? then Step(b, Settled(o.state))
    else
      var s := Applied(b, id, q.result);
      if s.outcome.Settled? && Terminal(s.outcome.state)
      then s.(book := s.book.(quarantine := s.book.quarantine - {o.instrument}))
      else s
  }

  /** The answer that ends the retry loop: the first that is not a transient failure,
      within the attempts allowed. */
  function LastReply(replies: nat -> Reply, attempt: nat, retries: nat): Reply
    decreases retries - attempt
  {
    if replies(attempt).Transient? && attempt < retries then LastReply(replies, attempt + 1, retries)
    else replies(attempt)
  }

  /** The book with a new order in it. */
  function With(b: Book, id: string, instrument: string, s: OrderState): Book {
    b.(orders := b.orders[id := Order(s, instrument, false)])
  }

  function MarkedUnknown(b: Book, id: string, instrument: string): Book {
    With(b, id, instrument, Unknown).(quarantine := b.quarantine + {instrument})
  }

  /** How an order that was sent ends, given the answer that ended the attempts. */
  function Concluded(b: Book, id: string, instrument: string, reply: Reply, q: Query): Step {
    match reply
    case Answer(r) => Applied(With(b, id, instrument, Sent), id, r)
    case Permanent => Step(With(b, id, instrument, Rejected), Settled(Rejected))
    case Timeout => Resolved(MarkedUnknown(b, id, instrument), id, q)
    case _ => Step(MarkedUnknown(b, id, instrument), Settled(Unknown))
  }

  function Submitted(b: Book, id: string, instrument: string, reply: Reply, q: Query): Step {
    if instrument in b.quarantine then Step(b, Refused)
    else if id in b.orders then Step(b, Settled(b.orders[id].state))
    else Concluded(b, id, instrument, reply, q)
  }

  /** Only the order's own row of the book is written before the answer. */
  lemma {:induction false} ConclusionForgetsTheRow(b: Book, id: string, instrument: string, s: OrderState,
                                                   reply: Reply, q: Query)
    ensures Concluded(With(b, id, instrument, s), id, instrument, reply, q)
            == Concluded(b, id, instrument, reply, q)
  {
    var w := With(b, id, instrument, s);
    assert With(w, id, instrument, Sent) == With(b, id, instrument, Sent);
    assert With(w, id, instrument, Rejected) == With(b, id, instrument, Rejected);
    assert With(w, id, instrument, Unknown) == With(b, id, instrument, Unknown);
  }

  class Manager {
    var orders: map<string, Order>
    var quarantine: set<string>
    const maxRetries: nat

    constructor (retries: nat, supportsClientOrderId: bool)
      ensures View() == Book(map[], {})
      ensures maxRetries == if supportsClientOrderId then retries else 0
    {
      orders, quarantine := map[], {};
      maxRetries := if supportsClientOrderId then retries else 0;
    }

    function View(): Book
      reads this
    {
      Book(orders, quarantine)
    }

    /** Moves an order to the state a venue answer asks for, or raises. */
    method ApplyResult(id: string, r: Result) returns (out: Outcome)
      requires id in orders
      modifies this
      ensures Step(View(), out) == Applied(old(View()), id, r)
    {
      var o := orders[id];
      var target := Target(r.state);
      if !target.Rejected? && !target.Unknown? && r.fills {
        o := o.(hasFill := true);
        orders := orders[id := o];
      }
      if (target.Filled? || target.Partial?) && !o.hasFill {
        target := Unknown;
      }
      if (target.Filled? || target.Partial?) && !r.stopHeld {
        quarantine := quarantine + {o.instrument};
      }
      if !Legal(o.state, target) {
        return Illegal;
      }
      orders := orders[id := o.(state := target)];
      if target.Unknown? {
        quarantine := quarantine + {o.instrument};
      }
      out := Settled(target);
    }

    /** The only exit from UNKNOWN. */
    method ResolveUnknown(id: string, q: Query) returns (out: Outcome)
      requires id in orders
      modifies this
      ensures Step(View(), out) == Resolved(old(View()), id, q)
    {
      var o := orders[id];
      if !o.state.Unknown? || !q.Found? {
        return Settled(o.state);
      }
      out := ApplyResult(id, q.result);
      if out.Settled? && Terminal(out.state) {
        quarantine := quarantine - {o.instrument};
      }
    }

    /** One attempt at sending an order: its conclusion, or None to try again. */
    method Send(id: string, reply: Reply, q: Query, last: bool) returns (out: Option<Outcome>)
      requires id in orders && Legal(orders[id].state, Sent) && !orders[id].hasFill
      modifies this
      ensures out.None? <==> reply.Transient? && !last
      ensures var o := old(orders[id]);
              if out.None? then View() == With(old(View()), id, o.instrument, Sent)
              else Step(View(), out.value) == Concluded(old(View()), id, o.instrument, reply, q)
    {
      ghost var before, instrument := View(), orders[id].instrument;
      orders := orders[id := orders[id].(state := Sent)];
      assert View() == With(before, id, instrument, Sent);
      if reply.Answer? {
        var o := ApplyResult(id, reply.result);
        return Some(o);
      }
      if reply.Permanent? {
        orders := orders[id := orders[id].(state := Rejected)];
        assert View() == With(before, id, instrument, Rejected);
        return Some(Settled(Rejected));
      }
      if reply.Transient? && !last {
        return None;
      }
      MarkUnknown(id);
      assert View() == MarkedUnknown(before, id, instrument);
      if reply.Timeout? {
        var o := ResolveUnknown(id, q);
        return Some(o);
      }
      out := Some(Settled(Unknown));
    }

    method MarkUnknown(id: string)
      requires id in orders && Legal(orders[id].state, Unknown) && !orders[id].hasFill
      modifies this
      ensures View() == MarkedUnknown(old(View()), id, old(orders[id].instrument))
    {
      orders := orders[id := orders[id].(state := Unknown)];
      quarantine := quarantine + {orders[id].instrument};
    }

    method Submit(id: string, instrument: string, replies: nat -> Reply, q: Query) returns (out: Outcome)
      modifies this
      ensures Step(View(), out) ==
              Submitted(old(View()), id, instrument, LastReply(replies, 0, maxRetries), q)
    {
      if instrument in quarantine {
        return Refused;
      }
      if id in orders {
        return Settled(orders[id].state);
      }
      orders := orders[id := Order(Pending, instrument, false)];
      ghost var before, at := old(View()), OrderState.Pending;
      var attempt := 0;
      while true
        invariant attempt <= maxRetries
        invariant Legal(at, Sent) && View() == With(before, id, instrument, at)
        invariant LastReply(replies, attempt, maxRetries) == LastReply(replies, 0, maxRetries)
        decreases maxRetries - attempt
      {
        ConclusionForgetsTheRow(before, id, instrument, at, replies(attempt), q);
        var done := Send(id, replies(attempt), q, attempt == maxRetries);
        if done.Some? {
          return done.value;
        }
        at := Sent;
        attempt := attempt + 1;
      }
    }
  }

  // ---------------------------------------------------------------------
  // Where each answer leads
  // ---------------------------------------------------------------------

  /** The attempts go on through transient failures only, and at most as far as the retries
      allow. */
  lemma {:induction false} AttemptsEnd(replies: nat -> Reply, attempt: nat, retries: nat) returns (k: nat)
    requires attempt <= retries
    ensures attempt <= k <= retries && LastReply(replies, attempt, retries) == replies(k)
    ensures forall j :: attempt <= j < k ==> replies(j).Transient?
    ensures !replies(k).Transient? || k == retries
    decreases retries - attempt
  {
    k := attempt;
    if replies(attempt).Transient? && attempt < retries {
      k := AttemptsEnd(replies, attempt + 1, retries);
    }
  }

  /** The last the venue itself said of the order. */
  function Heard(reply: Reply, q: Query): Option<Result> {
    match reply
    case Answer(r) => Some(r)
    case Timeout => if q.Found? then Some(q.result) else None
    case _ => None
  }

  predicate SaysRejected(heard: Option<Result>) {
    heard.Some? && heard.value.state.Rejected?
  }

  predicate SaysFilled(heard: Option<Result>) {
    heard.Some? && heard.value.state.Filled? && heard.value.fills
  }

  predicate SaysPartial(heard: Option<Result>) {
    heard.Some? && heard.value.state.Partial? && heard.value.fills
  }

  /** The venue names a state that is neither a fill, a rejection nor unknown. */
  predicate SaysOpen(heard: Option<Result>) {
    heard.Some? && (heard.value.state.Pending? || heard.value.state.Sent? || heard.value.state.Acked?
                    || heard.value.state.Cancelled?)
  }

  predicate StopMissing(heard: Option<Result>) {
    heard.Some? && !heard.value.stopHeld
  }

  /** How a new order ended, by what was answered. */
  predicate EndsAsTold(b: Book, id: string, i: string, reply: Reply, q: Query, s: Step) {
    var heard := Heard(reply, q);
    && id in s.book.orders
    && var end := s.book.orders[id].state;
       && s.book.orders == b.orders[id := s.book.orders[id]] && s.book.orders[id].instrument == i
       && (end.Rejected? <==> reply.Permanent? || SaysRejected(heard))
       && (end.Filled? <==> SaysFilled(heard))
       && (end.Partial? <==> SaysPartial(heard))
       && (end.Acked? <==> reply.Answer? && SaysOpen(heard))
       && (end.Rejected? || end.Filled? || end.Partial? || end.Acked? || end.Unknown?)
       && s.outcome == if reply.Timeout? && SaysOpen(heard) then Illegal else Settled(end)
  }

  lemma {:induction false} AnsweredEnds(b: Book, id: string, i: string, r: Result, q: Query)
    requires id !in b.orders
    ensures EndsAsTold(b, id, i, Answer(r), q, Concluded(b, id, i, Answer(r), q))
  {
  }

  lemma {:induction false} TimedOutEnds(b: Book, id: string, i: string, q: Query)
    requires id !in b.orders
    ensures EndsAsTold(b, id, i, Timeout, q, Concluded(b, id, i, Timeout, q))
  {
  }

  /** Where every answer leads a new order on a free instrument. It ends rejected, filled or
      partly filled exactly as the venue said, and acknowledged when the venue answered
      with anything else but unknown; in every other case, among them exhausted retries, an
      unclassified failure and a timeout nobody can explain, it is unknown. No other order
      changes. */
  lemma {:induction false} NewOrderEnds(b: Book, id: string, i: string, reply: Reply, q: Query)
    requires i !in b.quarantine && id !in b.orders
    ensures EndsAsTold(b, id, i, reply, q, Submitted(b, id, i, reply, q))
  {
    match reply
    case Answer(r) => AnsweredEnds(b, id, i, r, q);
    case Timeout => TimedOutEnds(b, id, i, q);
    case _ =>
  }

  /** Its instrument is frozen exactly when it ends unknown, when a partial fill was learnt by
      query, or when an answer told of a fill whose stop is missing; no other is touched. */
  lemma {:induction false} NewOrderFreezes(b: Book, id: string, i: string, reply: Reply, q: Query)
    requires i !in b.quarantine && id !in b.orders
    ensures var s, heard := Submitted(b, id, i, reply, q), Heard(reply, q);
            && id in s.book.orders && s.book.quarantine - {i} == b.quarantine
            && var end := s.book.orders[id].state;
               i in s.book.quarantine
               <==> end.Unknown? || (end.Partial? && reply.Timeout?)
                    || ((end.Filled? || end.Partial?) && reply.Answer? && StopMissing(heard))
  {
  }

  /** Where a query leads an unknown order: rejected, filled or partly filled exactly as the
      venue said, the size of a fill being known from now or before, and nowhere else. A
      terminal end, and nothing else, lifts the freeze of its instrument. */
  lemma {:induction false} UnknownOrderEnds(b: Book, id: string, q: Query)
    requires id in b.orders && b.orders[id].state.Unknown? && b.orders[id].instrument in b.quarantine
    ensures var s, o := Resolved(b, id, q).book, b.orders[id];
            var end, heard := s.orders[id].state, Heard(Timeout, q);
            && s.orders == b.orders[id := s.orders[id]] && s.orders[id].instrument == o.instrument
            && (end.Rejected? <==> SaysRejected(heard))
            && (end.Filled? <==> q.Found? && q.result.state.Filled? && (q.result.fills || o.hasFill))
            && (end.Partial? <==> q.Found? && q.result.state.Partial? && (q.result.fills || o.hasFill))
            && (end.Rejected? || end.Filled? || end.Partial? || end.Unknown?)
            && s.quarantine == if end.Rejected? || end.Filled? then b.quarantine - {o.instrument} else b.quarantine
  {
  }

  // ---------------------------------------------------------------------
  // Runs
  // ---------------------------------------------------------------------

  /** What happens to the book: an order is submitted, or a known one is asked about. */
  datatype Event =
    | Submit(id: string, instrument: string, reply: Reply, query: Query)
    | Resolve(id: string, query: Query)

  function Next(b: Book, e: Event): Book {
    match e
    case Submit(id, instrument, reply, q) => Submitted(b, id, instrument, reply, q).book
    case Resolve(id, q) => if id in b.orders then Resolved(b, id, q).book else b
  }

  function Run(b: Book, es: seq<Event>): Book
    decreases |es|
  {
    if es == [] then b else Run(Next(b, es[0]), es[1..])
  }

  predicate UnknownOn(b: Book, id: string, instrument: string) {
    id in b.orders && b.orders[id].state.Unknown? && b.orders[id].instrument == instrument
  }

  ghost predicate Contained(b: Book) {
    && (forall id, i :: UnknownOn(b, id, i) ==> i in b.quarantine)
    && (forall id, other, i :: UnknownOn(b, id, i) && UnknownOn(b, other, i) ==> id == other)
  }

  lemma {:induction false} StepKeepsContained(b: Book, e: Event)
    requires Contained(b)
    ensures Contained(Next(b, e))
  {
    match e
    case Submit(id, instrument, reply, q) =>
      forall known, i | UnknownOn(Next(b, e), known, i)
        ensures known == id || UnknownOn(b, known, i)
      {}
    case Resolve(id, q) =>
      if id in b.orders {
        ResolutionKeepsContained(b, id, q);
      }
  }

  lemma {:induction false} ResolutionKeepsContained(b: Book, id: string, q: Query)
    requires Contained(b) && id in b.orders
    ensures Contained(Resolved(b, id, q).book)
  {
    var after := Resolved(b, id, q).book;
    forall known, i | UnknownOn(after, known, i)
      ensures UnknownOn(b, known, i) && i in after.quarantine
    {
      assert UnknownOn(b, known, i);
      if b.orders[id].state.Unknown? {
        assert UnknownOn(b, id, b.orders[id].instrument);
      }
    }
  }

  /** In every run, an instrument with an unknown order is quarantined and has only that
      one, so nothing more is sent on it: a second submission is refused and leaves the
      book as it was. */
  lemma {:induction false} UnknownOrdersBlockTheirInstrument(es: seq<Event>, b: Book)
    requires Contained(b)
    ensures Contained(Run(b, es))
    ensures forall id, other, i, reply, q :: UnknownOn(Run(b, es), id, i) ==>
              Submitted(Run(b, es), other, i, reply, q) == Step(Run(b, es), Refused)
    decreases |es|
  {
    if es != [] {
      StepKeepsContained(b, es[0]);
      UnknownOrdersBlockTheirInstrument(es[1..], Next(b, es[0]));
    }
  }

  /** An order is sent at most once: whatever follows, its identifier stays known, and
      submitting it again changes nothing. */
  lemma {:induction false} NeverSentTwice(b: Book, es: seq<Event>, id: string, i: string, reply: Reply, q: Query)
    requires id in b.orders
    ensures id in Run(b, es).orders
    ensures Submitted(Run(b, es), id, i, reply, q).book == Run(b, es)
    decreases |es|
  {
    if es != [] {
      NeverSentTwice(Next(b, es[0]), es[1..], id, i, reply, q);
    }
  }

  /** The event tells that this order was rejected, filled or partly filled. */
  predicate Tells(e: Event, id: string, end: OrderState) {
    var heard := if e.Submit? then Heard(e.reply, e.query) else Heard(Timeout, e.query);
    && e.id == id
    && (if end.Rejected? then (e.Submit? && e.reply.Permanent?) || SaysRejected(heard)
        else heard.Some? && heard.value.state == end)
  }

  predicate Told(es: seq<Event>, id: string, end: OrderState) {
    exists k :: 0 <= k < |es| && Tells(es[k], id, end)
  }

  predicate Reads(b: Book, id: string, end: OrderState) {
    id in b.orders && b.orders[id].state == end
  }

  lemma {:induction false} StepWasTold(b: Book, e: Event, id: string, end: OrderState)
    requires Reads(Next(b, e), id, end) && (end.Rejected? || end.Filled? || end.Partial?)
    ensures Reads(b, id, end) || Tells(e, id, end)
  {
  }

  /** No end is ever invented: over every run an order reads as rejected, filled or partly
      filled only if it did at the start or the venue said exactly that of it. In particular
      no timeout, no failure and no number of retries ends in a rejection. */
  lemma {:induction false} EndsWereTold(b: Book, es: seq<Event>, id: string, end: OrderState)
    requires Reads(Run(b, es), id, end) && (end.Rejected? || end.Filled? || end.Partial?)
    ensures Reads(b, id, end) || Told(es, id, end)
    decreases |es|
  {
    if es != [] {
      EndsWereTold(Next(b, es[0]), es[1..], id, end);
      if Reads(Next(b, es[0]), id, end) {
        StepWasTold(b, es[0], id, end);
      } else {
        var k :| 0 <= k < |es[1..]| && Tells(es[1..][k], id, end);
        assert Tells(es[k + 1], id, end);
      }
    }
  }

  /** Asking about an unknown order raises exactly when the venue says it is still
      pending, acknowledged or cancelled, although the transition table lets a cancelled
      order leave UNKNOWN. */
  predicate Unsettling(q: Query) {
    q.Found? && Target(q.result.state).Acked?
  }

  /** Exactly which answers leave an unknown order unknown: none, one that raises, another
      unknown, or a fill without any size. */
  lemma {:induction false} StaysUnknownIff(b: Book, id: string, q: Query)
    requires id in b.orders && b.orders[id].state.Unknown?
    ensures Resolved(b, id, q).book.orders[id].state.Unknown?
            <==> LeavesUnknown(q)
                 || (q.Found? && Target(q.result.state) in {Filled, Partial}
                     && !q.result.fills && !b.orders[id].hasFill)
  {
  }

  predicate LeavesUnknown(q: Query) {
    !q.Found? || Unsettling(q) || q.result.state.Unknown?
  }

  lemma {:induction false} ResolutionRaisesIff(b: Book, id: string, q: Query)
    requires id in b.orders && b.orders[id].state.Unknown?
    ensures Resolved(b, id, q).outcome.Illegal? <==> Unsettling(q)
    ensures Unsettling(q) ==> UnknownOn(Resolved(b, id, q).book, id, b.orders[id].instrument)
    ensures Legal(Unknown, Cancelled) && Unsettling(Found(Result(Cancelled, false, true)))
  {
  }

  predicate Fills(r: Result) {
    (r.state.Filled? || r.state.Partial?) && r.fills
  }

  /** Whether the venue tells of a fill: in the answer, or after a timeout in the query. */
  predicate ToldOfFill(reply: Reply, q: Query) {
    (reply.Answer? && Fills(reply.result)) || (reply.Timeout? && q.Found? && Fills(q.result))
  }

  /** A newly sent order ends filled or part-filled exactly when the venue tells of a fill.
      If its stop could be neither confirmed nor re-asserted, its instrument is then
      quarantined, except exactly when a complete fill was learnt by query: resolving the
      order lifts the quarantine that the missing stop had just imposed. No adapter of the
      repository answers a query with an unconfirmed stop; the exception is what the
      manager would do with one that did. */
  lemma {:induction false} NakedFillIsFrozenIff(b: Book, id: string, i: string, reply: Reply, q: Query)
    requires i !in b.quarantine && id !in b.orders
    requires reply.Answer? ==> !reply.result.stopHeld
    requires q.Found? ==> !q.result.stopHeld
    ensures var s := Submitted(b, id, i, reply, q);
            && (s.outcome == Settled(Filled) || s.outcome == Settled(Partial) <==> ToldOfFill(reply, q))
            && (ToldOfFill(reply, q) ==>
                  (i in s.book.quarantine
                   <==> !(reply.Timeout? && q.Found? && q.result.state.Filled?)))
  {
  }

  /** An input of that exception. */
  lemma {:induction false} NakedFillCanGoFree(b: Book, id: string, i: string)
    requires i !in b.quarantine && id !in b.orders
    ensures var s := Submitted(b, id, i, Timeout, Found(Result(Filled, true, false)));
            s.outcome == Settled(Filled) && i !in s.book.quarantine
  {
  }
}
