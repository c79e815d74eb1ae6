/** The lesson table: one live lesson per statement and scope, contradictions that
    retire it, and retirements that later evidence may or may not overturn. */
module LessonStore {
  import opened Common

  datatype Status = Active | Superseded | Retired

  /** What a lesson is about. A missing scope column compares equal to "". */
  datatype Key = Key(statement: string, strategy: string, instrument: string, regime: string)

  datatype Lesson = Lesson(statement: string, strategy: Option<string>, instrument: Option<string>,
                           regime: Option<string>, session: Option<string>,
                           sampleSize: int, effectR: real, pValue: real, caution: real,
                           createdNs: int, lastConfirmedNs: int, reviewCount: nat,
                           contradictions: nat, halfLifeDays: real)

  /** A stored row. Row i of the table has id i + 1; rows are never deleted. */
  datatype Row = Row(lesson: Lesson, status: Status, supersededBy: Option<nat>,
                     retireReason: string, updatedNs: int)

  function OrEmpty(s: Option<string>): string {
    if s.Some? then s.value else ""
  }

  function KeyOf(l: Lesson): Key {
    Key(l.statement, OrEmpty(l.strategy), OrEmpty(l.instrument), OrEmpty(l.regime))
  }

  /** Building a lesson clamps its caution: it can only counsel less risk. */
  function Built(l: Lesson): Lesson {
    l.(caution := Min(1.0, Max(0.25, l.caution)),
       lastConfirmedNs := if l.lastConfirmedNs == 0 then l.createdNs else l.lastConfirmedNs)
  }

  predicate Mentions(text: string, word: string) {
    word <= text || (text != [] && Mentions(text[1..], word))
  }

  /** A retirement is a decision, not staleness, when the lesson was contradicted or
      the recorded reason names one of four words. */
  predicate IsDecision(row: Row) {
    || row.lesson.contradictions > 0
    || Mentions(row.retireReason, "contradict") || Mentions(row.retireReason, "reversal")
    || Mentions(row.retireReason, "operator") || Mentions(row.retireReason, "manual")
  }

  function LastWith(rows: seq<Row>, key: Key, status: Status): (at: Option<nat>)
    ensures at.Some? ==> at.value < |rows| && KeyOf(rows[at.value].lesson) == key
                         && rows[at.value].status == status
    ensures forall i :: 0 <= i < |rows| && KeyOf(rows[i].lesson) == key && rows[i].status == status
                        ==> at.Some? && i <= at.value
  {
    if rows == [] then None
    else
      var n := |rows| - 1;
      if KeyOf(rows[n].lesson) == key && rows[n].status == status then Some(n)
      else LastWith(rows[..n], key, status)
  }

  lemma {:induction false} LastWithSnoc(rows: seq<Row>, i: nat, key: Key, status: Status)
    requires i < |rows|
    ensures LastWith(rows[..i + 1], key, status)
            == if KeyOf(rows[i].lesson) == key && rows[i].status == status then Some(i)
               else LastWith(rows[..i], key, status)
  {
    assert rows[..i + 1][..i] == rows[..i];
  }

  /** The row an added lesson replaces: active before retired, newest first. */
  function Prior(rows: seq<Row>, key: Key): (at: Option<nat>) {
    var active := LastWith(rows, key, Active);
    if active.Some? then active else LastWith(rows, key, Retired)
  }

  function Insert(rows: seq<Row>, lesson: Lesson, prior: Option<nat>, now: int): seq<Row>
    requires prior.Some? ==> prior.value < |rows|
  {
    var kept := if prior.None? then rows
                else rows[prior.value := rows[prior.value].(status := Superseded,
                       supersededBy := Some(|rows| + 1), updatedNs := now)];
    kept + [Row(lesson, Active, None, "", now)]
  }

  function Added(rows: seq<Row>, lesson: Lesson, now: int): (seq<Row>, nat) {
    var prior := Prior(rows, KeyOf(lesson));
    if prior.Some? && rows[prior.value].status.Retired? && IsDecision(rows[prior.value])
    then (rows, prior.value + 1)
    else (Insert(rows, Built(lesson), prior, now), |rows| + 1)
  }

  predicate IsActive(rows: seq<Row>, id: nat) {
    1 <= id <= |rows| && rows[id - 1].status.Active?
  }

  function RetiredRow(row: Row, reason: string, now: int): Row {
    row.(status := Retired, retireReason := reason, updatedNs := now)
  }

  function Retiring(rows: seq<Row>, id: nat, reason: string, now: int): seq<Row> {
    if IsActive(rows, id) then rows[id - 1 := RetiredRow(rows[id - 1], reason, now)] else rows
  }

  datatype Evidence = Evidence(supported: bool, sampleSize: int, effectR: real, pValue: real)

  datatype Verdict = Confirmed | Contradicted | NowRetired | Missing

  predicate Reverses(before: real, after: real) {
    before != 0.0 && after != 0.0 && (before > 0.0) != (after > 0.0)
  }

  function ReviewReason(l: Lesson, e: Evidence): string {
    if Reverses(l.effectR, e.effectR) then "the effect reversed sign on fresh evidence"
    else "contradicted by fresh evidence " + Decimal(l.contradictions + 1) + " times"
  }

  function ReviewedRow(row: Row, e: Evidence, now: int, maxContradictions: nat): (Row, Verdict) {
    var l := row.lesson;
    var n := l.contradictions + 1;
    if e.supported && !Reverses(l.effectR, e.effectR) then
      (row.(updatedNs := now,
            lesson := l.(lastConfirmedNs := now, reviewCount := l.reviewCount + 1,
                         sampleSize := l.sampleSize + e.sampleSize, effectR := e.effectR,
                         pValue := e.pValue)), Confirmed)
    else if Reverses(l.effectR, e.effectR) || n >= maxContradictions then
      (RetiredRow(row.(lesson := l.(contradictions := n)), ReviewReason(l, e), now), NowRetired)
    else
      (row.(lesson := l.(contradictions := n), updatedNs := now), Contradicted)
  }

  function Reviewed(rows: seq<Row>, id: nat, e: Evidence, now: int, maxContradictions: nat)
    : (seq<Row>, Verdict)
  {
    if !IsActive(rows, id) then (rows, Missing)
    else
      var (row, verdict) := ReviewedRow(rows[id - 1], e, now, maxContradictions);
      (rows[id - 1 := row], verdict)
  }

  function InNs(days: nat): int {
    days * 86_400_000_000_000
  }

  predicate Unconfirmed(row: Row, cutoff: int) {
    row.status.Active? &&
    (if row.lesson.lastConfirmedNs > 0 then row.lesson.lastConfirmedNs else row.lesson.createdNs) < cutoff
  }

  function ExpiryReason(days: nat): string {
    "no confirming evidence in " + Decimal(days) + " days"
  }

  function ExpiredRow(row: Row, now: int, days: nat): Row {
    if Unconfirmed(row, now - InNs(days)) then RetiredRow(row, ExpiryReason(days), now) else row
  }

  function Expired(rows: seq<Row>, now: int, days: nat): (out: seq<Row>)
    ensures |out| == |rows|
    ensures forall i :: 0 <= i < |rows| ==> out[i] == ExpiredRow(rows[i], now, days)
  {
    seq(|rows|, i requires 0 <= i < |rows| => ExpiredRow(rows[i], now, days))
  }

  /** The store, as the operations change it in place. */
  class MemoryStore {
    var rows: seq<Row>

    constructor ()
      ensures rows == []
    {
      rows := [];
    }

    method FindPrior(key: Key) returns (prior: Option<nat>)
      ensures prior == Prior(rows, key)
    {
      var rows, retired: Option<nat> := this.rows, None;
      assert rows[..|rows|] == rows;
      var i := |rows|;
      while i > 0
        invariant 0 <= i <= |rows|
        invariant LastWith(rows, key, Active) == LastWith(rows[..i], key, Active)
        invariant retired.None? ==> LastWith(rows, key, Retired) == LastWith(rows[..i], key, Retired)
        invariant retired.Some? ==> retired == LastWith(rows, key, Retired)
      {
        i := i - 1;
        LastWithSnoc(rows, i, key, Active);
        LastWithSnoc(rows, i, key, Retired);
        if KeyOf(rows[i].lesson) == key {
          if rows[i].status.Active? {
            return Some(i);
          }
          if rows[i].status.Retired? && retired.None? {
            retired := Some(i);
          }
        }
      }
      return retired;
    }

    method AddLesson(lesson: Lesson, now: int) returns (id: nat)
      modifies this
      ensures (rows, id) == Added(old(rows), lesson, now)
    {
      var built := Built(lesson);
      var prior := FindPrior(KeyOf(lesson));
      if prior.Some? && rows[prior.value].status.Retired? {
        if IsDecision(rows[prior.value]) {
          return prior.value + 1;
        }
      }
      id := |rows| + 1;
      if prior.Some? {
        rows := rows[prior.value := rows[prior.value].(status := Superseded,
                       supersededBy := Some(id), updatedNs := now)];
      }
      rows := rows + [Row(built, Active, None, "", now)];
    }

    method Retire(id: nat, reason: string, now: int) returns (done: bool)
      modifies this
      ensures rows == Retiring(old(rows), id, reason, now)
      ensures done == IsActive(old(rows), id)
    {
      done := IsActive(rows, id);
      if done {
        rows := rows[id - 1 := RetiredRow(rows[id - 1], reason, now)];
      }
    }

    method ReviewLesson(id: nat, e: Evidence, now: int, maxContradictions: nat)
      returns (verdict: Verdict)
      modifies this
      ensures (rows, verdict) == Reviewed(old(rows), id, e, now, maxContradictions)
    {
      if !IsActive(rows, id) {
        return Missing;
      }
      var (row, v) := ReviewedRow(rows[id - 1], e, now, maxContradictions);
      rows := rows[id - 1 := row];
      return v;
    }

    method ExpireUnconfirmed(now: int, days: nat) returns (count: nat)
      modifies this
      ensures rows == Expired(old(rows), now, days)
      ensures count == Differing(old(rows), rows)
    {
      count := 0;
      ghost var after := Expired(rows, now, days);
      var before := rows;
      for i := 0 to |before|
        invariant |rows| == |before|
        invariant forall j :: 0 <= j < i ==> rows[j] == after[j]
        invariant forall j :: i <= j < |before| ==> rows[j] == before[j]
        invariant count == Differing(before[..i], after[..i])
      {
        DifferingOfOneMore(before, after, i);
        if Unconfirmed(rows[i], now - InNs(days)) {
          rows := rows[i := RetiredRow(rows[i], ExpiryReason(days), now)];
          count := count + 1;
        }
      }
      assert rows == after && before[..|before|] == before && after[..|before|] == after;
    }
  }

  // ---------------------------------------------------------------------
  // What a review decides
  // ---------------------------------------------------------------------

  /** Fresh evidence of the other sign; none of either sign reverses anything. */
  predicate OtherSign(before: real, after: real) {
    (before < 0.0 < after) || (after < 0.0 < before)
  }

  /** Which evidence confirms, contradicts or retires an active lesson, and what it leaves:
      a confirmation needs support of the same sign, counts no contradiction and renews the
      lesson; evidence of the other sign, or one contradiction too many, retires it. */
  lemma {:induction false} ReviewDecides(rows: seq<Row>, id: nat, e: Evidence, now: int, limit: nat)
    requires IsActive(rows, id)
    ensures var l := rows[id - 1].lesson;
            var (after, v) := Reviewed(rows, id, e, now, limit);
            var reversed := OtherSign(l.effectR, e.effectR);
            && |after| == |rows| && (forall k :: 0 <= k < |rows| && k != id - 1 ==> after[k] == rows[k])
            && var row := after[id - 1];
               && (v == Confirmed <==> e.supported && !reversed)
               && (v == NowRetired <==> reversed || (!e.supported && l.contradictions + 1 >= limit))
               && (v == Contradicted <==> !e.supported && !reversed && l.contradictions + 1 < limit)
               && (row.status == if v == NowRetired then Retired else Active)
               && row.updatedNs == now && row.supersededBy == rows[id - 1].supersededBy
               && row.lesson == (if v == Confirmed
                                 then l.(lastConfirmedNs := now, reviewCount := l.reviewCount + 1,
                                         sampleSize := l.sampleSize + e.sampleSize,
                                         effectR := e.effectR, pValue := e.pValue)
                                 else l.(contradictions := l.contradictions + 1))
  {
  }

  // ---------------------------------------------------------------------
  // Runs
  // ---------------------------------------------------------------------

  datatype Op =
    | Add(lesson: Lesson, now: int)
    | Review(id: nat, evidence: Evidence, now: int, maxContradictions: nat)
    | Retire(id: nat, reason: string, now: int)
    | Expire(now: int, days: nat)

  function Step(rows: seq<Row>, op: Op): seq<Row> {
    match op
    case Add(lesson, now) => Added(rows, lesson, now).0
    case Review(id, e, now, k) => Reviewed(rows, id, e, now, k).0
    case Retire(id, reason, now) => Retiring(rows, id, reason, now)
    case Expire(now, days) => Expired(rows, now, days)
  }

  function Run(rows: seq<Row>, ops: seq<Op>): seq<Row>
    decreases |ops|
  {
    if ops == [] then rows else Run(Step(rows, ops[0]), ops[1..])
  }

  /** The calls keep to a contradiction limit k: lessons are added with fewer than k
      contradictions and reviewed against a limit of at most k. */
  predicate WithinLimit(op: Op, k: nat) {
    match op
    case Add(lesson, _) => lesson.contradictions < k
    case Review(_, _, _, m) => m <= k
    case _ => true
  }

  predicate Live(row: Row) {
    !row.status.Superseded?
  }

  /** What consistency looks at in a row. */
  datatype Slot = Slot(key: Key, status: Status, contradictions: nat, heir: Option<nat>)

  function SlotOf(row: Row): Slot {
    Slot(KeyOf(row.lesson), row.status, row.lesson.contradictions, row.supersededBy)
  }

  function SlotsOf(rows: seq<Row>): (slots: seq<Slot>)
    ensures |slots| == |rows|
    ensures forall i :: 0 <= i < |rows| ==> slots[i] == SlotOf(rows[i])
  {
    seq(|rows|, i requires 0 <= i < |rows| => SlotOf(rows[i]))
  }

  /** At most one live row per key. */
  predicate OneLivePerKey(slots: seq<Slot>) {
    forall i, j :: 0 <= i < j < |slots| && !slots[i].status.Superseded? && !slots[j].status.Superseded?
      ==> slots[i].key != slots[j].key
  }

  /** Active rows are below the contradiction limit. */
  predicate BelowLimit(slots: seq<Slot>, k: nat) {
    forall i :: 0 <= i < |slots| && slots[i].status.Active? ==> slots[i].contradictions < k
  }

  /** A superseded row names the later row of the same key that replaced it. */
  predicate HeirsHold(slots: seq<Slot>) {
    forall i :: 0 <= i < |slots| ==> HeirHolds(slots, i)
  }

  predicate HeirHolds(slots: seq<Slot>, i: nat)
    requires i < |slots|
  {
    slots[i].status.Superseded? ==>
      var heir := slots[i].heir;
      heir.Some? && i + 1 < heir.value <= |slots| && slots[heir.value - 1].key == slots[i].key
  }

  predicate Consistent(rows: seq<Row>, k: nat) {
    var slots := SlotsOf(rows);
    OneLivePerKey(slots) && BelowLimit(slots, k) && HeirsHold(slots)
  }

  /** How review, retirement and expiry change one row: a row that is not active is
      left alone, and an active one keeps its key and at most becomes retired. */
  predicate OnlyRetires(before: Slot, after: Slot, k: nat) {
    if before.status.Active? then
      && after.key == before.key && !after.status.Superseded?
      && (after.status.Active? ==>
            after.contradictions < k || after.contradictions == before.contradictions)
    else after == before
  }

  lemma {:induction false} RowwiseKeepsConsistent(before: seq<Slot>, after: seq<Slot>, k: nat)
    requires OneLivePerKey(before) && BelowLimit(before, k) && HeirsHold(before)
    requires |after| == |before|
    requires forall i :: 0 <= i < |before| ==> OnlyRetires(before[i], after[i], k)
    ensures OneLivePerKey(after) && BelowLimit(after, k) && HeirsHold(after)
  {
    forall i | 0 <= i < |before|
      ensures SameStanding(before[i], after[i])
      ensures after[i].status.Active? ==> after[i].contradictions < k
    {
      assert OnlyRetires(before[i], after[i], k);
    }
    SameStandingKeeps(before, after);
  }

  /** The same key, the same claim to be the live row, the same heir if superseded. */
  predicate SameStanding(before: Slot, after: Slot) {
    && after.key == before.key && after.status.Superseded? == before.status.Superseded?
    && (before.status.Superseded? ==> after == before)
  }

  lemma {:induction false} SameStandingKeeps(before: seq<Slot>, after: seq<Slot>)
    requires OneLivePerKey(before) && HeirsHold(before) && |after| == |before|
    requires forall i :: 0 <= i < |before| ==> SameStanding(before[i], after[i])
    ensures OneLivePerKey(after) && HeirsHold(after)
  {
    forall i, j | 0 <= i < j < |after| && !after[i].status.Superseded? && !after[j].status.Superseded?
      ensures after[i].key != after[j].key
    {
      assert SameStanding(before[i], after[i]) && SameStanding(before[j], after[j]);
    }
    forall i | 0 <= i < |after| ensures HeirHolds(after, i) {
      assert SameStanding(before[i], after[i]) && HeirHolds(before, i);
      if after[i].status.Superseded? {
        assert SameStanding(before[after[i].heir.value - 1], after[after[i].heir.value - 1]);
      }
    }
  }

  lemma {:induction false} StepIsRowwise(rows: seq<Row>, op: Op, k: nat)
    requires !op.Add? && WithinLimit(op, k)
    ensures |Step(rows, op)| == |rows|
    ensures forall i :: 0 <= i < |rows| ==> OnlyRetires(SlotOf(rows[i]), SlotOf(Step(rows, op)[i]), k)
    ensures forall i :: 0 <= i < |rows| && !rows[i].status.Active? ==> Step(rows, op)[i] == rows[i]
  {
    match op
    case Review(id, e, now, limit) =>
      if IsActive(rows, id) {
        ReviewOnlyRetires(rows[id - 1], e, now, limit, k);
      }
    case Retire(id, reason, now) =>
    case Expire(now, days) =>
  }

  lemma {:induction false} ReviewOnlyRetires(row: Row, e: Evidence, now: int, limit: nat, k: nat)
    requires row.status.Active? && limit <= k
    ensures OnlyRetires(SlotOf(row), SlotOf(ReviewedRow(row, e, now, limit).0), k)
  {
  }

  /** Adding a row and superseding the one live row of its key, if there was one. */
  predicate Replaces(before: seq<Slot>, after: seq<Slot>, prior: Option<nat>) {
    var n := |before|;
    && |after| == n + 1 && after[n].status.Active?
    && (prior.Some? ==> prior.value < n && before[prior.value].key == after[n].key)
    && (forall i :: 0 <= i < n ==>
          after[i] == if prior == Some(i) then before[i].(status := Superseded, heir := Some(n + 1))
                      else before[i])
    && (forall i :: 0 <= i < n && prior != Some(i) && !before[i].status.Superseded? ==>
          before[i].key != after[n].key)
  }

  lemma {:induction false} ReplaceKeepsConsistent(before: seq<Slot>, after: seq<Slot>, prior: Option<nat>, k: nat)
    requires OneLivePerKey(before) && BelowLimit(before, k) && HeirsHold(before)
    requires Replaces(before, after, prior) && after[|before|].contradictions < k
    ensures OneLivePerKey(after) && BelowLimit(after, k) && HeirsHold(after)
  {
    ReplaceKeepsOneLive(before, after, prior);
    ReplaceKeepsHeirs(before, after, prior);
  }

  lemma {:induction false} ReplaceKeepsOneLive(before: seq<Slot>, after: seq<Slot>, prior: Option<nat>)
    requires OneLivePerKey(before) && Replaces(before, after, prior)
    ensures OneLivePerKey(after)
  {
    var n := |before|;
    forall i, j | 0 <= i < j <= n && !after[i].status.Superseded? && !after[j].status.Superseded?
      ensures after[i].key != after[j].key
    {
      assert prior != Some(i) && after[i] == before[i];
      assert j < n ==> after[j] == before[j];
    }
  }

  lemma {:induction false} ReplaceKeepsHeirs(before: seq<Slot>, after: seq<Slot>, prior: Option<nat>)
    requires HeirsHold(before) && Replaces(before, after, prior)
    ensures HeirsHold(after)
  {
    var n := |before|;
    forall i | 0 <= i <= n ensures HeirHolds(after, i) {
      assert i < n ==> HeirHolds(before, i);
    }
  }

  lemma {:induction false} PriorIsTheLiveRow(rows: seq<Row>, key: Key)
    requires OneLivePerKey(SlotsOf(rows))
    ensures var prior := Prior(rows, key);
            && (prior.Some? ==> prior.value < |rows| && Live(rows[prior.value])
                                && KeyOf(rows[prior.value].lesson) == key)
            && forall i :: 0 <= i < |rows| && Live(rows[i]) && KeyOf(rows[i].lesson) == key
                           ==> prior == Some(i)
  {
    var prior, slots := Prior(rows, key), SlotsOf(rows);
    forall i | 0 <= i < |rows| && Live(rows[i]) && KeyOf(rows[i].lesson) == key
      ensures prior == Some(i)
    {
      assert rows[i].status.Active? || rows[i].status.Retired?;
      assert slots[i].key == slots[prior.value].key;
    }
  }

  lemma {:induction false} InsertReplaces(rows: seq<Row>, lesson: Lesson, now: int)
    requires OneLivePerKey(SlotsOf(rows))
    ensures var prior := Prior(rows, KeyOf(lesson));
            && (prior.Some? ==> prior.value < |rows|)
            && Replaces(SlotsOf(rows), SlotsOf(Insert(rows, lesson, prior, now)), prior)
  {
    PriorIsTheLiveRow(rows, KeyOf(lesson));
  }

  lemma {:induction false} StepKeepsConsistent(rows: seq<Row>, op: Op, k: nat)
    requires Consistent(rows, k) && WithinLimit(op, k)
    ensures Consistent(Step(rows, op), k)
  {
    if op.Add? {
      var built := Built(op.lesson);
      assert KeyOf(built) == KeyOf(op.lesson);
      var prior := Prior(rows, KeyOf(built));
      InsertReplaces(rows, built, op.now);
      ReplaceKeepsConsistent(SlotsOf(rows), SlotsOf(Insert(rows, built, prior, op.now)), prior, k);
    } else {
      StepIsRowwise(rows, op, k);
      RowwiseKeepsConsistent(SlotsOf(rows), SlotsOf(Step(rows, op)), k);
    }
  }

  /** Over every run there is at most one live lesson per key, no active lesson has
      reached the contradiction limit, and the supersession chain never breaks. */
  lemma {:induction false} RunsStayConsistent(rows: seq<Row>, ops: seq<Op>, k: nat)
    requires Consistent(rows, k) && forall op :: op in ops ==> WithinLimit(op, k)
    ensures Consistent(Run(rows, ops), k)
    decreases |ops|
  {
    if ops != [] {
      StepKeepsConsistent(rows, ops[0], k);
      RunsStayConsistent(Step(rows, ops[0]), ops[1..], k);
    }
  }

  /** The key has been retired by a decision. */
  predicate Refuted(rows: seq<Row>, key: Key) {
    exists i :: 0 <= i < |rows| && KeyOf(rows[i].lesson) == key && rows[i].status.Retired?
                && IsDecision(rows[i])
  }

  predicate Believed(rows: seq<Row>, key: Key) {
    exists i :: 0 <= i < |rows| && KeyOf(rows[i].lesson) == key && rows[i].status.Active?
  }

  lemma {:induction false} StepKeepsRefuted(rows: seq<Row>, op: Op, key: Key, k: nat)
    requires Consistent(rows, k) && WithinLimit(op, k) && Refuted(rows, key)
    ensures Refuted(Step(rows, op), key)
  {
    var i :| 0 <= i < |rows| && KeyOf(rows[i].lesson) == key && rows[i].status.Retired?
             && IsDecision(rows[i]);
    assert Step(rows, op)[i] == rows[i] by {
      if op.Add? {
        PriorIsTheLiveRow(rows, KeyOf(op.lesson));
      } else {
        StepIsRowwise(rows, op, k);
      }
    }
  }

  /** Once a key is retired by a decision, no run of any operations ever makes an
      active lesson for it again. */
  lemma {:induction false} RefutedNeverReturns(rows: seq<Row>, ops: seq<Op>, key: Key, k: nat)
    requires Consistent(rows, k) && forall op :: op in ops ==> WithinLimit(op, k)
    requires Refuted(rows, key)
    ensures Refuted(Run(rows, ops), key) && !Believed(Run(rows, ops), key)
    decreases |ops|
  {
    if ops != [] {
      StepKeepsConsistent(rows, ops[0], k);
      StepKeepsRefuted(rows, ops[0], key, k);
      RefutedNeverReturns(Step(rows, ops[0]), ops[1..], key, k);
    }
  }

  /** A review that retires a lesson -- the second contradiction or a sign reversal --
      refutes its key, whatever the wording of the recorded reason. */
  lemma {:induction false} ReviewRefutes(rows: seq<Row>, id: nat, e: Evidence, now: int, m: nat)
    requires Reviewed(rows, id, e, now, m).1.NowRetired?
    ensures IsActive(rows, id)
    ensures Refuted(Reviewed(rows, id, e, now, m).0, KeyOf(rows[id - 1].lesson))
  {
    var after := Reviewed(rows, id, e, now, m).0;
    assert KeyOf(after[id - 1].lesson) == KeyOf(rows[id - 1].lesson);
  }

  /** What adding a lesson does: its key is believed afterwards if and only if it was never
      refuted, and then by a new last row that holds the lesson as given, its caution cut to
      lie between a quarter and one. For a refuted key nothing changes. */
  lemma {:induction false} AddedIsBelievedIff(rows: seq<Row>, lesson: Lesson, now: int, k: nat)
    requires Consistent(rows, k)
    ensures var (after, id) := Added(rows, lesson, now);
            && (Believed(after, KeyOf(lesson)) <==> !Refuted(rows, KeyOf(lesson)))
            && (Refuted(rows, KeyOf(lesson)) ==> after == rows)
            && (!Refuted(rows, KeyOf(lesson)) ==>
                  && id == |after| == |rows| + 1 && after[|rows|].status.Active?
                  && HoldsLesson(after[|rows|].lesson, lesson))
  {
    var key := KeyOf(lesson);
    PriorIsTheLiveRow(rows, key);
    assert KeyOf(Built(lesson)) == key;
    if i :| 0 <= i < |rows| && KeyOf(rows[i].lesson) == key && rows[i].status.Retired? && IsDecision(rows[i]) {
      assert Prior(rows, key) == Some(i);
    } else {
      var after := Added(rows, lesson, now).0;
      assert KeyOf(after[|rows|].lesson) == key && after[|rows|].status.Active?;
    }
  }

  /** The row holds the lesson as given, but for the cut of its caution and the time it counts
      as confirmed. */
  predicate HoldsLesson(row: Lesson, given: Lesson) {
    && row.(caution := given.caution, lastConfirmedNs := given.lastConfirmedNs) == given
    && 0.25 <= row.caution <= 1.0
    && (0.25 <= given.caution <= 1.0 ==> row.caution == given.caution)
    && (given.caution < 0.25 ==> row.caution == 0.25) && (given.caution > 1.0 ==> row.caution == 1.0)
    && row.lastConfirmedNs == if given.lastConfirmedNs != 0 then given.lastConfirmedNs else given.createdNs
  }

  predicate Unsupported(ops: seq<Op>, id: nat, limit: nat) {
    forall op :: op in ops ==>
      op.Review? && op.id == id && !op.evidence.supported && op.maxContradictions == limit
  }

  /** Whatever else the evidence says, as many unsupported reviews as the limit leaves retire
      a lesson, and its key never returns. */
  lemma {:induction false} UnsupportedReviewsRefute(rows: seq<Row>, ops: seq<Op>, id: nat, limit: nat)
    requires IsActive(rows, id) && Unsupported(ops, id, limit) && ops != []
    requires rows[id - 1].lesson.contradictions + |ops| >= limit
    ensures Refuted(Run(rows, ops), KeyOf(rows[id - 1].lesson))
    decreases |ops|
  {
    var op, l := ops[0], rows[id - 1].lesson;
    assert op in ops;
    ReviewDecides(rows, id, op.evidence, op.now, limit);
    var next := Step(rows, op);
    if IsActive(next, id) {
      assert forall later :: later in ops[1..] ==> later in ops;
      assert ops[1..] != [];
      UnsupportedReviewsRefute(next, ops[1..], id, limit);
    } else {
      ReviewRefutes(rows, id, op.evidence, op.now, limit);
      RetiredStays(next, ops[1..], id, limit);
    }
  }

  lemma {:induction false} RetiredStays(rows: seq<Row>, ops: seq<Op>, id: nat, limit: nat)
    requires !IsActive(rows, id) && Unsupported(ops, id, limit)
    ensures Run(rows, ops) == rows
    decreases |ops|
  {
    if ops != [] {
      assert ops[0] in ops && forall later :: later in ops[1..] ==> later in ops;
      RetiredStays(rows, ops[1..], id, limit);
    }
  }

  /** What expiry retires: exactly the active rows whose last confirmation, or whose making if
      they were never confirmed, is older than the given days. Everything else stays. */
  lemma {:induction false} ExpiredIff(rows: seq<Row>, now: int, days: nat, i: nat)
    requires i < |rows|
    ensures var l, after := rows[i].lesson, Expired(rows, now, days)[i];
            var age := now - (if l.lastConfirmedNs > 0 then l.lastConfirmedNs else l.createdNs);
            && (after != rows[i] <==> rows[i].status.Active? && age > days * 24 * 3600 * 1_000_000_000)
            && (after != rows[i] ==> after.status.Retired? && after.lesson == l && after.updatedNs == now)
  {
  }

  /** A retirement, by whatever path, that leaves this row retired is final for its
      key -- no run ever believes it again -- if and only if it is a decision. For an
      operator's retirement that means: the lesson already had a contradiction, or
      the reason contains one of the four words. */
  lemma {:induction false} RetirementIsFinalIffDecision(rows: seq<Row>, i: nat, k: nat)
    requires Consistent(rows, k) && i < |rows| && rows[i].status.Retired? && k > 0
    ensures (forall ops: seq<Op> :: (forall op :: op in ops ==> WithinLimit(op, k)) ==>
               !Believed(Run(rows, ops), KeyOf(rows[i].lesson)))
            <==> IsDecision(rows[i])
  {
    var key := KeyOf(rows[i].lesson);
    if IsDecision(rows[i]) {
      forall ops: seq<Op> | forall op :: op in ops ==> WithinLimit(op, k)
        ensures !Believed(Run(rows, ops), key)
      {
        RefutedNeverReturns(rows, ops, key, k);
      }
    } else {
      var again := rows[i].lesson.(contradictions := 0);
      var ops := [Add(again, 0)];
      StaleLessonReturns(rows, i, again, 0, k);
      assert ops[1..] == [];
      assert Run(rows, ops) == Run(Step(rows, ops[0]), []);
    }
  }

  /** A lesson retired without a decision is re-minted by the next one that says the
      same thing. */
  lemma {:induction false} StaleLessonReturns(rows: seq<Row>, i: nat, lesson: Lesson, now: int, k: nat)
    requires Consistent(rows, k) && i < |rows| && rows[i].status.Retired? && !IsDecision(rows[i])
    requires KeyOf(lesson) == KeyOf(rows[i].lesson)
    ensures Believed(Step(rows, Add(lesson, now)), KeyOf(lesson))
    ensures !Live(Step(rows, Add(lesson, now))[i])
  {
    assert Prior(rows, KeyOf(lesson)) == Some(i);
    var after := Step(rows, Add(lesson, now));
    assert after[|rows|] == Row(Built(lesson), Active, None, "", now);
  }

  /** When an operator's retirement lasts: after it no run ever believes the lesson's key
      again if and only if the lesson already had a contradiction or the reason given
      contains one of the four words. */
  lemma {:induction false} OperatorRetirementLastsIff(rows: seq<Row>, id: nat, reason: string, now: int, k: nat)
    requires Consistent(rows, k) && IsActive(rows, id)
    ensures (forall ops: seq<Op> :: (forall op :: op in ops ==> WithinLimit(op, k)) ==>
               !Believed(Run(Retiring(rows, id, reason, now), ops), KeyOf(rows[id - 1].lesson)))
            <==> || rows[id - 1].lesson.contradictions > 0
                 || Mentions(reason, "contradict") || Mentions(reason, "reversal")
                 || Mentions(reason, "operator") || Mentions(reason, "manual")
  {
    StepKeepsConsistent(rows, Retire(id, reason, now), k);
    assert SlotsOf(rows)[id - 1].contradictions < k;
    RetirementIsFinalIffDecision(Retiring(rows, id, reason, now), id - 1, k);
  }

  /** The default, empty reason is not a decision: the next matching lesson undoes
      the operator's retirement. */
  lemma {:induction false} EmptyReasonIsUndone(rows: seq<Row>, id: nat, lesson: Lesson, now: int, k: nat)
    requires Consistent(rows, k) && IsActive(rows, id) && rows[id - 1].lesson.contradictions == 0
    requires KeyOf(lesson) == KeyOf(rows[id - 1].lesson) && lesson.contradictions < k
    ensures Believed(Run(rows, [Retire(id, "", now), Add(lesson, now)]), KeyOf(lesson))
  {
    var ops := [Retire(id, "", now), Add(lesson, now)];
    StepKeepsConsistent(rows, ops[0], k);
    var retired := Step(rows, ops[0]);
    StaleLessonReturns(retired, id - 1, lesson, now, k);
    assert ops[1..] == [ops[1]] && ops[1..][1..] == [];
    assert Run(rows, ops) == Run(retired, [ops[1]]) == Run(Step(retired, ops[1]), []);
  }

  lemma {:induction false} MentionsNeeds(text: string, word: string, c: char)
    requires c in word && c !in text
    ensures !Mentions(text, word)
  {
    var k :| 0 <= k < |word| && word[k] == c;
    assert k < |text| ==> text[k] != c;
    if text != [] {
      MentionsNeeds(text[1..], word, c);
    }
  }

  predicate OnlyFrom(text: string, letters: set<char>) {
    forall c :: c in text ==> c in letters
  }

  lemma {:induction false} DecimalIsDigits(n: nat)
    ensures OnlyFrom(Decimal(n), {'0', '1', '2', '3', '4', '5', '6', '7', '8', '9'})
  {
    if n >= 10 {
      DecimalIsDigits(n / 10);
      DecimalIsDigits(n % 10);
    }
  }

  const EXPIRY_LETTERS := {'n', 'o', ' ', 'c', 'f', 'i', 'r', 'm', 'g', 'e', 'v', 'd', 'a', 'y', 's',
                           '0', '1', '2', '3', '4', '5', '6', '7', '8', '9'}

  lemma {:induction false} ExpiryLetters(days: nat)
    ensures OnlyFrom(ExpiryReason(days), EXPIRY_LETTERS)
  {
    DecimalIsDigits(days);
    assert OnlyFrom("no confirming evidence in ", EXPIRY_LETTERS);
    assert OnlyFrom(" days", EXPIRY_LETTERS);
  }

  lemma {:induction false} ExpiryMentionsNothing(text: string)
    requires OnlyFrom(text, EXPIRY_LETTERS)
    ensures !Mentions(text, "contradict") && !Mentions(text, "reversal")
    ensures !Mentions(text, "operator") && !Mentions(text, "manual")
  {
    assert "contradict"[3] == 't' && "reversal"[7] == 'l' && "operator"[1] == 'p' && "manual"[3] == 'u';
    MentionsNeeds(text, "contradict", 't');
    MentionsNeeds(text, "reversal", 'l');
    MentionsNeeds(text, "operator", 'p');
    MentionsNeeds(text, "manual", 'u');
  }

  /** Expiry is never a decision: fresh evidence may bring an expired lesson back. */
  lemma {:induction false} ExpiryIsNotADecision(row: Row, now: int, days: nat)
    requires Unconfirmed(row, now - InNs(days)) && row.lesson.contradictions == 0
    ensures ExpiredRow(row, now, days).status.Retired? && !IsDecision(ExpiredRow(row, now, days))
  {
    ExpiryLetters(days);
    ExpiryMentionsNothing(ExpiryReason(days));
  }
}
