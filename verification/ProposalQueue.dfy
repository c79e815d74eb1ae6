/** The review queue of proposals: pending, approved or rejected, validated, applied,
    or expired. An item's status is changed in place; the queue keeps insertion order. */
module ProposalQueue {
  import opened Common

  datatype Status = Pending | Approved | Rejected | Validated | Applied | Expired

  datatype Item = Item(id: string, path: string, value: real, expiresNs: int,
                       status: Status, reviewedBy: Option<string>, runId: Option<string>)

  function Find(items: seq<Item>, id: string): (at: Option<nat>)
    ensures at.Some? ==> at.value < |items| && items[at.value].id == id
                         && forall i :: 0 <= i < at.value ==> items[i].id != id
    ensures at.None? ==> forall i :: 0 <= i < |items| ==> items[i].id != id
  {
    if items == [] then None
    else if items[0].id == id then Some(0)
    else
      var rest := Find(items[1..], id);
      if rest.Some? then Some(rest.value + 1) else None
  }

  /** The ids are the keys of a dictionary. */
  ghost predicate Keyed(items: seq<Item>) {
    forall i, j :: 0 <= i < j < |items| ==> items[i].id != items[j].id
  }

  function ExpireIf(items: seq<Item>, stale: Item -> bool): (out: seq<Item>)
    ensures |out| == |items|
    ensures forall i :: 0 <= i < |items| ==>
              out[i] == if items[i].status.Pending? && stale(items[i])
                        then items[i].(status := Expired) else items[i]
  {
    seq(|items|, i requires 0 <= i < |items| =>
      if items[i].status.Pending? && stale(items[i]) then items[i].(status := Expired) else items[i])
  }

  /** Assigning a dictionary key: an existing key keeps its place. */
  function Put(items: seq<Item>, item: Item): seq<Item> {
    var at := Find(items, item.id);
    if at.Some? then items[at.value := item] else items + [item]
  }

  function Adding(items: seq<Item>, item: Item): seq<Item> {
    Put(ExpireIf(items, (x: Item) => x.path == item.path), item)
  }

  function Expiring(items: seq<Item>, now: int): seq<Item> {
    ExpireIf(items, (x: Item) => x.expiresNs != 0 && now > x.expiresNs)
  }

  /** Move one item on if it is in the required status; otherwise refuse. */
  function Advance(items: seq<Item>, id: string, from: Status, to: Item -> Item): Option<seq<Item>> {
    var at := Find(items, id);
    if at.Some? && items[at.value].status == from
    then Some(items[at.value := to(items[at.value])]) else None
  }

  function Reviewing(items: seq<Item>, id: string, approve: bool, who: string): Option<seq<Item>> {
    Advance(items, id, Pending, (x: Item) =>
      x.(status := if approve then Approved else Rejected, reviewedBy := Some(who)))
  }

  function Validating(items: seq<Item>, id: string, run: string, passed: bool): Option<seq<Item>> {
    Advance(items, id, Approved, (x: Item) =>
      x.(status := if passed then Validated else Rejected, runId := Some(run)))
  }

  function Applying(items: seq<Item>, id: string): Option<seq<Item>> {
    Advance(items, id, Validated, (x: Item) => x.(status := Applied))
  }

  function OrSame(out: Option<seq<Item>>, items: seq<Item>): seq<Item> {
    if out.Some? then out.value else items
  }

  class Queue {
    var items: seq<Item>

    constructor ()
      ensures items == []
    {
      items := [];
    }

    method Locate(id: string) returns (at: Option<nat>)
      ensures at == Find(items, id)
    {
      var i := 0;
      while i < |items|
        invariant 0 <= i <= |items|
        invariant forall j :: 0 <= j < i ==> items[j].id != id
      {
        if items[i].id == id {
          return Some(i);
        }
        i := i + 1;
      }
      return None;
    }

    method Add(item: Item)
      modifies this
      ensures items == Adding(old(items), item)
    {
      var before := items;
      for i := 0 to |before|
        invariant |items| == |before|
        invariant forall j :: 0 <= j < i ==>
                    items[j] == if before[j].status.Pending? && before[j].path == item.path
                                then before[j].(status := Expired) else before[j]
        invariant forall j :: i <= j < |before| ==> items[j] == before[j]
      {
        if items[i].path == item.path && items[i].status.Pending? {
          items := items[i := items[i].(status := Expired)];
        }
      }
      assert items == ExpireIf(before, (x: Item) => x.path == item.path);
      var at := Locate(item.id);
      if at.Some? {
        items := items[at.value := item];
      } else {
        items := items + [item];
      }
    }

    method ExpireStale(now: int) returns (n: nat)
      modifies this
      ensures items == Expiring(old(items), now)
      ensures n == Differing(old(items), items)
    {
      ghost var after := Expiring(items, now);
      var before := items;
      n := 0;
      for i := 0 to |before|
        invariant |items| == |before|
        invariant forall j :: 0 <= j < i ==> items[j] == after[j]
        invariant forall j :: i <= j < |before| ==> items[j] == before[j]
        invariant n == Differing(before[..i], after[..i])
      {
        DifferingOfOneMore(before, after, i);
        if items[i].status.Pending? && items[i].expiresNs != 0 && now > items[i].expiresNs {
          items := items[i := items[i].(status := Expired)];
          n := n + 1;
        }
      }
      assert items == after && before[..|before|] == before && after[..|before|] == after;
    }

    method Review(id: string, approve: bool, who: string) returns (ok: bool)
      modifies this
      ensures ok == Reviewing(old(items), id, approve, who).Some?
      ensures items == OrSame(Reviewing(old(items), id, approve, who), old(items))
    {
      var at := Locate(id);
      if at.None? || !items[at.value].status.Pending? {
        return false;
      }
      var reviewed := items[at.value].(status := if approve then Approved else Rejected);
      items := items[at.value := reviewed.(reviewedBy := Some(who))];
      return true;
    }

    method MarkValidated(id: string, run: string, passed: bool) returns (ok: bool)
      modifies this
      ensures ok == Validating(old(items), id, run, passed).Some?
      ensures items == OrSame(Validating(old(items), id, run, passed), old(items))
    {
      var at := Locate(id);
      if at.None? || !items[at.value].status.Approved? {
        return false;
      }
      var tested := items[at.value].(runId := Some(run));
      items := items[at.value := tested.(status := if passed then Validated else Rejected)];
      return true;
    }

    method MarkApplied(id: string) returns (ok: bool)
      modifies this
      ensures ok == Applying(old(items), id).Some?
      ensures items == OrSame(Applying(old(items), id), old(items))
    {
      var at := Locate(id);
      if at.None? || !items[at.value].status.Validated? {
        return false;
      }
      items := items[at.value := items[at.value].(status := Applied)];
      return true;
    }
  }

  // ---------------------------------------------------------------------
  // Runs
  // ---------------------------------------------------------------------

  datatype Op =
    | OpAdd(item: Item)
    | OpExpire(now: int)
    | OpReview(id: string, approve: bool, who: string)
    | OpValidate(id: string, run: string, passed: bool)
    | OpApply(id: string)

  function Step(items: seq<Item>, op: Op): seq<Item> {
    match op
    case OpAdd(item) => Adding(items, item)
    case OpExpire(now) => Expiring(items, now)
    case OpReview(id, approve, who) => OrSame(Reviewing(items, id, approve, who), items)
    case OpValidate(id, run, passed) => OrSame(Validating(items, id, run, passed), items)
    case OpApply(id) => OrSame(Applying(items, id), items)
  }

  /** The queue after a run that starts empty. */
  function After(ops: seq<Op>): seq<Item> {
    if ops == [] then [] else Step(After(ops[..|ops| - 1]), ops[|ops| - 1])
  }

  function Run(items: seq<Item>, ops: seq<Op>): seq<Item>
    decreases |ops|
  {
    if ops == [] then items else Run(Step(items, ops[0]), ops[1..])
  }

  /** New proposals are pending, as the proposal engine makes them. */
  predicate AddsPending(ops: seq<Op>) {
    forall i :: 0 <= i < |ops| && ops[i].OpAdd? ==> ops[i].item.status.Pending?
  }

  ghost predicate OnePendingPerPath(items: seq<Item>) {
    forall i, j :: 0 <= i < j < |items| && items[i].status.Pending? && items[j].status.Pending?
      ==> items[i].path != items[j].path
  }

  /** An operation other than adding touches one item at most, never its id or path,
      and never makes it pending. */
  ghost predicate Touches(before: Item, after: Item) {
    && after.id == before.id && after.path == before.path && after.value == before.value
    && (after.status.Pending? ==> before.status.Pending?)
  }

  lemma {:induction false} StepTouches(items: seq<Item>, op: Op)
    requires !op.OpAdd?
    ensures |Step(items, op)| == |items|
    ensures forall i :: 0 <= i < |items| ==> Touches(items[i], Step(items, op)[i])
  {
  }

  lemma {:induction false} AddShape(items: seq<Item>, item: Item)
    requires Keyed(items)
    ensures var after := Adding(items, item);
            && |items| <= |after| <= |items| + 1
            && (forall i :: 0 <= i < |items| ==>
                  after[i] == item || (Touches(items[i], after[i]) && after[i].id != item.id
                                       && (after[i].status.Pending? ==> after[i].path != item.path)))
            && (forall i :: |items| <= i < |after| ==> after[i] == item)
            && (exists i :: 0 <= i < |after| && after[i] == item)
            && Keyed(after)
  {
    var swept := ExpireIf(items, (x: Item) => x.path == item.path);
    var at := Find(swept, item.id);
    var after := Adding(items, item);
    if at.Some? {
      assert after[at.value] == item;
    } else {
      assert after[|items|] == item;
    }
    forall i | 0 <= i < |items|
      ensures after[i] == item || (Touches(items[i], after[i]) && after[i].id != item.id
                                   && (after[i].status.Pending? ==> after[i].path != item.path))
    {
      assert swept[i].id == items[i].id;
    }
  }

  /** Over every run, with or without colliding ids, at most one proposal per path is
      pending. */
  lemma {:induction false} AtMostOnePending(ops: seq<Op>)
    ensures Keyed(After(ops)) && OnePendingPerPath(After(ops))
  {
    if ops != [] {
      var before, op := After(ops[..|ops| - 1]), ops[|ops| - 1];
      AtMostOnePending(ops[..|ops| - 1]);
      if op.OpAdd? {
        AddShape(before, op.item);
      } else {
        StepTouches(before, op);
      }
    }
  }

  // ---------------------------------------------------------------------
  // How a proposal got where it is
  // ---------------------------------------------------------------------

  /** Operation a added this very proposal, and its id has not been added again since. */
  ghost predicate AddedAt(ops: seq<Op>, item: Item, a: nat) {
    && a < |ops| && ops[a].OpAdd?
    && ops[a].item.id == item.id && ops[a].item.path == item.path && ops[a].item.value == item.value
    && forall b :: a < b < |ops| && ops[b].OpAdd? ==> ops[b].item.id != item.id
  }

  /** After operation a the id was approved by a human. */
  ghost predicate ApprovedSince(ops: seq<Op>, id: string, a: nat) {
    exists j: nat :: a < j < |ops| && ops[j].OpReview? && ops[j].id == id && ops[j].approve
  }

  /** ... then passed a validation run. */
  ghost predicate ValidatedSince(ops: seq<Op>, id: string, a: nat) {
    exists k: nat :: k < |ops| && ops[k].OpValidate? && ops[k].id == id && ops[k].passed
      && ApprovedSince(ops[..k], id, a)
  }

  /** ... and was applied after that. */
  ghost predicate AppliedSince(ops: seq<Op>, id: string, a: nat) {
    exists l: nat :: l < |ops| && ops[l].OpApply? && ops[l].id == id && ValidatedSince(ops[..l], id, a)
  }

  /** What an item's status says about what happened since it was added. */
  ghost predicate EarnedSince(ops: seq<Op>, item: Item, a: nat) {
    && (item.status.Approved? ==> ApprovedSince(ops, item.id, a))
    && (item.status.Validated? ==> ValidatedSince(ops, item.id, a))
    && (item.status.Applied? ==> AppliedSince(ops, item.id, a))
  }

  ghost predicate Earned(ops: seq<Op>, item: Item) {
    exists a: nat :: AddedAt(ops, item, a) && EarnedSince(ops, item, a)
  }

  lemma {:induction false} AddedLater(ops: seq<Op>, op: Op, before: Item, after: Item, a: nat)
    requires AddedAt(ops, before, a) && Touches(before, after)
    requires op.OpAdd? ==> op.item.id != before.id
    ensures AddedAt(ops + [op], after, a)
  {
  }

  lemma {:induction false} ApprovedLater(ops: seq<Op>, op: Op, id: string, a: nat)
    requires ApprovedSince(ops, id, a)
    ensures ApprovedSince(ops + [op], id, a)
  {
    var j: nat :| a < j < |ops| && ops[j].OpReview? && ops[j].id == id && ops[j].approve;
    assert (ops + [op])[j] == ops[j];
  }

  lemma {:induction false} ValidatedLater(ops: seq<Op>, op: Op, id: string, a: nat)
    requires ValidatedSince(ops, id, a)
    ensures ValidatedSince(ops + [op], id, a)
  {
    var k: nat :| k < |ops| && ops[k].OpValidate? && ops[k].id == id && ops[k].passed
      && ApprovedSince(ops[..k], id, a);
    var all := ops + [op];
    assert all[..k] == ops[..k] && all[k] == ops[k];
  }

  lemma {:induction false} AppliedLater(ops: seq<Op>, op: Op, id: string, a: nat)
    requires AppliedSince(ops, id, a)
    ensures AppliedSince(ops + [op], id, a)
  {
    var l: nat :| l < |ops| && ops[l].OpApply? && ops[l].id == id && ValidatedSince(ops[..l], id, a);
    var all := ops + [op];
    assert all[..l] == ops[..l] && all[l] == ops[l];
  }

  lemma {:induction false} EarnedLater(ops: seq<Op>, op: Op, item: Item, a: nat)
    requires EarnedSince(ops, item, a)
    ensures EarnedSince(ops + [op], item, a)
  {
    match item.status
    case Approved => ApprovedLater(ops, op, item.id, a);
    case Validated => ValidatedLater(ops, op, item.id, a);
    case Applied => AppliedLater(ops, op, item.id, a);
    case _ =>
  }

  /** An operation that moves an item on earns the status it sets. */
  lemma {:induction false} MoveIsEarned(ops: seq<Op>, items: seq<Item>, op: Op, i: nat, a: nat)
    requires !op.OpAdd? && i < |items| && a < |ops| && EarnedSince(ops, items[i], a)
    ensures i < |Step(items, op)| && EarnedSince(ops + [op], Step(items, op)[i], a)
  {
    var all, before, after := ops + [op], items[i], Step(items, op)[i];
    assert all[|ops|] == op && all[..|ops|] == ops;
    EarnedLater(ops, op, before, a);
    if after.status != before.status {
      match after.status
      case Approved => assert ApprovedSince(all, before.id, a);
      case Validated => assert ValidatedSince(all, before.id, a);
      case Applied => assert AppliedSince(all, before.id, a);
      case _ =>
    }
  }

  lemma {:induction false} StepEarns(ops: seq<Op>, items: seq<Item>, op: Op, i: nat)
    requires Keyed(items) && forall j :: 0 <= j < |items| ==> Earned(ops, items[j])
    requires op.OpAdd? ==> op.item.status.Pending?
    requires i < |Step(items, op)|
    ensures Earned(ops + [op], Step(items, op)[i])
  {
    var after := Step(items, op)[i];
    if op.OpAdd? {
      AddShape(items, op.item);
      if after == op.item {
        assert AddedAt(ops + [op], after, |ops|);
      } else {
        var a: nat :| AddedAt(ops, items[i], a) && EarnedSince(ops, items[i], a);
        AddedLater(ops, op, items[i], after, a);
        EarnedLater(ops, op, items[i], a);
      }
    } else {
      StepTouches(items, op);
      var a: nat :| AddedAt(ops, items[i], a) && EarnedSince(ops, items[i], a);
      AddedLater(ops, op, items[i], after, a);
      MoveIsEarned(ops, items, op, i, a);
    }
  }

  /** Over every run from an empty queue, re-used ids included, an item was added with its
      path and value by an operation after which its id was not added again; if it is
      approved, a human approved it since; if validated, it passed a run after that; and
      if applied, it was applied after that. */
  lemma {:induction false} EveryStatusIsEarned(ops: seq<Op>)
    requires AddsPending(ops)
    ensures forall i :: 0 <= i < |After(ops)| ==> Earned(ops, After(ops)[i])
  {
    if ops != [] {
      var n := |ops| - 1;
      var before := After(ops[..n]);
      EveryStatusIsEarned(ops[..n]);
      AtMostOnePending(ops[..n]);
      forall i | 0 <= i < |After(ops)| ensures Earned(ops, After(ops)[i]) {
        StepEarns(ops[..n], before, ops[n], i);
        assert ops[..n] + [ops[n]] == ops;
      }
    }
  }

  // ---------------------------------------------------------------------
  // Every item by itself
  // ---------------------------------------------------------------------

  /** The life of one proposal: pending until it is reviewed, outlived or superseded by one
      for the same setting; approved until it is validated; validated until it is applied. */
  function Lived(item: Item, op: Op): Item {
    match item.status
    case Pending =>
      (match op
       case OpReview(id, approve, who) =>
         if id != item.id then item
         else item.(status := if approve then Approved else Rejected, reviewedBy := Some(who))
       case OpAdd(rival) => if rival.path == item.path then item.(status := Expired) else item
       case OpExpire(now) =>
         if item.expiresNs != 0 && item.expiresNs < now then item.(status := Expired) else item
       case _ => item)
    case Approved =>
      if op.OpValidate? && op.id == item.id
      then item.(status := if op.passed then Validated else Rejected, runId := Some(op.run)) else item
    case Validated => if op.OpApply? && op.id == item.id then item.(status := Applied) else item
    case _ => item
  }

  function LivedThrough(item: Item, ops: seq<Op>): Item
    decreases |ops|
  {
    if ops == [] then item else LivedThrough(Lived(item, ops[0]), ops[1..])
  }

  lemma {:induction false} StepLives(items: seq<Item>, op: Op, i: nat)
    requires Keyed(items) && i < |items| && (op.OpAdd? ==> op.item.id != items[i].id)
    ensures i < |Step(items, op)| && Step(items, op)[i] == Lived(items[i], op)
  {
    match op
    case OpAdd(rival) => AddLives(items, rival, i);
    case OpExpire(now) =>
    case OpReview(id, approve, who) => ReviewLives(items, id, approve, who, i);
    case OpValidate(id, run, passed) => ValidationLives(items, id, run, passed, i);
    case OpApply(id) => ApplicationLives(items, id, i);
  }

  lemma {:induction false} AddLives(items: seq<Item>, rival: Item, i: nat)
    requires Keyed(items) && i < |items| && rival.id != items[i].id
    ensures i < |Adding(items, rival)| && Adding(items, rival)[i] == Lived(items[i], OpAdd(rival))
  {
    var swept := ExpireIf(items, (x: Item) => x.path == rival.path);
    assert swept[i].id == items[i].id;
  }

  lemma {:induction false} ReviewLives(items: seq<Item>, id: string, approve: bool, who: string, i: nat)
    requires Keyed(items) && i < |items|
    ensures var after := OrSame(Reviewing(items, id, approve, who), items);
            i < |after| && after[i] == Lived(items[i], OpReview(id, approve, who))
  {
  }

  lemma {:induction false} ValidationLives(items: seq<Item>, id: string, run: string, passed: bool, i: nat)
    requires Keyed(items) && i < |items|
    ensures var after := OrSame(Validating(items, id, run, passed), items);
            i < |after| && after[i] == Lived(items[i], OpValidate(id, run, passed))
  {
  }

  lemma {:induction false} ApplicationLives(items: seq<Item>, id: string, i: nat)
    requires Keyed(items) && i < |items|
    ensures var after := OrSame(Applying(items, id), items);
            i < |after| && after[i] == Lived(items[i], OpApply(id))
  {
  }

  lemma {:induction false} StepKeepsKeyed(items: seq<Item>, op: Op)
    requires Keyed(items)
    ensures Keyed(Step(items, op))
  {
    if op.OpAdd? {
      AddShape(items, op.item);
    } else {
      StepTouches(items, op);
    }
  }

  /** The queue is its items side by side: over every run that does not add its id again, an
      item lives exactly the life of its own, whatever else the queue holds and in whatever
      order it holds it. */
  lemma {:induction false} ItemsLiveTheirOwnLives(items: seq<Item>, ops: seq<Op>, i: nat)
    requires Keyed(items) && i < |items|
    requires forall op :: op in ops && op.OpAdd? ==> op.item.id != items[i].id
    ensures i < |Run(items, ops)| && Run(items, ops)[i] == LivedThrough(items[i], ops)
    decreases |ops|
  {
    if ops != [] {
      assert ops[0] in ops && forall op :: op in ops[1..] ==> op in ops;
      StepLives(items, ops[0], i);
      StepKeepsKeyed(items, ops[0]);
      ItemsLiveTheirOwnLives(Step(items, ops[0]), ops[1..], i);
    }
  }

  /** Nothing of an operation is about this item. */
  predicate LeavesAlone(op: Op, item: Item) {
    match op
    case OpAdd(rival) => rival.path != item.path
    case OpExpire(now) => item.expiresNs == 0 || now <= item.expiresNs
    case OpReview(id, _, _) => id != item.id
    case OpValidate(id, _, _) => id != item.id
    case OpApply(id) => id != item.id
  }

  lemma {:induction false} LeftAlone(item: Item, ops: seq<Op>)
    requires forall op :: op in ops ==> LeavesAlone(op, item)
    ensures LivedThrough(item, ops) == item
    decreases |ops|
  {
    if ops != [] {
      assert ops[0] in ops && forall op :: op in ops[1..] ==> op in ops;
      LeftAlone(item, ops[1..]);
    }
  }

  lemma {:induction false} LivedConcat(item: Item, a: seq<Op>, b: seq<Op>)
    ensures LivedThrough(item, a + b) == LivedThrough(LivedThrough(item, a), b)
    decreases |a|
  {
    if a == [] {
      assert a + b == b;
    } else {
      assert (a + b)[1..] == a[1..] + b;
      LivedConcat(Lived(item, a[0]), a[1..], b);
    }
  }

  lemma {:induction false} LivedOnce(item: Item, quiet: seq<Op>, op: Op, rest: seq<Op>)
    requires forall q :: q in quiet ==> LeavesAlone(q, item)
    ensures LivedThrough(item, quiet + [op] + rest) == LivedThrough(Lived(item, op), rest)
  {
    LeftAlone(item, quiet);
    LivedConcat(item, quiet, [op] + rest);
    assert quiet + [op] + rest == quiet + ([op] + rest);
    assert ([op] + rest)[1..] == rest;
  }

  /** The way through: approved, passed and applied, with whatever else happening to other
      proposals in between, a pending proposal ends applied; a no at either point ends it as
      rejected, and neither a second review nor applying it early changes anything. */
  lemma {:induction false} TheWayThrough(item: Item, first: seq<Op>, second: seq<Op>, third: seq<Op>,
                                         who: string, run: string, approve: bool, passed: bool)
    requires item.status.Pending?
    requires forall op :: op in first || op in second || op in third ==> LeavesAlone(op, item)
    ensures var ops := first + [OpReview(item.id, approve, who)] + (second + [OpValidate(item.id, run, passed)]
                       + (third + [OpApply(item.id)] + []));
            LivedThrough(item, ops).status == if approve && passed then Applied else Rejected
  {
    var reviewed := Lived(item, OpReview(item.id, approve, who));
    var tested := Lived(reviewed, OpValidate(item.id, run, passed));
    var last := third + [OpApply(item.id)] + [];
    assert forall op :: op in second || op in third ==> LeavesAlone(op, reviewed) && LeavesAlone(op, tested);
    LivedOnce(item, first, OpReview(item.id, approve, who), second + [OpValidate(item.id, run, passed)] + last);
    LivedOnce(reviewed, second, OpValidate(item.id, run, passed), last);
    LivedOnce(tested, third, OpApply(item.id), []);
    assert second + [OpValidate(item.id, run, passed)] + last
        == second + [OpValidate(item.id, run, passed)] + (third + [OpApply(item.id)] + []);
  }

  // ---------------------------------------------------------------------
  // Fresh ids
  // ---------------------------------------------------------------------

  /** The proposal of this item is still in the queue, whatever its review status. */
  predicate Kept(items: seq<Item>, item: Item) {
    exists i :: 0 <= i < |items| && items[i].id == item.id && items[i].path == item.path
                && items[i].value == item.value
  }

  /** Adding keeps every proposal already in the queue exactly when the id is new, or
      collides with one asking for the very same value of the same setting. */
  lemma {:induction false} AddKeepsAllIffFresh(items: seq<Item>, item: Item)
    requires Keyed(items)
    ensures (forall x :: x in items ==> Kept(Adding(items, item), x))
            <==> forall x :: x in items && x.id == item.id ==> x.path == item.path && x.value == item.value
  {
    AddShape(items, item);
    var after := Adding(items, item);
    forall x | x in items
      ensures Kept(after, x) <==> (x.id == item.id ==> x.path == item.path && x.value == item.value)
    {
      var i :| 0 <= i < |items| && items[i] == x;
      var k :| 0 <= k < |after| && after[k] == item;
      if x.id == item.id {
        assert forall j :: 0 <= j < |after| && after[j].id == item.id ==> j == k;
      } else {
        assert after[i] != item ==> Touches(items[i], after[i]);
        if after[i] == item {
          AddedElsewhere(items, item, i);
        }
      }
    }
  }

  /** The new item only ever takes the place of an item with its own id. */
  lemma {:induction false} AddedElsewhere(items: seq<Item>, item: Item, i: nat)
    requires i < |items| && items[i].id != item.id
    ensures Adding(items, item)[i].id == items[i].id
  {
  }

  /** A decided proposal stays decided: nothing but a colliding id reopens it. */
  predicate Final(item: Item) {
    item.status.Applied? || item.status.Rejected? || item.status.Expired?
  }

  lemma {:induction false} FinalStep(items: seq<Item>, op: Op, i: nat)
    requires i < |items| && Final(items[i])
    requires op.OpAdd? ==> op.item.id != items[i].id
    ensures i < |Step(items, op)| && Step(items, op)[i] == items[i]
  {
  }

  /** An item in a final state is the same after every run that does not add its id
      again. */
  lemma {:induction false} FinalStaysFinal(items: seq<Item>, ops: seq<Op>, i: nat)
    requires i < |items| && Final(items[i])
    requires forall op :: op in ops && op.OpAdd? ==> op.item.id != items[i].id
    ensures i < |Run(items, ops)| && Run(items, ops)[i] == items[i]
    decreases |ops|
  {
    if ops != [] {
      assert ops[0] in ops && forall op :: op in ops[1..] ==> op in ops;
      FinalStep(items, ops[0], i);
      FinalStaysFinal(Step(items, ops[0]), ops[1..], i);
    }
  }
}
