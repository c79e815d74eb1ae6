/** The audit journal's hash chain: the appender that writes it and the standalone
    walker that re-verifies it inside a backup. */
module AuditChain {
  import opened Common
  import opened CanonicalJson

  /** The hash, and what number a JSON token denotes to an equality test. */
  datatype World = World(sha: string -> string, number: string -> Option<real>)

  /** SHA-256 is taken to be injective, and a decimal literal denotes its number. */
  ghost predicate Ideal(w: World) {
    && (forall a, b :: w.sha(a) == w.sha(b) ==> a == b)
    && forall n: nat :: w.number(Decimal(n)) == Some(n as real)
  }

  /** One parsed record; a missing key is None. */
  datatype Record = Record(seqNo: Option<Json>, ts: Option<Json>, run: Option<Json>,
                           event: Option<Json>, actor: Option<Json>, payload: Option<Json>,
                           prevHash: Option<Json>, hash: Option<Json>)

  /** One line of the file as the walker sees it. */
  datatype Line = Blank | NotJson | NotAnObject | Parsed(rec: Record)

  const GENESIS: string := "0000000000000000000000000000000000000000000000000000000000000000"

  predicate Complete(r: Record) {
    r.seqNo.Some? && r.ts.Some? && r.run.Some? && r.event.Some? && r.actor.Some? && r.payload.Some?
    && r.prevHash.Some?
  }

  /** The seven hashed fields, in key order. */
  function Body(r: Record): Json
    requires Complete(r)
  {
    Object([Field("actor", r.actor.value), Field("event", r.event.value),
            Field("payload", r.payload.value), Field("prev_hash", r.prevHash.value),
            Field("run_id", r.run.value), Field("seq", r.seqNo.value), Field("ts_ns", r.ts.value)])
  }

  ghost predicate ParsedWell(r: Record) {
    Complete(r) ==> WellFormed(Body(r))
  }

  /** Python equality of a parsed value with the expected sequence number. */
  predicate SeqIs(w: World, j: Option<Json>, n: nat) {
    j.Some? && j.value.Token? && w.number(j.value.token) == Some(n as real)
  }

  predicate TextIs(j: Option<Json>, s: string) {
    j == Some(Text(s))
  }

  function Digest(w: World, r: Record, ascii: bool): string
    requires Complete(r)
  {
    w.sha(Encode(Body(r), ascii))
  }

  // ---------------------------------------------------------------------
  // The walker
  // ---------------------------------------------------------------------

  datatype Verdict =
    | Intact(count: nat)
    | BadJson(lineNo: nat)
    | BadSeq(expected: nat)
    | BadLink(expected: nat)
    | BadHash(expected: nat)
    | Crashed(lineNo: nat)      // an attribute or key the record does not have

  /** What the walker says of one line, given the chain before it; None to go on. */
  function Judge(w: World, line: Line, lineNo: nat, expected: nat, prev: string): Option<Verdict> {
    match line
    case Blank => None
    case NotJson => Some(BadJson(lineNo))
    case NotAnObject => Some(Crashed(lineNo))
    case Parsed(r) =>
      if !SeqIs(w, r.seqNo, expected) then Some(BadSeq(expected))
      else if !TextIs(r.prevHash, prev) then Some(BadLink(expected))
      else if !Complete(r) then Some(Crashed(lineNo))
      else if !TextIs(r.hash, Digest(w, r, true)) then Some(BadHash(expected))
      else None
  }

  /** The records of the lines, in order. */
  function RecordsOf(lines: seq<Line>): seq<Record> {
    if lines == [] then []
    else
      var last := lines[|lines| - 1];
      RecordsOf(lines[..|lines| - 1]) + if last.Parsed? then [last.rec] else []
  }

  function HeadHash(recs: seq<Record>): string {
    if recs != [] && recs[|recs| - 1].hash.Some? && recs[|recs| - 1].hash.value.Text?
    then recs[|recs| - 1].hash.value.text else GENESIS
  }

  /** r is the n-th record of a chain whose head hash so far is prev, hashed over the
      text of the given escaping. */
  predicate Linked(w: World, r: Record, n: nat, prev: string, ascii: bool) {
    && Complete(r) && SeqIs(w, r.seqNo, n) && TextIs(r.prevHash, prev)
    && TextIs(r.hash, Digest(w, r, ascii))
  }

  /** A chain: every record is correctly numbered, linked and hashed. */
  predicate ChainOf(w: World, recs: seq<Record>, ascii: bool) {
    recs == []
    || (ChainOf(w, recs[..|recs| - 1], ascii)
        && Linked(w, recs[|recs| - 1], |recs|, HeadHash(recs[..|recs| - 1]), ascii))
  }

  ghost predicate AllRecords(lines: seq<Line>) {
    forall i :: 0 <= i < |lines| ==> lines[i].Blank? || lines[i].Parsed?
  }

  /** Line i is the first that breaks the chain, and v says how. */
  ghost predicate FirstFault(w: World, lines: seq<Line>, i: nat, v: Verdict)
    requires i < |lines|
  {
    && AllRecords(lines[..i])
    && ChainOf(w, RecordsOf(lines[..i]), true)
    && Judge(w, lines[i], i + 1, |RecordsOf(lines[..i])| + 1, HeadHash(RecordsOf(lines[..i]))) == Some(v)
  }

  /** The walker accepts exactly the chains, and otherwise names the first line that
      breaks one. */
  ghost predicate VerdictFor(w: World, lines: seq<Line>, v: Verdict) {
    if AllRecords(lines) && ChainOf(w, RecordsOf(lines), true)
    then v == Intact(|RecordsOf(lines)|)
    else exists i :: 0 <= i < |lines| && FirstFault(w, lines, i, v)
  }

  /** What each verdict on a record means: the number is out of order, or it is right and the
      link to the record before is broken, or both hold and the hash is not that of the
      record's own text. */
  lemma {:induction false} FaultMeans(w: World, lines: seq<Line>, i: nat, v: Verdict)
    requires i < |lines| && FirstFault(w, lines, i, v) && lines[i].Parsed? && Complete(lines[i].rec)
    ensures var r, n := lines[i].rec, |RecordsOf(lines[..i])| + 1;
            var linked := SeqIs(w, r.seqNo, n) && TextIs(r.prevHash, HeadHash(RecordsOf(lines[..i])));
            && (v == BadSeq(n) <==> !SeqIs(w, r.seqNo, n))
            && (v == BadLink(n) <==> SeqIs(w, r.seqNo, n) && !linked)
            && (v == BadHash(n) <==> linked && !TextIs(r.hash, Digest(w, r, true)))
            && !v.Intact? && !v.Crashed? && !v.BadJson?
  {
  }

  /** A line the walker passes leaves a chain, one record longer unless it is blank. */
  lemma {:induction false} LineExtendsChain(w: World, lines: seq<Line>, i: nat)
    requires i < |lines| && AllRecords(lines[..i]) && ChainOf(w, RecordsOf(lines[..i]), true)
    requires var recs := RecordsOf(lines[..i]);
             Judge(w, lines[i], i + 1, |recs| + 1, HeadHash(recs)).None?
    ensures AllRecords(lines[..i + 1]) && ChainOf(w, RecordsOf(lines[..i + 1]), true)
    ensures RecordsOf(lines[..i + 1])
            == RecordsOf(lines[..i]) + if lines[i].Parsed? then [lines[i].rec] else []
    ensures lines[i].Parsed? ==> lines[i].rec.hash == Some(Text(HeadHash(RecordsOf(lines[..i + 1]))))
  {
    var recs := RecordsOf(lines[..i]);
    OneMoreLine(lines, i);
    if lines[i].Parsed? {
      AppendIsChainIffLinked(w, recs, lines[i].rec, true);
    } else {
      assert recs + [] == recs;
    }
  }

  lemma {:induction false} OneMoreLine(lines: seq<Line>, i: nat)
    requires i < |lines|
    ensures RecordsOf(lines[..i + 1])
            == RecordsOf(lines[..i]) + if lines[i].Parsed? then [lines[i].rec] else []
    ensures AllRecords(lines[..i + 1]) <==> AllRecords(lines[..i]) && (lines[i].Blank? || lines[i].Parsed?)
  {
    assert lines[..i + 1][..i] == lines[..i];
    assert forall k :: 0 <= k < i ==> lines[..i + 1][k] == lines[..i][k];
  }

  /** What the walker knows of the lines behind it. */
  ghost predicate WalkedTo(w: World, lines: seq<Line>, prev: string, count: nat) {
    && AllRecords(lines) && ChainOf(w, RecordsOf(lines), true)
    && prev == HeadHash(RecordsOf(lines)) && count == |RecordsOf(lines)|
  }

  lemma {:induction false} FaultIsTheVerdict(w: World, lines: seq<Line>, i: nat, v: Verdict)
    requires i < |lines| && FirstFault(w, lines, i, v)
    ensures VerdictFor(w, lines, v)
  {
    FaultBreaksChain(w, lines, i, v);
  }

  method VerifyChain(w: World, lines: seq<Line>) returns (v: Verdict)
    ensures VerdictFor(w, lines, v)
  {
    var prev, expected, count := GENESIS, 1, 0;
    var i := 0;
    while i < |lines|
      invariant 0 <= i <= |lines|
      invariant WalkedTo(w, lines[..i], prev, count) && expected == count + 1
    {
      var line := lines[i];
      var fault := Judge(w, line, i + 1, expected, prev);
      if fault.Some? {
        FaultIsTheVerdict(w, lines, i, fault.value);
        return fault.value;
      }
      LineExtendsChain(w, lines, i);
      if line.Parsed? {
        prev := line.rec.hash.value.text;
        expected := expected + 1;
        count := count + 1;
      }
      i := i + 1;
    }
    assert lines[..|lines|] == lines;
    return Intact(count);
  }

  /** A prefix of a chain is a chain. */
  lemma {:induction false} PrefixIsChain(w: World, recs: seq<Record>, ascii: bool, n: nat)
    requires ChainOf(w, recs, ascii) && n <= |recs|
    ensures ChainOf(w, recs[..n], ascii)
    ensures n < |recs| ==> Linked(w, recs[n], n + 1, HeadHash(recs[..n]), ascii)
    decreases |recs|
  {
    if n == |recs| {
      assert recs[..n] == recs;
    } else if n < |recs| - 1 {
      PrefixIsChain(w, recs[..|recs| - 1], ascii, n);
      assert recs[..|recs| - 1][..n] == recs[..n];
    }
  }

  /** A chain and one correctly linked record is a chain, and nothing else extends it. */
  lemma {:induction false} AppendIsChainIffLinked(w: World, recs: seq<Record>, r: Record, ascii: bool)
    ensures ChainOf(w, recs + [r], ascii)
            <==> ChainOf(w, recs, ascii) && Linked(w, r, |recs| + 1, HeadHash(recs), ascii)
  {
    assert (recs + [r])[..|recs|] == recs;
  }

  /** Extending a chain: any number of further records continue it if and only if each in
      turn is correctly numbered, linked and hashed. */
  lemma {:induction false} ExtensionIsChainIffLinked(w: World, recs: seq<Record>, more: seq<Record>, ascii: bool)
    ensures ChainOf(w, recs + more, ascii)
            <==> ChainOf(w, recs, ascii) && AllLinked(w, recs, more, ascii)
    decreases |more|
  {
    if more == [] {
      assert recs + more == recs;
    } else {
      var n := |more| - 1;
      ExtensionIsChainIffLinked(w, recs, more[..n], ascii);
      AppendIsChainIffLinked(w, recs + more[..n], more[n], ascii);
      assert recs + more == (recs + more[..n]) + [more[n]];
      LastIsLinked(w, recs, more, ascii);
    }
  }

  lemma {:induction false} LastIsLinked(w: World, recs: seq<Record>, more: seq<Record>, ascii: bool)
    requires more != []
    ensures AllLinked(w, recs, more, ascii)
            <==> && AllLinked(w, recs, more[..|more| - 1], ascii)
                 && Linked(w, more[|more| - 1], |recs| + |more|, HeadHash(recs + more[..|more| - 1]), ascii)
  {
    var n := |more| - 1;
    assert forall k :: 0 <= k < n ==> more[..n][..k] == more[..k];
    assert forall k :: 0 <= k < n ==>
             (LinkedAt(w, recs, more, k, ascii) <==> LinkedAt(w, recs, more[..n], k, ascii));
    assert LinkedAt(w, recs, more, n, ascii)
           <==> Linked(w, more[n], |recs| + |more|, HeadHash(recs + more[..n]), ascii);
  }

  ghost predicate AllLinked(w: World, recs: seq<Record>, more: seq<Record>, ascii: bool) {
    forall k :: 0 <= k < |more| ==> LinkedAt(w, recs, more, k, ascii)
  }

  predicate LinkedAt(w: World, recs: seq<Record>, more: seq<Record>, k: nat, ascii: bool)
    requires k < |more|
  {
    Linked(w, more[k], |recs| + k + 1, HeadHash(recs + more[..k]), ascii)
  }

  lemma {:induction false} RecordsPrefix(lines: seq<Line>, i: nat)
    requires i <= |lines|
    ensures |RecordsOf(lines[..i])| <= |RecordsOf(lines)|
    ensures RecordsOf(lines)[..|RecordsOf(lines[..i])|] == RecordsOf(lines[..i])
    ensures i < |lines| && lines[i].Parsed? ==>
              |RecordsOf(lines[..i])| < |RecordsOf(lines)|
              && RecordsOf(lines)[|RecordsOf(lines[..i])|] == lines[i].rec
    decreases |lines|
  {
    if i == |lines| {
      assert lines[..i] == lines;
    } else {
      var shorter := lines[..|lines| - 1];
      RecordsPrefix(shorter, i);
      assert shorter[..i] == lines[..i];
    }
  }

  lemma {:induction false} FaultBreaksChain(w: World, lines: seq<Line>, i: nat, v: Verdict)
    requires i < |lines| && FirstFault(w, lines, i, v)
    ensures !(AllRecords(lines) && ChainOf(w, RecordsOf(lines), true))
  {
    if lines[i].Parsed? && ChainOf(w, RecordsOf(lines), true) {
      RecordsPrefix(lines, i);
      PrefixIsChain(w, RecordsOf(lines), true, |RecordsOf(lines[..i])|);
    }
  }

  // ---------------------------------------------------------------------
  // One head hash, one history
  // ---------------------------------------------------------------------

  /** Two records that agree on their hash agree on all seven hashed fields. */
  lemma {:induction false} SameHashSameBody(w: World, a: Record, b: Record)
    requires Ideal(w) && ParsedWell(a) && ParsedWell(b) && Complete(a) && Complete(b)
    requires Digest(w, a, true) == Digest(w, b, true)
    ensures a.(hash := b.hash) == b
  {
    EncodeInjective(Body(a), Body(b));
    var fa, fb := Body(a).fields, Body(b).fields;
    assert fa[0] == fb[0] && fa[1] == fb[1] && fa[2] == fb[2] && fa[3] == fb[3];
    assert fa[4] == fb[4] && fa[5] == fb[5] && fa[6] == fb[6];
  }

  lemma {:induction false} SameHashSameLink(w: World, a: Record, m: nat, p: string, b: Record, n: nat, q: string)
    requires Ideal(w) && ParsedWell(a) && ParsedWell(b)
    requires Linked(w, a, m, p, true) && Linked(w, b, n, q, true) && a.hash == b.hash
    ensures a == b && m == n && p == q
  {
    SameHashSameBody(w, a, b);
  }

  /** Tamper evidence: two non-empty chains that both verify and end in the same hash
      are the same chain, record by record. */
  lemma {:induction false} SameHeadSameHistory(w: World, a: seq<Record>, b: seq<Record>)
    requires Ideal(w) && a != [] && b != []
    requires forall i :: 0 <= i < |a| ==> ParsedWell(a[i])
    requires forall i :: 0 <= i < |b| ==> ParsedWell(b[i])
    requires ChainOf(w, a, true) && ChainOf(w, b, true) && HeadHash(a) == HeadHash(b)
    ensures a == b
    decreases |a|
  {
    var m, n := |a| - 1, |b| - 1;
    SameHashSameLink(w, a[m], m + 1, HeadHash(a[..m]), b[n], n + 1, HeadHash(b[..n]));
    if m > 0 {
      SameHeadSameHistory(w, a[..m], b[..n]);
    }
    assert a == a[..m] + [a[m]] && b == b[..n] + [b[n]];
  }

  // ---------------------------------------------------------------------
  // The appender, and what the walker makes of it
  // ---------------------------------------------------------------------

  /** What the appender writes after a chain of n records with the given head. */
  function Written(w: World, n: nat, head: string, ts: nat, run: string, event: string, actor: string,
                   payload: Json): Record
  {
    var r := Record(Some(Token(Decimal(n + 1))), Some(Token(Decimal(ts))), Some(Text(run)),
                    Some(Text(event)), Some(Text(actor)), Some(payload), Some(Text(head)), None);
    r.(hash := Some(Text(Digest(w, r, false))))
  }

  class AuditLog {
    var records: seq<Record>
    var lastSeq: nat
    var lastHash: string
    const world: World

    ghost predicate Valid()
      reads this
    {
      lastSeq == |records| && lastHash == HeadHash(records) && ChainOf(world, records, false)
    }

    constructor (world: World)
      ensures Valid() && records == [] && this.world == world
    {
      records, lastSeq, lastHash := [], 0, GENESIS;
      this.world := world;
    }

    method Append(ts: nat, run: string, event: string, actor: string, payload: Json)
      requires Valid() && Ideal(world)
      modifies this
      ensures Valid()
      ensures records == old(records)
                         + [Written(world, |old(records)|, HeadHash(old(records)), ts, run, event, actor, payload)]
    {
      var rec := Written(world, lastSeq, lastHash, ts, run, event, actor, payload);
      AppendIsChainIffLinked(world, records, rec, false);
      records := records + [rec];
      lastSeq := lastSeq + 1;
      lastHash := rec.hash.value.text;
    }
  }

  /** Every string of the hashed body, keys included, is plain ASCII. */
  ghost predicate Plain(r: Record) {
    Complete(r) && AllPlain(Body(r))
  }

  ghost predicate AllOfThemPlain(recs: seq<Record>) {
    forall i :: 0 <= i < |recs| ==> Plain(recs[i])
  }

  lemma {:induction false} LinkAgreesIffPlain(w: World, r: Record, n: nat, prev: string)
    requires Ideal(w) && ParsedWell(r) && Linked(w, r, n, prev, false)
    ensures Linked(w, r, n, prev, true) <==> Plain(r)
  {
    ModesAgreeIffPlain(Body(r));
    var unescaped, escaped := Encode(Body(r), false), Encode(Body(r), true);
    assert w.sha(unescaped) == w.sha(escaped) <==> unescaped == escaped;
  }

  /** The walker re-encodes with every non-ASCII character escaped, while the appender
      hashed the text unescaped. So the walker accepts a correctly written chain if and
      only if every string in every record is plain ASCII. */
  lemma {:induction false} WalkerAcceptsIffPlain(w: World, recs: seq<Record>)
    requires Ideal(w) && ChainOf(w, recs, false)
    requires forall i :: 0 <= i < |recs| ==> ParsedWell(recs[i])
    ensures ChainOf(w, recs, true) <==> AllOfThemPlain(recs)
    decreases |recs|
  {
    if recs != [] {
      var n := |recs| - 1;
      WalkerAcceptsIffPlain(w, recs[..n]);
      LinkAgreesIffPlain(w, recs[n], n + 1, HeadHash(recs[..n]));
      LastOfThem(recs);
    }
  }

  lemma {:induction false} LastOfThem(recs: seq<Record>)
    requires recs != []
    ensures AllOfThemPlain(recs) <==> AllOfThemPlain(recs[..|recs| - 1]) && Plain(recs[|recs| - 1])
  {
    assert forall i :: 0 <= i < |recs| - 1 ==> recs[i] == recs[..|recs| - 1][i];
  }

  /** Any first record with a payload that is not plain ASCII, whatever its other fields, is
      rejected by the walker although it was correctly written. */
  lemma {:induction false} NonAsciiFirstRecordIsRejected(w: World, ts: nat, run: string, event: string,
                                                         actor: string, payload: Json)
    requires Ideal(w) && WellFormed(payload) && !AllPlain(payload)
    ensures var r := Written(w, 0, GENESIS, ts, run, event, actor, payload);
            ChainOf(w, [r], false) && Judge(w, Parsed(r), 1, 1, GENESIS) == Some(BadHash(1))
  {
    var r := Written(w, 0, GENESIS, ts, run, event, actor, payload);
    assert [] + [r] == [r];
    AppendIsChainIffLinked(w, [], r, false);
    WrittenIsWellFormed(w, 0, GENESIS, ts, run, event, actor, payload);
    PayloadMustBePlain(r);
    UnescapedTextIsRejected(w, r, 1, GENESIS, 1);
  }

  /** One Persian word is such a payload. */
  lemma {:induction false} PersianTextFailsTheBackupCheck(w: World, ts: nat)
    requires Ideal(w)
    ensures var r := Written(w, 0, GENESIS, ts, "r1", "signal", "system", Text("\U{0633}\U{0648}\U{062F}"));
            && ChainOf(w, [r], false)
            && Judge(w, Parsed(r), 1, 1, GENESIS) == Some(BadHash(1))
  {
    PersianIsNotPlain();
    NonAsciiFirstRecordIsRejected(w, ts, "r1", "signal", "system", Text("\U{0633}\U{0648}\U{062F}"));
  }

  lemma {:induction false} PersianIsNotPlain()
    ensures !AllPlain(Text("\U{0633}\U{0648}\U{062F}"))
  {
    var word := "\U{0633}\U{0648}\U{062F}";
    assert word[0] in word && word[0] >= DEL;
  }

  lemma {:induction false} WrittenIsWellFormed(w: World, n: nat, head: string, ts: nat, run: string, event: string,
                                               actor: string, payload: Json)
    requires WellFormed(payload)
    ensures ParsedWell(Written(w, n, head, ts, run, event, actor, payload))
  {
    DecimalIsBare(n + 1);
    DecimalIsBare(ts);
  }

  lemma {:induction false} PayloadMustBePlain(r: Record)
    requires Complete(r) && !AllPlain(r.payload.value)
    ensures !Plain(r)
  {
    assert Body(r).fields[2].value == r.payload.value;
  }

  lemma {:induction false} UnescapedTextIsRejected(w: World, r: Record, n: nat, prev: string, lineNo: nat)
    requires Ideal(w) && ParsedWell(r) && Linked(w, r, n, prev, false) && !Plain(r)
    ensures Judge(w, Parsed(r), lineNo, n, prev) == Some(BadHash(n))
  {
    LinkAgreesIffPlain(w, r, n, prev);
  }

  lemma {:induction false} DecimalIsBare(n: nat)
    ensures Decimal(n) != "" && forall c :: c in Decimal(n) ==> Bare(c)
  {
    if n >= 10 {
      DecimalIsBare(n / 10);
      DecimalIsBare(n % 10);
    }
  }
}
