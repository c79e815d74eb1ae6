/** How much authority the System One model has over the news filter, and the version
    guard that takes it away when a different version starts answering. */
module ModelAuthority {
  import opened Common
  import Calibration
  import RealFacts

  datatype Mode = Shadow | ShrinkOnly | Active

  /** The empty string means "no version". */
  datatype JevState = JevState(mode: Mode, known: string, knownSinceNs: nat,
                               pending: string, pendingSinceNs: nat)

  datatype Answer = Answer(article: string, version: string,
                           pCorrection: Option<real>, pContradiction: Option<real>)

  datatype Label = Label(labelledBy: string, correction: Option<bool>, contradiction: Option<bool>)

  datatype Desk = Desk(st: JevState, answers: seq<Answer>, labels: map<string, Label>)

  const DEFAULT_STATE := JevState(Shadow, "", 0, "", 0)
  const MIN_LABELS := 20
  const CONTRADICTION_ACCURACY := 0.90
  const CORRECTION_ACCURACY := 0.85
  const CONTRADICTION_THRESHOLD := 0.75
  const CORRECTION_THRESHOLD := 0.6
  const MAX_VERSION_LENGTH := 120
  const MAX_ANSWERS := 2000

  // ---------------------------------------------------------------------
  // The promotion gate
  // ---------------------------------------------------------------------

  /** The newest answers of a version, at most the number the report reads. Answers are
      kept in the order they were filed. */
  function OfVersion(answers: seq<Answer>, version: string): (out: seq<Answer>)
    ensures forall a :: a in out ==> a in answers && a.version == version
  {
    if answers == [] then []
    else
      var last := answers[|answers| - 1];
      OfVersion(answers[..|answers| - 1], version) + if last.version == version then [last] else []
  }

  function Newest(answers: seq<Answer>): seq<Answer> {
    if |answers| <= MAX_ANSWERS then answers else answers[|answers| - MAX_ANSWERS..]
  }

  function ReportRows(d: Desk): seq<Answer> {
    Newest(OfVersion(d.answers, d.st.known))
  }

  function Labelled(rows: seq<Answer>, labels: map<string, Label>): (k: nat)
    ensures k <= |rows|
  {
    if rows == [] then 0
    else
      var a := rows[|rows| - 1];
      Labelled(rows[..|rows| - 1], labels)
      + if a.article in labels && labels[a.article].labelledBy != "" then 1 else 0
  }

  /** (probability, truth) for every answer that has both. */
  function PairsFor(rows: seq<Answer>, labels: map<string, Label>, contradiction: bool): seq<Calibration.Pair> {
    if rows == [] then []
    else
      var a := rows[|rows| - 1];
      var rest := PairsFor(rows[..|rows| - 1], labels, contradiction);
      if a.article in labels then
        var p := if contradiction then a.pContradiction else a.pCorrection;
        var y := if contradiction then labels[a.article].contradiction else labels[a.article].correction;
        if p.Some? && y.Some? then rest + [Calibration.Pair(p.value, y.value)] else rest
      else rest
  }

  predicate Meets(accuracy: Option<real>, need: real) {
    accuracy.Some? && accuracy.value >= need
  }

  predicate GatePassed(d: Desk) {
    var rows := ReportRows(d);
    && d.st.pending == ""
    && d.st.known != ""
    && Labelled(rows, d.labels) >= MIN_LABELS
    && Meets(Calibration.Accuracy(PairsFor(rows, d.labels, true), CONTRADICTION_THRESHOLD),
             CONTRADICTION_ACCURACY)
    && Meets(Calibration.Accuracy(PairsFor(rows, d.labels, false), CORRECTION_THRESHOLD),
             CORRECTION_ACCURACY)
  }

  /** What the gate really asks of each accuracy: it compares a value rounded to three
      places, so each bar is half a place lower than the number it names. */
  lemma {:induction false} BarsAreLowerIff(pairs: seq<Calibration.Pair>)
    requires pairs != []
    ensures Meets(Calibration.Accuracy(pairs, CONTRADICTION_THRESHOLD), CONTRADICTION_ACCURACY)
            <==> Calibration.ShareCorrect(pairs, CONTRADICTION_THRESHOLD) >= 0.8995
    ensures Meets(Calibration.Accuracy(pairs, CORRECTION_THRESHOLD), CORRECTION_ACCURACY)
            <==> Calibration.ShareCorrect(pairs, CORRECTION_THRESHOLD) >= 0.8495
  {
    Calibration.RoundedAccuracyIff(pairs, CONTRADICTION_THRESHOLD, 900);
    Calibration.RoundedAccuracyIff(pairs, CORRECTION_THRESHOLD, 850);
  }

  /** The gate reads the newest answers of the known version and no others, and all of them
      while there are at most 2000. */
  lemma {:induction false} ReportRowsAre(d: Desk, a: Answer)
    ensures a in ReportRows(d) ==> a in d.answers && a.version == d.st.known
    ensures |ReportRows(d)| <= 2000
    ensures ReportRows(d) != [] ==>
              var all, rows := OfVersion(d.answers, d.st.known), ReportRows(d);
              |rows| <= |all| && rows == all[|all| - |rows|..] && (|rows| < 2000 ==> rows == all)
    ensures |OfVersion(d.answers, d.st.known)| <= 2000 ==>
              (a in ReportRows(d) <==> a in d.answers && a.version == d.st.known)
  {
    OfVersionIs(d.answers, d.st.known, a);
  }

  lemma {:induction false} OfVersionIs(answers: seq<Answer>, version: string, a: Answer)
    ensures a in OfVersion(answers, version) <==> a in answers && a.version == version
  {
    if answers != [] {
      var n := |answers| - 1;
      OfVersionIs(answers[..n], version, a);
      assert answers == answers[..n] + [answers[n]];
    }
  }

  /** Row k has both a probability and a label of this kind. */
  predicate Judged(rows: seq<Answer>, labels: map<string, Label>, contradiction: bool, k: nat)
    requires k < |rows|
  {
    && rows[k].article in labels
    && (if contradiction then rows[k].pContradiction.Some? && labels[rows[k].article].contradiction.Some?
        else rows[k].pCorrection.Some? && labels[rows[k].article].correction.Some?)
  }

  /** The pair of a judged row: its own probability of the kind, and its own label. */
  function PairOf(rows: seq<Answer>, labels: map<string, Label>, contradiction: bool, k: nat): Calibration.Pair
    requires k < |rows| && Judged(rows, labels, contradiction, k)
  {
    if contradiction
    then Calibration.Pair(rows[k].pContradiction.value, labels[rows[k].article].contradiction.value)
    else Calibration.Pair(rows[k].pCorrection.value, labels[rows[k].article].correction.value)
  }

  function JudgedRows(rows: seq<Answer>, labels: map<string, Label>, contradiction: bool): set<nat> {
    set k: nat | k < |rows| && Judged(rows, labels, contradiction, k)
  }

  /** Row k was decided as it was labelled, by the rule that a probability at or above the
      threshold means yes. */
  predicate DecidedRight(rows: seq<Answer>, labels: map<string, Label>, contradiction: bool, threshold: real, k: nat)
    requires k < |rows|
  {
    && Judged(rows, labels, contradiction, k)
    && var pair := PairOf(rows, labels, contradiction, k); (pair.p >= threshold <==> pair.y)
  }

  function RightRows(rows: seq<Answer>, labels: map<string, Label>, contradiction: bool, threshold: real): set<nat> {
    set k: nat | k < |rows| && DecidedRight(rows, labels, contradiction, threshold, k)
  }

  /** Whether the last row adds to a count that earlier rows keep. */
  lemma {:induction false} CorrectOfOneMore(pairs: seq<Calibration.Pair>, last: Calibration.Pair, threshold: real)
    ensures Calibration.Correct(pairs + [last], threshold)
            == Calibration.Correct(pairs, threshold) + if last.p >= threshold <==> last.y then 1 else 0
  {
    if pairs == [] {
      assert pairs + [last] == [last] && [last][1..] == [];
    } else {
      CorrectOfOneMore(pairs[1..], last, threshold);
      assert (pairs + [last])[1..] == pairs[1..] + [last];
    }
  }

  lemma {:induction false} PairsCount(rows: seq<Answer>, labels: map<string, Label>, contradiction: bool, threshold: real)
    ensures var pairs := PairsFor(rows, labels, contradiction);
            && |pairs| == |JudgedRows(rows, labels, contradiction)|
            && Calibration.Correct(pairs, threshold) == |RightRows(rows, labels, contradiction, threshold)|
  {
    if rows != [] {
      var n := |rows| - 1;
      PairsCount(rows[..n], labels, contradiction, threshold);
      JudgedOfOneMore(rows, labels, contradiction);
      RightOfOneMore(rows, labels, contradiction, threshold);
      PairsOfOneMore(rows, labels, contradiction);
      if Judged(rows, labels, contradiction, n) {
        CorrectOfOneMore(PairsFor(rows[..n], labels, contradiction), PairOf(rows, labels, contradiction, n), threshold);
      }
    }
  }

  lemma {:induction false} PairsOfOneMore(rows: seq<Answer>, labels: map<string, Label>, contradiction: bool)
    requires rows != []
    ensures var n := |rows| - 1;
            PairsFor(rows, labels, contradiction)
            == if Judged(rows, labels, contradiction, n)
               then PairsFor(rows[..n], labels, contradiction) + [PairOf(rows, labels, contradiction, n)]
               else PairsFor(rows[..n], labels, contradiction)
  {
  }

  lemma {:induction false} JudgedOfOneMore(rows: seq<Answer>, labels: map<string, Label>, contradiction: bool)
    requires rows != []
    ensures var n := |rows| - 1;
            && n !in JudgedRows(rows[..n], labels, contradiction)
            && JudgedRows(rows, labels, contradiction)
               == JudgedRows(rows[..n], labels, contradiction) + if Judged(rows, labels, contradiction, n) then {n} else {}
  {
  }

  lemma {:induction false} RightOfOneMore(rows: seq<Answer>, labels: map<string, Label>, contradiction: bool, threshold: real)
    requires rows != []
    ensures var n := |rows| - 1;
            && n !in RightRows(rows[..n], labels, contradiction, threshold)
            && RightRows(rows, labels, contradiction, threshold)
               == RightRows(rows[..n], labels, contradiction, threshold)
                  + if DecidedRight(rows, labels, contradiction, threshold, n) then {n} else {}
  {
  }

  function LabelledRows(rows: seq<Answer>, labels: map<string, Label>): set<nat> {
    set k: nat | k < |rows| && rows[k].article in labels && labels[rows[k].article].labelledBy != ""
  }

  lemma {:induction false} LabelledCount(rows: seq<Answer>, labels: map<string, Label>)
    ensures Labelled(rows, labels) == |LabelledRows(rows, labels)|
  {
    if rows != [] {
      LabelledCount(rows[..|rows| - 1], labels);
      LabelledOfOneMore(rows, labels);
    }
  }

  lemma {:induction false} LabelledOfOneMore(rows: seq<Answer>, labels: map<string, Label>)
    requires rows != []
    ensures var n := |rows| - 1;
            && n !in LabelledRows(rows[..n], labels)
            && LabelledRows(rows, labels)
               == LabelledRows(rows[..n], labels)
                  + if rows[n].article in labels && labels[rows[n].article].labelledBy != "" then {n} else {}
  {
  }

  /** right of all is at least this share. */
  predicate ShareReaches(right: nat, all: nat, share: real) {
    all > 0 && right as real >= share * all as real
  }

  /** What the gate asks for, in counts of rows: a version in force with none waiting, twenty
      rows a human labelled, and of the rows judged for contradiction at least 89.95 percent
      decided as labelled, of those judged for correction at least 84.95. */
  ghost predicate Proven(d: Desk) {
    var rows := ReportRows(d);
    && d.st.pending == "" && d.st.known != ""
    && |LabelledRows(rows, d.labels)| >= 20
    && ShareReaches(|RightRows(rows, d.labels, true, 0.75)|, |JudgedRows(rows, d.labels, true)|, 0.8995)
    && ShareReaches(|RightRows(rows, d.labels, false, 0.6)|, |JudgedRows(rows, d.labels, false)|, 0.8495)
  }

  lemma {:induction false} MeetsIff(rows: seq<Answer>, labels: map<string, Label>)
    ensures Meets(Calibration.Accuracy(PairsFor(rows, labels, true), CONTRADICTION_THRESHOLD), CONTRADICTION_ACCURACY)
            <==> ShareReaches(|RightRows(rows, labels, true, 0.75)|, |JudgedRows(rows, labels, true)|, 0.8995)
    ensures Meets(Calibration.Accuracy(PairsFor(rows, labels, false), CORRECTION_THRESHOLD), CORRECTION_ACCURACY)
            <==> ShareReaches(|RightRows(rows, labels, false, 0.6)|, |JudgedRows(rows, labels, false)|, 0.8495)
  {
    PairsCount(rows, labels, true, 0.75);
    PairsCount(rows, labels, false, 0.6);
    ShareIff(PairsFor(rows, labels, true), 0.75, 0.8995);
    ShareIff(PairsFor(rows, labels, false), 0.6, 0.8495);
    if PairsFor(rows, labels, true) != [] {
      BarsAreLowerIff(PairsFor(rows, labels, true));
    }
    if PairsFor(rows, labels, false) != [] {
      BarsAreLowerIff(PairsFor(rows, labels, false));
    }
  }

  lemma {:induction false} ShareIff(pairs: seq<Calibration.Pair>, threshold: real, share: real)
    ensures pairs != [] ==>
              (Calibration.ShareCorrect(pairs, threshold) >= share
               <==> ShareReaches(Calibration.Correct(pairs, threshold), |pairs|, share))
  {
    if pairs != [] {
      RealFacts.DivCompare(Calibration.Correct(pairs, threshold) as real, |pairs| as real, share);
    }
  }

  /** The gate passes exactly on that evidence. */
  lemma {:induction false} GateIff(d: Desk)
    ensures GatePassed(d) <==> Proven(d)
  {
    LabelledCount(ReportRows(d), d.labels);
    MeetsIff(ReportRows(d), d.labels);
  }

  /** 188 of 209 is below nine tenths and passes. */
  lemma {:induction false} BelowTheBarPasses(pairs: seq<Calibration.Pair>)
    requires |pairs| == 209 && Calibration.Correct(pairs, CONTRADICTION_THRESHOLD) == 188
    ensures Calibration.ShareCorrect(pairs, CONTRADICTION_THRESHOLD) < 0.90
    ensures Meets(Calibration.Accuracy(pairs, CONTRADICTION_THRESHOLD), CONTRADICTION_ACCURACY)
  {
    BarsAreLowerIff(pairs);
  }

  // ---------------------------------------------------------------------
  // Operations
  // ---------------------------------------------------------------------

  /** What an answer is filed under when the provider does not say. */
  function VersionKey(served: string, configured: string): (key: string)
    ensures key != ""
  {
    if served != "" then served else "unreported:" + configured
  }

  function Observed(st: JevState, key: string, now: nat): JevState
    requires key != ""
  {
    if st.known == "" then st.(known := key, knownSinceNs := now)
    else if key != st.known && key != st.pending then
      st.(pending := key, pendingSinceNs := now, mode := Shadow)
    else st
  }

  function Accepted(st: JevState, now: nat): Option<JevState> {
    if st.pending == "" then None
    else Some(JevState(Shadow, st.pending, now, "", 0))
  }

  function WithMode(d: Desk, mode: Mode): Option<JevState> {
    if !mode.Shadow? && d.st.pending != "" then None
    else if mode.Active? && !GatePassed(d) then None
    else Some(d.st.(mode := mode))
  }

  /** Loading the settings drops a version name that is too long, and keeps the mode. */
  function Cleaned(st: JevState): JevState {
    st.(known := if |st.known| <= MAX_VERSION_LENGTH then st.known else "",
        pending := if |st.pending| <= MAX_VERSION_LENGTH then st.pending else "")
  }

  function Without(answers: seq<Answer>, article: string): seq<Answer> {
    if answers == [] then []
    else
      var last := answers[|answers| - 1];
      Without(answers[..|answers| - 1], article) + if last.article == article then [] else [last]
  }

  lemma {:induction false} WithoutKeeps(answers: seq<Answer>, article: string, a: Answer)
    ensures a in Without(answers, article) <==> a in answers && a.article != article
  {
    if answers != [] {
      var init, last := answers[..|answers| - 1], answers[|answers| - 1];
      WithoutKeeps(init, article, a);
      assert a in answers <==> a in init || a == last;
    }
  }

  /** A new answer replaces the article's old one and is the newest. */
  function FiledUnder(answers: seq<Answer>, answer: Answer): seq<Answer> {
    Without(answers, answer.article) + [answer]
  }

  predicate HasAnswer(answers: seq<Answer>, article: string) {
    exists i :: 0 <= i < |answers| && answers[i].article == article
  }

  datatype Extraction = Extraction(version: string, correction: bool, contradictsPrior: bool)

  /** What the news policy may see. */
  function PolicyView(st: JevState, ex: Option<Extraction>): Option<Extraction> {
    if ex.None? || st.mode.Shadow? then None
    else if st.mode.ShrinkOnly? then Some(ex.value.(contradictsPrior := false))
    else ex
  }

  class AIService {
    var st: JevState
    var answers: seq<Answer>
    var labels: map<string, Label>

    ghost function Now(): Desk
      reads this
    {
      Desk(st, answers, labels)
    }

    constructor ()
      ensures Now() == Desk(DEFAULT_STATE, [], map[])
    {
      st, answers, labels := DEFAULT_STATE, [], map[];
    }

    method ObserveVersion(served: string, configured: string, now: nat) returns (key: string)
      modifies this
      ensures key == VersionKey(served, configured)
      ensures Now() == old(Now()).(st := Observed(old(st), key, now))
    {
      key := if served != "" then served else "unreported:" + configured;
      if st.known == "" {
        st := st.(known := key, knownSinceNs := now);
      } else if key != st.known && key != st.pending {
        st := st.(pending := key, pendingSinceNs := now);
        st := st.(mode := Shadow);
      }
    }

    method AcceptVersion(now: nat) returns (ok: bool)
      modifies this
      ensures ok == Accepted(old(st), now).Some?
      ensures Now() == if ok then old(Now()).(st := Accepted(old(st), now).value) else old(Now())
    {
      if st.pending == "" {
        return false;
      }
      st := JevState(Shadow, st.pending, now, "", 0);
      return true;
    }

    method SetMode(mode: Mode) returns (ok: bool)
      modifies this
      ensures ok == WithMode(old(Now()), mode).Some?
      ensures Now() == if ok then old(Now()).(st := WithMode(old(Now()), mode).value) else old(Now())
    {
      if !mode.Shadow? && st.pending != "" {
        return false;
      }
      if mode.Active? {
        var gate := GatePassed(Desk(st, answers, labels));
        if !gate {
          return false;
        }
      }
      st := st.(mode := mode);
      return true;
    }

    method SaveLabel(article: string, given: Label)
      modifies this
      ensures Now() == Labelling(old(Now()), article, given)
    {
      if HasAnswer(answers, article) {
        labels := labels[article := given];
      }
    }

    /** Classify one article: the answering version is observed before anything else
        may look at the answer. */
    method ClassifyNews(article: string, served: string, configured: string, now: nat,
                        pCorrection: Option<real>, pContradiction: Option<real>)
      returns (ex: Extraction)
      modifies this
      ensures Now() == Classified(old(Now()), article, served, configured, now, pCorrection, pContradiction)
      ensures ex.version == VersionKey(served, configured)
      ensures ex.correction <==> pCorrection.Some? && pCorrection.value >= CORRECTION_THRESHOLD
      ensures ex.contradictsPrior <==> pContradiction.Some? && pContradiction.value >= CONTRADICTION_THRESHOLD
      ensures PolicyView(st, Some(ex)).Some? && Authorised(old(st)) ==>
                ex.version == st.known && st.pending == ""
    {
      var key := ObserveVersion(served, configured, now);
      ex := Extraction(key, pCorrection.Some? && pCorrection.value >= CORRECTION_THRESHOLD,
                       pContradiction.Some? && pContradiction.value >= CONTRADICTION_THRESHOLD);
      answers := FiledUnder(answers, Answer(article, key, pCorrection, pContradiction));
    }

    /** Saving other settings, or a restart, passes the state through the loader. */
    method Reload()
      modifies this
      ensures Now() == old(Now()).(st := Cleaned(old(st)))
    {
      st := st.(known := if |st.known| <= MAX_VERSION_LENGTH then st.known else "");
      st := st.(pending := if |st.pending| <= MAX_VERSION_LENGTH then st.pending else "");
    }
  }

  function Labelling(d: Desk, article: string, given: Label): Desk {
    if HasAnswer(d.answers, article) then d.(labels := d.labels[article := given]) else d
  }

  function Classified(d: Desk, article: string, served: string, configured: string, now: nat,
                      pCorrection: Option<real>, pContradiction: Option<real>): Desk
  {
    var key := VersionKey(served, configured);
    d.(st := Observed(d.st, key, now),
       answers := FiledUnder(d.answers, Answer(article, key, pCorrection, pContradiction)))
  }

  // ---------------------------------------------------------------------
  // Runs
  // ---------------------------------------------------------------------

  datatype Op =
    | Classify(article: string, served: string, configured: string, now: nat,
               pCorrection: Option<real>, pContradiction: Option<real>)
    | Accept(at: nat)
    | SetTo(mode: Mode)
    | SaveLabelFor(labelled: string, given: Label)
    | Load

  function Step(d: Desk, op: Op): Desk {
    match op
    case Classify(article, served, configured, now, pc, pk) =>
      Classified(d, article, served, configured, now, pc, pk)
    case Accept(at) =>
      var st := Accepted(d.st, at);
      if st.Some? then d.(st := st.value) else d
    case SetTo(mode) =>
      var st := WithMode(d, mode);
      if st.Some? then d.(st := st.value) else d
    case SaveLabelFor(article, given) => Labelling(d, article, given)
    case Load => d.(st := Cleaned(d.st))
  }

  /** The desk after a run from the default state. */
  function After(ops: seq<Op>): Desk {
    if ops == [] then Desk(DEFAULT_STATE, [], map[])
    else Step(After(ops[..|ops| - 1]), ops[|ops| - 1])
  }

  /** A version waiting for acceptance means shadow mode. */
  predicate Authorised(st: JevState) {
    st.pending != "" ==> st.mode.Shadow?
  }

  /** In every run, reloads included, a pending version means shadow mode. */
  lemma {:induction false} PendingMeansShadow(ops: seq<Op>)
    ensures Authorised(After(ops).st)
  {
    if ops != [] {
      PendingMeansShadow(ops[..|ops| - 1]);
    }
  }

  /** An extraction the policy is shown right after classification came from the known
      version, with none pending -- in every run. */
  lemma {:induction false} ShownComesFromKnownVersion(ops: seq<Op>, op: Op, ex: Extraction)
    requires op.Classify? && ex.version == VersionKey(op.served, op.configured)
    requires PolicyView(After(ops + [op]).st, Some(ex)).Some?
    ensures ex.version == After(ops + [op]).st.known && After(ops + [op]).st.pending == ""
  {
    assert (ops + [op])[..|ops|] == ops;
    PendingMeansShadow(ops);
  }

  /** No article has two answers. */
  ghost predicate OnePerArticle(answers: seq<Answer>) {
    forall i, j :: 0 <= i < j < |answers| ==> answers[i].article != answers[j].article
  }

  lemma {:induction false} WithoutKeepsOne(answers: seq<Answer>, article: string)
    requires OnePerArticle(answers)
    ensures OnePerArticle(Without(answers, article))
    ensures forall i :: 0 <= i < |Without(answers, article)| ==> Without(answers, article)[i].article != article
    decreases |answers|
  {
    if answers != [] {
      var n := |answers| - 1;
      var init := Without(answers[..n], article);
      WithoutKeepsOne(answers[..n], article);
      forall i | 0 <= i < |init| ensures init[i].article != answers[n].article {
        WithoutKeeps(answers[..n], article, init[i]);
        assert init[i] in init;
      }
    }
  }

  /** In every run an article has one answer, the latest, so that no headline can count twice
      toward the gate; a new answer is the newest and touches no other article's. */
  lemma {:induction false} OneAnswerPerArticle(ops: seq<Op>)
    ensures OnePerArticle(After(ops).answers)
    decreases |ops|
  {
    if ops != [] {
      var n := |ops| - 1;
      OneAnswerPerArticle(ops[..n]);
      if ops[n].Classify? {
        WithoutKeepsOne(After(ops[..n]).answers, ops[n].article);
      }
    }
  }

  /** In every run only answered articles carry a label. */
  lemma {:induction false} LabelsHaveAnswers(ops: seq<Op>, article: string)
    ensures article in After(ops).labels ==> HasAnswer(After(ops).answers, article)
    decreases |ops|
  {
    if ops != [] {
      var n := |ops| - 1;
      LabelsHaveAnswers(ops[..n], article);
      if ops[n].Classify? && HasAnswer(After(ops[..n]).answers, article) {
        StaysAnswered(After(ops[..n]).answers, After(ops).answers[|After(ops).answers| - 1], article);
      }
    }
  }

  lemma {:induction false} StaysAnswered(answers: seq<Answer>, answer: Answer, article: string)
    requires HasAnswer(answers, article)
    ensures HasAnswer(FiledUnder(answers, answer), article)
  {
    var after := FiledUnder(answers, answer);
    if article == answer.article {
      assert after[|after| - 1].article == article;
    } else {
      var i :| 0 <= i < |answers| && answers[i].article == article;
      FiledIsNewest(answers, answer, answers[i]);
      assert answers[i] in after;
    }
  }

  lemma {:induction false} FiledIsNewest(answers: seq<Answer>, answer: Answer, other: Answer)
    requires other.article != answer.article
    ensures var after := FiledUnder(answers, answer);
            after != [] && after[|after| - 1] == answer && (other in after <==> other in answers)
  {
    WithoutKeeps(answers, answer.article, other);
    var kept := Without(answers, answer.article);
    assert other in kept + [answer] <==> other in kept || other == answer;
  }

  /** What the policy sees in each mode: nothing in shadow, corrections only in shrink-only,
      everything in active. */
  lemma {:induction false} ViewIff(st: JevState, ex: Extraction)
    ensures var view := PolicyView(st, Some(ex));
            && (view.Some? <==> st.mode.ShrinkOnly? || st.mode.Active?)
            && (view.Some? ==> view.value.version == ex.version && view.value.correction == ex.correction
                               && (view.value.contradictsPrior <==> ex.contradictsPrior && st.mode.Active?))
    ensures PolicyView(st, None).None?
  {
  }

  /** Accepting a version and setting a mode, over every run: acceptance puts the waiting
      version in force, always in shadow, and does nothing when none waits; a mode comes into
      force if and only if it is shadow, or no version waits and, for active, the evidence
      is there. A refused request changes nothing. */
  lemma {:induction false} AuthorityMovesIff(ops: seq<Op>, at: nat, mode: Mode)
    ensures var d, accepted, set_ := After(ops), After(ops + [Accept(at)]), After(ops + [SetTo(mode)]);
            && (if d.st.pending != "" then accepted.st == JevState(Shadow, d.st.pending, at, "", 0) else accepted == d)
            && accepted == d.(st := accepted.st)
            && (if mode.Shadow? || (d.st.pending == "" && (mode.Active? ==> Proven(d)))
                then set_ == d.(st := d.st.(mode := mode)) else set_ == d)
  {
    assert (ops + [Accept(at)])[..|ops|] == ops && (ops + [SetTo(mode)])[..|ops|] == ops;
    GateIff(After(ops));
  }

  /** The desk before each operation of a run, and after the last. */
  function Trace(ops: seq<Op>): (desks: seq<Desk>)
    ensures |desks| == |ops| + 1
  {
    if ops == [] then [Desk(DEFAULT_STATE, [], map[])]
    else Trace(ops[..|ops| - 1]) + [Step(After(ops[..|ops| - 1]), ops[|ops| - 1])]
  }

  lemma {:induction false} TraceStep(ops: seq<Op>, op: Op)
    ensures After(ops + [op]) == Step(After(ops), op)
    ensures Trace(ops + [op]) == Trace(ops) + [After(ops + [op])]
  {
    assert (ops + [op])[..|ops|] == ops;
  }

  lemma {:induction false} TraceEnds(ops: seq<Op>)
    ensures Trace(ops)[|ops|] == After(ops)
  {
  }

  /** The gate passed at step i, and since then the known version is the one the gate
      judged, no other has answered, and authority was never lost. */
  ghost predicate Earned(desks: seq<Desk>, i: nat) {
    && i + 1 < |desks| && GatePassed(desks[i])
    && forall j :: i <= j < |desks| ==> Stands(desks[j].st, desks[i].st.known, j > i)
  }

  /** The version is the known one, nothing is pending, and authority is in force if it
      should be. */
  predicate Stands(st: JevState, version: string, granted: bool) {
    st.known == version && st.pending == "" && (granted ==> st.mode.Active?)
  }

  /** Operation i promoted the model, and it was and stayed earned. */
  ghost predicate EarnedAt(ops: seq<Op>, i: nat) {
    i < |ops| && ops[i] == SetTo(Active) && Earned(Trace(ops), i)
  }

  /** Every version that answers has a name the loader keeps. */
  predicate ShortVersions(ops: seq<Op>) {
    forall i :: 0 <= i < |ops| && ops[i].Classify? ==>
      |VersionKey(ops[i].served, ops[i].configured)| <= MAX_VERSION_LENGTH
  }

  lemma {:induction false} VersionsStayShort(ops: seq<Op>)
    requires ShortVersions(ops)
    ensures |After(ops).st.known| <= MAX_VERSION_LENGTH && |After(ops).st.pending| <= MAX_VERSION_LENGTH
  {
    if ops != [] {
      VersionsStayShort(ops[..|ops| - 1]);
    }
  }

  lemma {:induction false} EarnedExtends(desks: seq<Desk>, next: Desk, i: nat)
    requires Earned(desks, i) && Stands(next.st, desks[|desks| - 1].st.known, true)
    ensures Earned(desks + [next], i)
  {
    var n := |desks| - 1;
    assert Stands(desks[n].st, desks[i].st.known, n > i);
  }

  lemma {:induction false} EarnedBegins(desks: seq<Desk>, next: Desk)
    requires desks != [] && GatePassed(desks[|desks| - 1])
    requires Stands(next.st, desks[|desks| - 1].st.known, true)
    ensures Earned(desks + [next], |desks| - 1)
  {
  }

  /** What one operation can do to a granted authority: promote on a passed gate, or
      leave the version it stands on. */
  lemma {:induction false} ActiveStep(d: Desk, op: Op)
    requires Authorised(d.st) && |d.st.known| <= MAX_VERSION_LENGTH && Step(d, op).st.mode.Active?
    requires Authorised(Step(d, op).st) && (d.st.mode.Active? ==> d.st.known != "")
    ensures (op == SetTo(Active) && GatePassed(d)) || d.st.mode.Active?
    ensures Stands(Step(d, op).st, d.st.known, true)
  {
  }

  /** Active authority was always earned: in every run whose versions have names the
      loader keeps, active mode means the evidence gate passed on the very version
      now known, and no other version has answered since. */
  lemma {:induction false} ActiveIsEarned(ops: seq<Op>)
    requires ShortVersions(ops) && After(ops).st.mode.Active?
    ensures exists i: nat :: EarnedAt(ops, i)
  {
    var n := |ops| - 1;
    var before, op := ops[..n], ops[n];
    assert before + [op] == ops;
    VersionsStayShort(before);
    PendingMeansShadow(before);
    PendingMeansShadow(ops);
    TraceStep(before, op);
    TraceEnds(before);
    if After(before).st.mode.Active? {
      ActiveIsEarned(before);
      var i: nat :| EarnedAt(before, i);
      assert Stands(Trace(before)[n].st, Trace(before)[i].st.known, n > i);
      ActiveStep(After(before), op);
      EarnedExtends(Trace(before), After(ops), i);
      assert EarnedAt(ops, i);
    } else {
      ActiveStep(After(before), op);
      EarnedBegins(Trace(before), After(ops));
      assert EarnedAt(ops, n);
    }
  }

  /** So no contradiction the model claims ever reaches the policy on trust: in every run
      whose versions have names the loader keeps, it is shown only in active mode, and then
      the evidence of at least 89.95 and 84.95 percent was there at an earlier promotion of
      the very version now known. */
  lemma {:induction false} ContradictionsAreEarned(ops: seq<Op>, ex: Extraction)
    requires ShortVersions(ops) && PolicyView(After(ops).st, Some(ex)).Some?
    requires PolicyView(After(ops).st, Some(ex)).value.contradictsPrior
    ensures exists i: nat :: EarnedAt(ops, i) && Proven(Trace(ops)[i]) && Trace(ops)[i].st.known == After(ops).st.known
  {
    ActiveIsEarned(ops);
    var i: nat :| EarnedAt(ops, i);
    GateIff(Trace(ops)[i]);
    TraceEnds(ops);
    assert Stands(Trace(ops)[|ops|].st, Trace(ops)[i].st.known, |ops| > i);
  }

  // ---------------------------------------------------------------------
  // Version names the loader drops
  // ---------------------------------------------------------------------

  /** Reloading keeps an authority that has been granted exactly when the version name
      is at most 120 characters. */
  lemma {:induction false} ReloadKeepsVersionIffShort(st: JevState)
    ensures Cleaned(st) == st <==> |st.known| <= 120 && |st.pending| <= 120
    ensures Cleaned(st).mode == st.mode
    ensures Cleaned(st).known == st.known || Cleaned(st).known == ""
    ensures Cleaned(st).pending == st.pending || Cleaned(st).pending == ""
  {
  }

  /** A reported version is at most 80 characters; an unreported one is short enough
      exactly when the configured model name is at most 109. */
  lemma {:induction false} KeyIsShortIff(served: string, configured: string)
    requires |served| <= 80
    ensures |VersionKey(served, configured)| <= MAX_VERSION_LENGTH
            <==> served != "" || |configured| <= 109
  {
  }

  // A run that shows it: twenty headlines are classified and labelled correctly, the model
  // is made active, the settings are reloaded, and another version answers.

  const LABELLED := 20

  function Headline(k: nat): (id: string)
    ensures |id| == k + 1
  {
    if k == 0 then "h" else Headline(k - 1) + "h"
  }

  const OWNED := Label("owner", Some(true), Some(true))

  function CorrectAnswer(conf: string, k: nat): Answer {
    Answer(Headline(k), "unreported:" + conf, Some(1.0), Some(1.0))
  }

  function CorrectAnswers(conf: string, n: nat): (answers: seq<Answer>)
    ensures |answers| == n && forall k :: 0 <= k < n ==> answers[k] == CorrectAnswer(conf, k)
  {
    seq(n, k requires 0 <= k < n => CorrectAnswer(conf, k))
  }

  function OwnedLabels(n: nat): map<string, Label> {
    if n == 0 then map[] else OwnedLabels(n - 1)[Headline(n - 1) := OWNED]
  }

  function ClassifyHeadline(conf: string, k: nat): Op {
    Classify(Headline(k), "", conf, 0, Some(1.0), Some(1.0))
  }

  function Training(conf: string, n: nat): seq<Op> {
    if n == 0 then []
    else (Training(conf, n - 1) + [ClassifyHeadline(conf, n - 1)]) + [SaveLabelFor(Headline(n - 1), OWNED)]
  }

  function Trained(conf: string, n: nat): Desk {
    Desk(if n == 0 then DEFAULT_STATE else JevState(Shadow, "unreported:" + conf, 0, "", 0),
         CorrectAnswers(conf, n), OwnedLabels(n))
  }

  lemma {:induction false} WithoutNew(answers: seq<Answer>, article: string)
    requires forall k :: 0 <= k < |answers| ==> answers[k].article != article
    ensures Without(answers, article) == answers
  {
    if answers != [] {
      WithoutNew(answers[..|answers| - 1], article);
    }
  }

  lemma {:induction false} FileNext(conf: string, n: nat)
    ensures FiledUnder(CorrectAnswers(conf, n), CorrectAnswer(conf, n)) == CorrectAnswers(conf, n + 1)
  {
    var answers := CorrectAnswers(conf, n);
    forall k | 0 <= k < n ensures answers[k].article != Headline(n) {
      assert |answers[k].article| == k + 1;
    }
    WithoutNew(answers, Headline(n));
    assert CorrectAnswers(conf, n + 1) == answers + [CorrectAnswer(conf, n)];
  }

  /** One more headline, classified and labelled. */
  lemma {:induction false} TrainNext(conf: string, n: nat)
    ensures Step(Step(Trained(conf, n), ClassifyHeadline(conf, n)), SaveLabelFor(Headline(n), OWNED))
            == Trained(conf, n + 1)
  {
    var key := "unreported:" + conf;
    var d := Step(Trained(conf, n), ClassifyHeadline(conf, n));
    FileNext(conf, n);
    assert VersionKey("", conf) == key;
    assert d == Desk(JevState(Shadow, key, 0, "", 0), CorrectAnswers(conf, n + 1), OwnedLabels(n));
    assert d.answers[n].article == Headline(n);
  }

  lemma {:induction false} TwoSteps(ops: seq<Op>, first: Op, second: Op)
    ensures After((ops + [first]) + [second]) == Step(Step(After(ops), first), second)
  {
    TraceStep(ops, first);
    TraceStep(ops + [first], second);
  }

  lemma {:induction false} TrainingRuns(conf: string, n: nat)
    ensures After(Training(conf, n)) == Trained(conf, n)
  {
    if n == 0 {
      assert CorrectAnswers(conf, 0) == [];
    } else {
      TrainingRuns(conf, n - 1);
      TwoSteps(Training(conf, n - 1), ClassifyHeadline(conf, n - 1), SaveLabelFor(Headline(n - 1), OWNED));
      TrainNext(conf, n - 1);
    }
  }

  lemma {:induction false} AllOfOneVersion(answers: seq<Answer>, version: string)
    requires forall a :: a in answers ==> a.version == version
    ensures OfVersion(answers, version) == answers
  {
    if answers != [] {
      AllOfOneVersion(answers[..|answers| - 1], version);
      assert answers[|answers| - 1] in answers;
    }
  }

  lemma {:induction false} LabelsHold(n: nat, k: nat)
    requires k < n
    ensures Headline(k) in OwnedLabels(n) && OwnedLabels(n)[Headline(k)] == OWNED
  {
    if k < n - 1 {
      LabelsHold(n - 1, k);
      assert |Headline(k)| != |Headline(n - 1)|;
    }
  }

  ghost predicate AllOwned(rows: seq<Answer>, labels: map<string, Label>) {
    forall a :: a in rows ==> a.article in labels && labels[a.article] == OWNED
                              && a.pCorrection == Some(1.0) && a.pContradiction == Some(1.0)
  }

  lemma {:induction false} AllOwnedCount(rows: seq<Answer>, labels: map<string, Label>, contradiction: bool)
    requires AllOwned(rows, labels)
    ensures Labelled(rows, labels) == |rows| == |PairsFor(rows, labels, contradiction)|
    ensures forall pair :: pair in PairsFor(rows, labels, contradiction) ==> pair == Calibration.Pair(1.0, true)
  {
    if rows != [] {
      assert rows[|rows| - 1] in rows;
      AllOwnedCount(rows[..|rows| - 1], labels, contradiction);
    }
  }

  lemma {:induction false} TrainedPassesTheGate(conf: string)
    ensures GatePassed(Trained(conf, LABELLED))
  {
    var d := Trained(conf, LABELLED);
    AllOfOneVersion(d.answers, d.st.known);
    forall a | a in d.answers ensures a.article in d.labels && d.labels[a.article] == OWNED {
      var k :| 0 <= k < LABELLED && d.answers[k] == a;
      LabelsHold(LABELLED, k);
    }
    assert ReportRows(d) == d.answers;
    AllOwnedCount(d.answers, d.labels, true);
    AllOwnedCount(d.answers, d.labels, false);
    Calibration.AllCorrect(PairsFor(d.answers, d.labels, true), CONTRADICTION_THRESHOLD);
    Calibration.AllCorrect(PairsFor(d.answers, d.labels, false), CORRECTION_THRESHOLD);
  }

  /** What a caller configures: every answer is classified under the configured model name,
      and a reported version has at most 80 characters. */
  predicate FromModel(ops: seq<Op>, conf: string) {
    forall op :: op in ops && op.Classify? ==> op.configured == conf && |op.served| <= 80
  }

  lemma {:induction false} TrainingIsFromModel(conf: string, n: nat)
    ensures FromModel(Training(conf, n), conf)
  {
    if n > 0 {
      TrainingIsFromModel(conf, n - 1);
    }
  }

  function Takeover(conf: string): seq<Op> {
    ((Training(conf, LABELLED) + [SetTo(Active)]) + [Load]) + [Classify("n", "another", conf, 0, None, None)]
  }

  lemma {:induction false} TakeoverIsFromModel(conf: string)
    ensures FromModel(Takeover(conf), conf)
  {
    TrainingIsFromModel(conf, LABELLED);
  }

  /** What the three last steps do to a trained desk whose version name is too long. */
  lemma {:induction false} TakeoverSteps(conf: string)
    requires |conf| > 109
    ensures var d := Trained(conf, LABELLED);
            var active := Step(d, SetTo(Active));
            var other := Step(Step(active, Load), Classify("n", "another", conf, 0, None, None));
            && active.st == d.st.(mode := Active)
            && other.st.mode.Active? && other.st.known == "another" && other.st.pending == ""
  {
    TrainedPassesTheGate(conf);
  }

  lemma {:induction false} EarnedKeepsKnown(ops: seq<Op>, i: nat)
    ensures EarnedAt(ops, i) ==> After(ops).st.known == Trace(ops)[i].st.known
  {
    TraceEnds(ops);
    if EarnedAt(ops, i) {
      assert Stands(Trace(ops)[|ops|].st, Trace(ops)[i].st.known, |ops| > i);
    }
  }

  lemma {:induction false} TrainingNeverPromotes(conf: string, n: nat)
    ensures |Training(conf, n)| == 2 * n
    ensures forall i :: 0 <= i < 2 * n ==> Training(conf, n)[i] != SetTo(Active)
  {
    if n > 0 {
      TrainingNeverPromotes(conf, n - 1);
    }
  }

  lemma {:induction false} TraceOfPrefix(ops: seq<Op>, i: nat)
    requires i <= |ops|
    ensures Trace(ops)[i] == After(ops[..i])
    decreases |ops|
  {
    if i == |ops| {
      TraceEnds(ops);
      assert ops[..i] == ops;
    } else {
      TraceOfPrefix(ops[..|ops| - 1], i);
      assert ops[..|ops| - 1][..i] == ops[..i];
    }
  }

  lemma {:induction false} OnePromotion(conf: string, i: nat)
    requires i < |Takeover(conf)| && Takeover(conf)[i] == SetTo(Active)
    ensures Takeover(conf)[..i] == Training(conf, LABELLED)
  {
    TrainingNeverPromotes(conf, LABELLED);
  }

  /** The one promotion of the run is on the configured model. */
  lemma {:induction false} PromotedOnConfigured(conf: string, i: nat)
    requires i < |Takeover(conf)| && Takeover(conf)[i] == SetTo(Active)
    ensures Trace(Takeover(conf))[i].st.known == "unreported:" + conf
  {
    OnePromotion(conf, i);
    TraceOfPrefix(Takeover(conf), i);
    TrainingRuns(conf, LABELLED);
  }

  /** The run ends with the model active on a version that the gate never saw. */
  lemma {:induction false} TakeoverIsUnearned(conf: string)
    requires |conf| > 109
    ensures After(Takeover(conf)).st.mode.Active? && After(Takeover(conf)).st.known == "another"
    ensures forall i: nat :: !EarnedAt(Takeover(conf), i)
  {
    var t := Training(conf, LABELLED);
    TrainingRuns(conf, LABELLED);
    TraceStep(t, SetTo(Active));
    TwoSteps(t + [SetTo(Active)], Load, Classify("n", "another", conf, 0, None, None));
    TakeoverSteps(conf);
    forall i: nat ensures !EarnedAt(Takeover(conf), i) {
      EarnedKeepsKnown(Takeover(conf), i);
      if i < |Takeover(conf)| && Takeover(conf)[i] == SetTo(Active) {
        PromotedOnConfigured(conf, i);
        LongName(conf);
      }
    }
  }

  lemma {:induction false} LongName(conf: string)
    requires |conf| > 109
    ensures "unreported:" + conf != "another"
  {
    assert |"unreported:" + conf| > 100;
  }

  /** Exactly when active authority is always earned: on every run over a configured model
      name, with reported versions of at most 80 characters, active mode means the gate
      passed on the version now known, if and only if the name has at most 109. The settings
      accept names of up to 120 characters (service.py:427). */
  lemma {:induction false} ActiveIsEarnedIff(conf: string)
    ensures (forall ops: seq<Op> :: FromModel(ops, conf) && After(ops).st.mode.Active? ==>
               exists i: nat :: EarnedAt(ops, i))
            <==> |conf| <= 109
  {
    if |conf| <= 109 {
      forall ops: seq<Op> | FromModel(ops, conf) && After(ops).st.mode.Active?
        ensures exists i: nat :: EarnedAt(ops, i)
      {
        forall i | 0 <= i < |ops| && ops[i].Classify?
          ensures |VersionKey(ops[i].served, ops[i].configured)| <= MAX_VERSION_LENGTH
        {
          assert ops[i] in ops;
          KeyIsShortIff(ops[i].served, ops[i].configured);
        }
        ActiveIsEarned(ops);
      }
    } else {
      TakeoverIsFromModel(conf);
      TakeoverIsUnearned(conf);
    }
  }

  /** When the name is longer, a reload forgets the version but not its authority, and
      whatever answers next inherits it: the model stays active on a version for which
      not one labelled answer exists. */
  lemma {:induction false} LongVersionHandsOverAuthority(d: Desk, article: string, served: string,
                                                        configured: string, now: nat)
    requires d.st.mode.Active? && d.st.pending == "" && |d.st.known| > MAX_VERSION_LENGTH
    requires article !in d.labels
    requires forall i :: 0 <= i < |d.answers| ==> d.answers[i].version != VersionKey(served, configured)
    ensures var op := Classify(article, served, configured, now, None, None);
            var after := Step(Step(d, Load), op);
            && after.st.mode.Active? && after.st.known == VersionKey(served, configured)
            && after.st.pending == "" && !GatePassed(after)
  {
    var key := VersionKey(served, configured);
    var after := Step(Step(d, Load), Classify(article, served, configured, now, None, None));
    assert after.st == JevState(d.st.mode, key, now, "", d.st.pendingSinceNs);
    assert after.labels == d.labels && after.answers == FiledUnder(d.answers, Answer(article, key, None, None));
    forall a | a in OfVersion(after.answers, key) ensures a.article == article {
      WithoutKeeps(d.answers, article, a);
      assert a in d.answers ==> a.version != key;
    }
    NothingLabelled(ReportRows(after), after.labels, article);
    UnlabelledFailsTheGate(after);
  }

  lemma {:induction false} UnlabelledFailsTheGate(d: Desk)
    requires Labelled(ReportRows(d), d.labels) == 0
    ensures !GatePassed(d)
  {
  }

  lemma {:induction false} NothingLabelled(rows: seq<Answer>, labels: map<string, Label>, article: string)
    requires article !in labels && forall a :: a in rows ==> a.article == article
    ensures Labelled(rows, labels) == 0
  {
    if rows != [] {
      assert rows[|rows| - 1] in rows;
      NothingLabelled(rows[..|rows| - 1], labels, article);
    }
  }
}
