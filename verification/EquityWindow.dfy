/** The rolling 24-hour loss window: one equity mark per five-minute bucket, in a bounded
    queue that is pruned from the front. */
module EquityWindow {

  const BUCKET := 300_000_000_000
  const DAY := 86_400_000_000_000
  const CAPACITY := 400

  datatype Mark = Mark(ns: int, equity: real)

  /** Which bucket a time falls into. Most of what follows uses only that it never
      decreases. */
  type Bucketing = int -> int

  function BucketOf(ns: int): int {
    ns / 300_000_000_000
  }

  ghost predicate Monotone(f: Bucketing) {
    forall a, b :: a <= b ==> f(a) <= f(b)
  }

  /** A bounded queue loses its oldest mark when one is appended to it full. */
  function Push(ms: seq<Mark>, m: Mark): seq<Mark> {
    if |ms| == CAPACITY then ms[1..] + [m] else ms + [m]
  }

  function DropOld(ms: seq<Mark>, cutoff: int): seq<Mark> {
    if ms != [] && ms[0].ns < cutoff then DropOld(ms[1..], cutoff) else ms
  }

  function Last(ms: seq<Mark>): Mark
    requires ms != []
  {
    ms[|ms| - 1]
  }

  // ---------------------------------------------------------------------
  // What the window should hold, in terms of the calls made
  // ---------------------------------------------------------------------

  /** Readings of a clock that never steps back. */
  ghost predicate Ordered(calls: seq<Mark>) {
    forall i, j :: 0 <= i < j < |calls| ==> calls[i].ns <= calls[j].ns
  }

  /** What one more call adds: the call itself if it opens a bucket. */
  function Opening(f: Bucketing, calls: seq<Mark>, m: Mark): seq<Mark> {
    if calls != [] && f(Last(calls).ns) == f(m.ns) then [] else [m]
  }

  /** The calls that are the first of their bucket. */
  function Openers(f: Bucketing, calls: seq<Mark>): seq<Mark> {
    if calls == [] then []
    else Openers(f, calls[..|calls| - 1]) + Opening(f, calls[..|calls| - 1], Last(calls))
  }

  function Cutoff(calls: seq<Mark>): int
    requires calls != []
  {
    Last(calls).ns - DAY
  }

  /** The bucket-opening calls of the last 24 hours. */
  function Window(f: Bucketing, calls: seq<Mark>): seq<Mark> {
    if calls == [] then [] else DropOld(Openers(f, calls), Cutoff(calls))
  }

  ghost predicate Rising(f: Bucketing, ms: seq<Mark>) {
    forall i, j :: 0 <= i < j < |ms| ==> ms[i].ns < ms[j].ns && f(ms[i].ns) < f(ms[j].ns)
  }

  lemma {:induction false} OpenersStep(f: Bucketing, calls: seq<Mark>, m: Mark)
    ensures Openers(f, calls + [m]) == Openers(f, calls) + Opening(f, calls, m)
  {
    assert (calls + [m])[..|calls|] == calls;
  }

  /** The openers have rising times and buckets, and the last shares the last call's
      bucket. */
  lemma {:induction false} OpenersRise(f: Bucketing, calls: seq<Mark>)
    requires Monotone(f) && Ordered(calls) && calls != []
    ensures var ms := Openers(f, calls);
            Rising(f, ms) && ms != [] && f(Last(ms).ns) == f(Last(calls).ns) && Last(ms).ns <= Last(calls).ns
    decreases |calls|
  {
    var init, last := calls[..|calls| - 1], Last(calls);
    if init != [] {
      OpenersRise(f, init);
      assert Last(init).ns <= last.ns;
      if f(Last(init).ns) == f(last.ns) {
        assert Openers(f, calls) == Openers(f, init) + [];
      } else {
        RisingAppend(f, Openers(f, init), last);
      }
    }
  }

  lemma {:induction false} RisingAppend(f: Bucketing, ms: seq<Mark>, m: Mark)
    requires Rising(f, ms) && Monotone(f) && ms != []
    requires Last(ms).ns <= m.ns && f(Last(ms).ns) != f(m.ns)
    ensures Rising(f, ms + [m])
  {
  }

  lemma {:induction false} DropOldFacts(f: Bucketing, ms: seq<Mark>, cutoff: int)
    requires Rising(f, ms)
    ensures Rising(f, DropOld(ms, cutoff))
    ensures forall m :: m in DropOld(ms, cutoff) <==> m in ms && m.ns >= cutoff
  {
    if ms != [] && ms[0].ns < cutoff {
      DropOldFacts(f, ms[1..], cutoff);
      assert forall m :: m in ms <==> m == ms[0] || m in ms[1..];
    }
  }

  lemma {:induction false} DropOldKeepsTheLast(ms: seq<Mark>, cutoff: int)
    requires ms != [] && Last(ms).ns >= cutoff
    ensures DropOld(ms, cutoff) != [] && Last(DropOld(ms, cutoff)) == Last(ms)
  {
    if ms[0].ns < cutoff {
      DropOldKeepsTheLast(ms[1..], cutoff);
    }
  }

  lemma {:induction false} DropOldTwice(ms: seq<Mark>, tail: seq<Mark>, early: int, late: int)
    requires early <= late
    ensures DropOld(DropOld(ms, early) + tail, late) == DropOld(ms + tail, late)
  {
    if ms != [] && ms[0].ns < early {
      DropOldTwice(ms[1..], tail, early, late);
      assert (ms + tail)[1..] == ms[1..] + tail;
    }
  }

  /** Rising buckets between two bounds are no more than the buckets there are. */
  lemma {:induction false} RisingIsShort(f: Bucketing, ms: seq<Mark>, lo: int, hi: int)
    requires Rising(f, ms) && forall i :: 0 <= i < |ms| ==> lo <= f(ms[i].ns) <= hi
    ensures |ms| == 0 || |ms| <= hi - lo + 1
  {
    assert ms != [] ==> lo <= f(ms[0].ns) <= hi;
    if |ms| > 1 {
      var rest := ms[1..];
      assert forall i :: 0 <= i < |rest| ==> rest[i] == ms[i + 1];
      RisingIsShort(f, rest, f(ms[0].ns) + 1, hi);
    }
  }

  lemma {:induction false} OpenersAreCalls(f: Bucketing, calls: seq<Mark>, m: Mark)
    ensures m in Openers(f, calls) ==> m in calls
    decreases |calls|
  {
    if calls != [] {
      OpenersAreCalls(f, calls[..|calls| - 1], m);
    }
  }

  lemma {:induction false} EveryCallHasAnOpener(f: Bucketing, calls: seq<Mark>, k: nat) returns (m: Mark)
    requires Ordered(calls) && k < |calls|
    ensures m in Openers(f, calls) && f(m.ns) == f(calls[k].ns) && m.ns <= calls[k].ns
    decreases |calls|
  {
    var n := |calls| - 1;
    var init := calls[..n];
    if k < n {
      m := EveryCallHasAnOpener(f, init, k);
    } else if init != [] && f(Last(init).ns) == f(calls[n].ns) {
      m := EveryCallHasAnOpener(f, init, n - 1);
    } else {
      m := calls[n];
    }
  }

  /** The window is exactly the bucket-opening calls of the last 24 hours, oldest first:
      nothing older is kept and nothing newer is lost. */
  lemma {:induction false} WindowIsExact(f: Bucketing, calls: seq<Mark>)
    requires Monotone(f) && Ordered(calls) && calls != []
    ensures Rising(f, Window(f, calls))
    ensures forall m :: m in Window(f, calls) <==> m in Openers(f, calls) && m.ns >= Cutoff(calls)
  {
    OpenersRise(f, calls);
    DropOldFacts(f, Openers(f, calls), Cutoff(calls));
  }

  /** The newest mark is never pruned: it is the opener of the last call's bucket. */
  lemma {:induction false} NewestMarkStays(calls: seq<Mark>)
    requires Ordered(calls) && calls != []
    ensures Window(BucketOf, calls) != []
    ensures BucketOf(Last(Window(BucketOf, calls)).ns) == BucketOf(Last(calls).ns)
  {
    BucketsAreMonotone();
    OpenersRise(BucketOf, calls);
    SameBucketIsClose(Last(Openers(BucketOf, calls)).ns, Last(calls).ns);
    DropOldKeepsTheLast(Openers(BucketOf, calls), Cutoff(calls));
  }

  lemma {:induction false} BucketsAreMonotone()
    ensures Monotone(BucketOf)
  {
  }

  lemma {:induction false} SameBucketIsClose(a: int, b: int)
    requires BucketOf(a) == BucketOf(b)
    ensures b - a < BUCKET
  {
  }

  lemma {:induction false} DayHasFewBuckets(ns: int, now: int)
    requires now - DAY <= ns <= now
    ensures BucketOf(now) - 288 <= BucketOf(ns) <= BucketOf(now)
  {
  }

  /** After every call of any run the marks have distinct buckets, all lie in the last
      24 hours, and number between 1 and 289. */
  lemma {:induction false} WindowIsBounded(calls: seq<Mark>)
    requires Ordered(calls) && calls != []
    ensures Rising(BucketOf, Window(BucketOf, calls))
    ensures 1 <= |Window(BucketOf, calls)| <= 289
    ensures forall m :: m in Window(BucketOf, calls) ==> Cutoff(calls) <= m.ns <= Last(calls).ns
  {
    var ms, now := Window(BucketOf, calls), Last(calls).ns;
    BucketsAreMonotone();
    WindowIsExact(BucketOf, calls);
    NewestMarkStays(calls);
    forall m | m in ms ensures now - DAY <= m.ns <= now {
      OpenersAreCalls(BucketOf, calls, m);
    }
    forall i | 0 <= i < |ms| ensures BucketOf(now) - 288 <= BucketOf(ms[i].ns) <= BucketOf(now) {
      assert ms[i] in ms;
      DayHasFewBuckets(ms[i].ns, now);
    }
    RisingIsShort(BucketOf, ms, BucketOf(now) - 288, BucketOf(now));
  }

  /** The baseline is an equity actually read inside the window, no later than any call
      made at least one bucket after the cutoff. */
  lemma {:induction false} BaselineIsOldEnough(calls: seq<Mark>, k: nat)
    requires Ordered(calls) && k < |calls| && calls[k].ns >= Cutoff(calls) + BUCKET
    ensures var w := Window(BucketOf, calls);
            w != [] && w[0] in calls && Cutoff(calls) <= w[0].ns <= calls[k].ns
  {
    var w := Window(BucketOf, calls);
    BucketsAreMonotone();
    NewestMarkStays(calls);
    WindowIsExact(BucketOf, calls);
    assert w[0] in w;
    OpenersAreCalls(BucketOf, calls, w[0]);
    var m := EveryCallHasAnOpener(BucketOf, calls, k);
    SameBucketIsClose(m.ns, calls[k].ns);
    assert m in w;
    RisingStartsFirst(BucketOf, w, m);
  }

  lemma {:induction false} RisingStartsFirst(f: Bucketing, ms: seq<Mark>, m: Mark)
    requires Rising(f, ms) && ms != []
    ensures m in ms ==> m == ms[0] || ms[0].ns < m.ns
  {
  }

  /** Call k is the first of the window, and no other call reads the same time. */
  ghost predicate FirstInWindow(calls: seq<Mark>, k: nat) {
    && k < |calls| && calls[k].ns >= Cutoff(calls)
    && (forall i :: 0 <= i < k ==> calls[i].ns < Cutoff(calls))
    && (forall i :: k < i < |calls| ==> calls[i].ns > calls[k].ns)
  }

  /** The loss is measured from the very first call of the window if and only if that
      call opens its bucket; otherwise it is measured from the next bucket's first. */
  lemma {:induction false} BaselineIsTheFirstCallIff(calls: seq<Mark>, k: nat)
    requires Ordered(calls) && FirstInWindow(calls, k)
    ensures var w := Window(BucketOf, calls);
            w != [] && (w[0] == calls[k] <==> k == 0 || BucketOf(calls[k - 1].ns) != BucketOf(calls[k].ns))
  {
    var w := Window(BucketOf, calls);
    BucketsAreMonotone();
    NewestMarkStays(calls);
    WindowIsExact(BucketOf, calls);
    OpenerIff(BucketOf, calls, k);
    assert w[0] in w;
    OpenersAreCalls(BucketOf, calls, w[0]);
    var i :| 0 <= i < |calls| && calls[i] == w[0];
    assert i >= k;
    RisingStartsFirst(BucketOf, w, calls[k]);
  }

  lemma {:induction false} OpenerIff(f: Bucketing, calls: seq<Mark>, k: nat)
    requires k < |calls|
    requires forall i :: 0 <= i < |calls| && i != k ==> calls[i].ns != calls[k].ns
    ensures calls[k] in Openers(f, calls) <==> k == 0 || f(calls[k - 1].ns) != f(calls[k].ns)
    decreases |calls|
  {
    var n := |calls| - 1;
    if k < n {
      OpenerIff(f, calls[..n], k);
    } else {
      OpenersAreCalls(f, calls[..n], calls[k]);
    }
  }

  // ---------------------------------------------------------------------
  // The agent's window
  // ---------------------------------------------------------------------

  function Appended(f: Bucketing, w: seq<Mark>, m: Mark): seq<Mark> {
    if w == [] || f(m.ns) != f(Last(w).ns) then Push(w, m) else w
  }

  /** One call keeps the window exact, and the bounded queue has room for its mark. */
  lemma {:induction false} StepIsExact(calls: seq<Mark>, m: Mark)
    requires Ordered(calls) && (calls != [] ==> Last(calls).ns <= m.ns)
    ensures DropOld(Appended(BucketOf, Window(BucketOf, calls), m), m.ns - DAY) == Window(BucketOf, calls + [m])
  {
    var w := Window(BucketOf, calls);
    OpenersStep(BucketOf, calls, m);
    if calls == [] {
      assert Openers(BucketOf, calls + [m]) == [m];
    } else {
      NewestMarkStays(calls);
      WindowIsBounded(calls);
      assert Appended(BucketOf, w, m) == w + Opening(BucketOf, calls, m);
      DropOldTwice(Openers(BucketOf, calls), Opening(BucketOf, calls, m), Cutoff(calls), m.ns - DAY);
    }
  }

  lemma {:induction false} OrderedAppend(calls: seq<Mark>, m: Mark)
    requires Ordered(calls) && (calls != [] ==> Last(calls).ns <= m.ns)
    ensures Ordered(calls + [m])
  {
  }

  class Agent {
    var marks: seq<Mark>
    ghost var calls: seq<Mark>

    ghost predicate Valid()
      reads this
    {
      Ordered(calls) && marks == Window(BucketOf, calls)
    }

    constructor ()
      ensures Valid() && calls == []
    {
      marks, calls := [], [];
    }

    /** The change of equity over the trailing day. There is always a mark to measure
        from. */
    method Rolling24hPnl(now: int, equity: real) returns (pnl: real)
      requires Valid() && (calls != [] ==> Last(calls).ns <= now)
      modifies this
      ensures Valid() && calls == old(calls) + [Mark(now, equity)]
      ensures marks != [] && pnl == equity - marks[0].equity
    {
      var m := Mark(now, equity);
      StepIsExact(calls, m);
      OrderedAppend(calls, m);
      ghost var exact := Window(BucketOf, calls + [m]);
      if marks == [] || BucketOf(now) != BucketOf(Last(marks).ns) {
        marks := Push(marks, m);
      }
      while marks != [] && marks[0].ns < now - DAY
        invariant calls == old(calls) && DropOld(marks, now - DAY) == exact
        decreases |marks|
      {
        marks := marks[1..];
      }
      calls := calls + [m];
      NewestMarkStays(calls);
      if marks == [] {
        return 0.0;
      }
      pnl := equity - marks[0].equity;
    }
  }
}
