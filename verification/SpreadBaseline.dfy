/** The baseline spread: the median of a bounded window of observed spreads, kept per
    instrument and session, with the live value as the fallback. */
module SpreadBaseline {
  import opened Common

  const WINDOW := 500
  const MIN_SAMPLES := 30

  datatype Session = Asia | London | Rollover

  /** The session of an hour of the UTC day. */
  function SessionOf(hour: nat): Session {
    if 20 <= hour < 22 then Rollover else if 7 <= hour < 17 then London else Asia
  }

  // ---------------------------------------------------------------------
  // Sorting and the median
  // ---------------------------------------------------------------------

  ghost predicate Sorted(s: seq<real>) {
    forall i, j :: 0 <= i <= j < |s| ==> s[i] <= s[j]
  }

  function Insert(x: real, s: seq<real>): seq<real> {
    if s == [] || x <= s[0] then [x] + s else [s[0]] + Insert(x, s[1..])
  }

  function Sort(s: seq<real>): seq<real> {
    if s == [] then [] else Insert(s[0], Sort(s[1..]))
  }

  lemma {:induction false} InsertBounded(x: real, s: seq<real>, b: real)
    requires b <= x && forall i :: 0 <= i < |s| ==> b <= s[i]
    ensures forall i :: 0 <= i < |Insert(x, s)| ==> b <= Insert(x, s)[i]
  {
    if s != [] && x > s[0] {
      InsertBounded(x, s[1..], b);
    }
  }

  lemma {:induction false} InsertFacts(x: real, s: seq<real>)
    requires Sorted(s)
    ensures Sorted(Insert(x, s)) && multiset(Insert(x, s)) == multiset(s) + multiset{x}
  {
    if s != [] {
      assert s == [s[0]] + s[1..];
      if x > s[0] {
        InsertFacts(x, s[1..]);
        InsertBounded(x, s[1..], s[0]);
        SortedCons(s[0], Insert(x, s[1..]));
      } else {
        SortedCons(x, s);
      }
    }
  }

  lemma {:induction false} SortedCons(x: real, s: seq<real>)
    requires Sorted(s) && forall i :: 0 <= i < |s| ==> x <= s[i]
    ensures Sorted([x] + s)
  {
  }

  lemma {:induction false} SortFacts(s: seq<real>)
    ensures Sorted(Sort(s)) && multiset(Sort(s)) == multiset(s) && |Sort(s)| == |s|
  {
    if s != [] {
      SortFacts(s[1..]);
      InsertFacts(s[0], Sort(s[1..]));
      assert s == [s[0]] + s[1..];
    }
    assert |multiset(Sort(s))| == |multiset(s)|;
  }

  function Median(s: seq<real>): real
    requires s != []
  {
    SortFacts(s);
    var ordered, mid := Sort(s), |s| / 2;
    if |s| % 2 == 1 then ordered[mid] else (ordered[mid - 1] + ordered[mid]) / 2.0
  }

  /** How many samples are above a bound, and how many below it. */
  function Above(s: seq<real>, b: real): nat {
    if s == [] then 0 else (if s[0] > b then 1 else 0) + Above(s[1..], b)
  }

  function Below(s: seq<real>, b: real): nat {
    if s == [] then 0 else (if s[0] < b then 1 else 0) + Below(s[1..], b)
  }

  lemma {:induction false} InsertCounts(x: real, s: seq<real>, b: real)
    ensures Above(Insert(x, s), b) == Above([x], b) + Above(s, b)
    ensures Below(Insert(x, s), b) == Below([x], b) + Below(s, b)
  {
    assert ([x] + s)[1..] == s && [x][1..] == [];
    if s != [] && x > s[0] {
      InsertCounts(x, s[1..], b);
      assert ([s[0]] + Insert(x, s[1..]))[1..] == Insert(x, s[1..]);
    }
  }

  lemma {:induction false} SortCounts(s: seq<real>, b: real)
    ensures Above(Sort(s), b) == Above(s, b) && Below(Sort(s), b) == Below(s, b)
  {
    if s != [] {
      SortCounts(s[1..], b);
      InsertCounts(s[0], Sort(s[1..]), b);
      assert [s[0]][1..] == [];
    }
  }

  lemma {:induction false} CountsAtMost(s: seq<real>, b: real)
    ensures Above(s, b) + Below(s, b) <= |s|
  {
    if s != [] {
      CountsAtMost(s[1..], b);
    }
  }

  /** In sorted order, the element at k decides how many can lie on each side. */
  lemma {:induction false} SortedCounts(s: seq<real>, b: real, k: nat)
    requires Sorted(s) && k < |s|
    ensures s[k] > b ==> Above(s, b) >= |s| - k
    ensures s[k] <= b ==> Above(s, b) <= |s| - k - 1
    ensures s[k] < b ==> Below(s, b) >= k + 1
    ensures s[k] >= b ==> Below(s, b) <= k
  {
    CountsAtMost(s[1..], b);
    if |s| > 1 {
      SortedCounts(s[1..], b, if k > 0 then k - 1 else 0);
    }
  }

  /** The baseline resists outliers: while fewer than half of the samples exceed a bound,
      the median does not, and while fewer than half fall short of one, neither does
      the median. */
  lemma {:induction false} MedianIsRobust(s: seq<real>, b: real)
    requires s != []
    ensures 2 * Above(s, b) < |s| ==> Median(s) <= b
    ensures 2 * Below(s, b) < |s| ==> Median(s) >= b
  {
    var ordered, mid := Sort(s), |s| / 2;
    SortFacts(s);
    SortCounts(s, b);
    SortedCounts(ordered, b, mid);
    if |s| % 2 == 0 {
      SortedCounts(ordered, b, mid - 1);
    }
  }

  /** The other side of it, on windows of any size: once more than half of the samples are
      past a bound, so is the median. */
  lemma {:induction false} MedianFollowsTheMajority(s: seq<real>, b: real)
    requires s != []
    ensures 2 * Above(s, b) > |s| ==> Median(s) > b
    ensures 2 * Below(s, b) > |s| ==> Median(s) < b
  {
    var ordered, mid := Sort(s), |s| / 2;
    SortFacts(s);
    SortCounts(s, b);
    SortedCounts(ordered, b, mid);
    if |s| % 2 == 0 {
      SortedCounts(ordered, b, mid - 1);
    }
  }

  /** One sample more than half is enough to move it: the bound is exact on windows of
      odd size. */
  lemma {:induction false} OddMedianIff(s: seq<real>, b: real)
    requires |s| % 2 == 1
    ensures Median(s) <= b <==> 2 * Above(s, b) < |s|
    ensures Median(s) >= b <==> 2 * Below(s, b) < |s|
  {
    SortFacts(s);
    SortCounts(s, b);
    SortedCounts(Sort(s), b, |s| / 2);
  }

  /** On windows of even size it lies half-way between the middle two: between the sample
      that just half of the window exceed and the one that just half fall short of. */
  lemma {:induction false} EvenMedianIsHalfWay(s: seq<real>, lo: real, hi: real)
    requires s != [] && |s| % 2 == 0 && lo in s && hi in s && lo < hi
    requires 2 * Above(s, lo) == |s| && 2 * Below(s, hi) == |s|
    ensures Median(s) == (lo + hi) / 2.0
  {
    var ordered, mid := Sort(s), |s| / 2;
    SortFacts(s);
    SortCounts(s, lo);
    SortCounts(s, hi);
    MiddleSample(ordered, lo, mid);
    MiddleSample(ordered, hi, mid);
    assert lo in multiset(s) && hi in multiset(s) && lo in multiset(ordered) && hi in multiset(ordered);
    SortedCounts(ordered, lo, mid);
    SortedCounts(ordered, lo, mid - 1);
    SortedCounts(ordered, hi, mid);
    SortedCounts(ordered, hi, mid - 1);
  }

  lemma {:induction false} MiddleSample(ordered: seq<real>, b: real, mid: nat)
    requires Sorted(ordered) && 0 < mid < |ordered| && b in ordered
    ensures ordered[mid - 1] <= b <= ordered[mid] ==> b == ordered[mid - 1] || b == ordered[mid]
  {
    var k :| 0 <= k < |ordered| && ordered[k] == b;
    if k < mid {
      assert ordered[k] <= ordered[mid - 1];
    } else {
      assert ordered[mid] <= ordered[k];
    }
  }

  lemma {:induction false} MedianWithin(s: seq<real>, lo: real, hi: real)
    requires s != [] && forall x :: x in s ==> lo <= x <= hi
    ensures lo <= Median(s) <= hi
  {
    var ordered := Sort(s);
    SortFacts(s);
    forall i | 0 <= i < |ordered| ensures lo <= ordered[i] <= hi {
      assert ordered[i] in multiset(ordered) && ordered[i] in multiset(s);
      assert ordered[i] in s;
    }
  }

  lemma {:induction false} MedianIsPositive(s: seq<real>)
    requires s != [] && forall x :: x in s ==> x > 0.0
    ensures Median(s) > 0.0
  {
    var ordered := Sort(s);
    SortFacts(s);
    forall i | 0 <= i < |ordered| ensures ordered[i] > 0.0 {
      assert ordered[i] in multiset(ordered) && ordered[i] in multiset(s);
      assert ordered[i] in s;
    }
  }

  // ---------------------------------------------------------------------
  // The windows
  // ---------------------------------------------------------------------

  datatype Key = Key(instrument: string, session: Session)

  datatype Observation = Observation(key: Key, spread: real)

  function LastOf(s: seq<real>, n: nat): seq<real> {
    if |s| <= n then s else s[|s| - n..]
  }

  /** The positive spreads ever observed under a key, oldest first. */
  function History(os: seq<Observation>, key: Key): seq<real> {
    if os == [] then []
    else
      var n := |os| - 1;
      History(os[..n], key) + if os[n].key == key && os[n].spread > 0.0 then [os[n].spread] else []
  }

  function Baseline(window: seq<real>, live: real): real {
    if |window| < MIN_SAMPLES then live
    else if Median(window) > 0.0 then Median(window) else live
  }

  lemma {:induction false} HistoryIsPositive(os: seq<Observation>, key: Key)
    ensures forall x :: x in History(os, key) ==> x > 0.0
    decreases |os|
  {
    if os != [] {
      HistoryIsPositive(os[..|os| - 1], key);
    }
  }

  /** The latest of one more. */
  lemma {:induction false} LastOfOneMore(s: seq<real>, x: real)
    ensures LastOf(s + [x], WINDOW)
            == (if |LastOf(s, WINDOW)| == WINDOW then LastOf(s, WINDOW)[1..] else LastOf(s, WINDOW)) + [x]
  {
  }

  lemma {:induction false} HistoryOfOneMore(os: seq<Observation>, o: Observation, key: Key)
    ensures History(os + [o], key)
            == if o.key == key && o.spread > 0.0 then History(os, key) + [o.spread] else History(os, key)
  {
    assert (os + [o])[..|os|] == os;
    assert History(os, key) + [] == History(os, key);
  }

  /** Observation i is a positive spread of this key. */
  predicate Belongs(os: seq<Observation>, key: Key, i: nat)
    requires i < |os|
  {
    os[i].key == key && os[i].spread > 0.0
  }

  function Own(os: seq<Observation>, key: Key): set<nat> {
    set i: nat | i < |os| && Belongs(os, key, i)
  }

  lemma {:induction false} OwnOfOneMore(os: seq<Observation>, key: Key)
    requires os != []
    ensures var n := |os| - 1;
            n !in Own(os[..n], key) && Own(os, key) == Own(os[..n], key) + if Belongs(os, key, n) then {n} else {}
  {
  }

  /** Nothing observed is missed: a key's history has one entry for each positive spread of
      its own, the last of them last. */
  lemma {:induction false} HistoryIsComplete(os: seq<Observation>, key: Key)
    ensures |History(os, key)| == |Own(os, key)|
    ensures os != [] && Belongs(os, key, |os| - 1) ==>
              History(os, key) != [] && History(os, key)[|History(os, key)| - 1] == os[|os| - 1].spread
  {
    if os != [] {
      HistoryIsComplete(os[..|os| - 1], key);
      OwnOfOneMore(os, key);
    }
  }

  /** The window is the latest 500 of them, in order. */
  lemma {:induction false} WindowIsTheLatest(all: seq<real>)
    ensures var w := LastOf(all, WINDOW);
            |w| == (if |all| < 500 then |all| else 500) && w == all[|all| - |w|..]
  {
  }

  class Agent {
    var windows: map<Key, seq<real>>
    ghost var observed: seq<Observation>

    /** Every window holds the latest 500 positive spreads of its own key. */
    ghost predicate Valid()
      reads this
    {
      forall key :: Held(key) == LastOf(History(observed, key), WINDOW)
    }

    function Held(key: Key): seq<real>
      reads this
    {
      if key in windows then windows[key] else []
    }

    constructor ()
      ensures Valid() && observed == []
    {
      windows, observed := map[], [];
    }

    method ObserveSpread(instrument: string, hour: nat, spread: real)
      requires Valid()
      modifies this
      ensures Valid() && observed == old(observed) + [Observation(Key(instrument, SessionOf(hour)), spread)]
    {
      var key := Key(instrument, SessionOf(hour));
      ghost var o := Observation(key, spread);
      if spread > 0.0 {
        var window := Held(key);
        LastOfOneMore(History(observed, key), spread);
        window := if |window| == WINDOW then window[1..] + [spread] else window + [spread];
        windows := windows[key := window];
      }
      forall other ensures Held(other) == LastOf(History(observed + [o], other), WINDOW) {
        HistoryOfOneMore(observed, o, other);
      }
      observed := observed + [o];
    }

    /** The normal spread is the median of the key's latest spreads once there are
        thirty, and the live spread before that. */
    method NormalSpread(instrument: string, hour: nat, live: real) returns (normal: real)
      requires Valid()
      ensures normal == Baseline(LastOf(History(observed, Key(instrument, SessionOf(hour))), WINDOW), live)
    {
      var window := Held(Key(instrument, SessionOf(hour)));
      if |window| < MIN_SAMPLES {
        return live;
      }
      var median := Median(window);
      normal := if median > 0.0 then median else live;
    }
  }

  /** Whatever was observed, a full-enough window gives a positive median and so never
      falls back to the live spread; and the baseline stays on the side of any bound that
      more than half of the window keep to. */
  lemma {:induction false} BaselineIsHistorical(os: seq<Observation>, key: Key, live: real, b: real)
    requires |LastOf(History(os, key), WINDOW)| >= 30
    ensures var w := LastOf(History(os, key), WINDOW);
            && Baseline(w, live) == Median(w) > 0.0
            && (2 * Above(w, b) < |w| ==> Baseline(w, live) <= b)
            && (2 * Below(w, b) < |w| ==> Baseline(w, live) >= b)
  {
    var w := LastOf(History(os, key), WINDOW);
    HistoryIsPositive(os, key);
    assert forall x :: x in w ==> x in History(os, key);
    MedianIsPositive(w);
    MedianIsRobust(w, b);
  }

  /** Before that the live spread stands for itself. */
  lemma {:induction false} LiveUntilThirty(os: seq<Observation>, key: Key, live: real)
    requires |History(os, key)| < 30
    ensures Baseline(LastOf(History(os, key), WINDOW), live) == live
  {
  }

  /** The rollover hours, when spreads are widest, London's and the rest of the day do not
      see each other: what is observed in one never moves the baseline of another. */
  lemma {:induction false} SessionsAreApart(os: seq<Observation>, instrument: string, hour: nat, spread: real,
                                            other: nat, live: real)
    requires (hour == 20 || hour == 21) != (other == 20 || other == 21)
             || (7 <= hour <= 16) != (7 <= other <= 16)
    ensures var o, key := Observation(Key(instrument, SessionOf(hour)), spread), Key(instrument, SessionOf(other));
            Baseline(LastOf(History(os + [o], key), WINDOW), live) == Baseline(LastOf(History(os, key), WINDOW), live)
  {
    HistoryOfOneMore(os, Observation(Key(instrument, SessionOf(hour)), spread), Key(instrument, SessionOf(other)));
  }

  lemma {:induction false} SessionsAreWhole(hour: nat, other: nat)
    requires (hour == 20 || hour == 21) == (other == 20 || other == 21)
    requires (7 <= hour <= 16) == (7 <= other <= 16)
    ensures SessionOf(hour) == SessionOf(other)
  {
  }
}
