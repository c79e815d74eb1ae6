/** The daily profit lock: once the day's gain reaches its threshold, the stops of the
    open book are tightened to keep a fraction of it. */
module ProfitLock {
  import opened Common
  import opened RealFacts
  import opened Rounding

  datatype Position = Position(side: Side, lots: real, entry: real, stop: Option<real>)

  /** What is known of a position's instrument this cycle. conv is the rate from the quote
      currency to the account's. */
  datatype Market = Unpriced | Market(bid: real, ask: real, tick: real, pip: real, contract: real,
                                      conv: Option<real>)

  datatype Config = Config(lockPct: real, keep: real)

  ghost predicate Sound(m: Market) {
    m.Market? ==> m.tick > 0.0 && m.pip > 0.0 && m.contract > 0.0
  }

  function Sign(s: Side): real {
    if s.Buy? then 1.0 else -1.0
  }

  function Product(a: real, b: real): real {
    a * b
  }

  /** Account currency gained per unit of price moved in the position's favour. */
  function Worth(p: Position, m: Market): real
    requires m.Market? && m.conv.Some?
  {
    Product(Product(p.lots, m.contract), m.conv.value)
  }

  /** The profit of the position if it closes at the given price. */
  function ValueAt(p: Position, price: real, worth: real): real {
    Product((price - p.entry) * Sign(p.side), worth)
  }

  /** A position is closed on the other side of the quote. */
  function ClosePrice(p: Position, m: Market): real
    requires m.Market?
  {
    if p.side.Buy? then m.bid else m.ask
  }

  function Unrealised(p: Position, m: Market): real
    requires m.Market? && m.conv.Some?
  {
    ValueAt(p, ClosePrice(p, m), Worth(p, m))
  }

  /** A rate is never guessed: without one the position is left alone. */
  predicate Priced(p: Position, m: Market) {
    p.lots > 0.0 && m.Market? && m.conv.Some? && m.conv.value > 0.0
  }

  function PipValue(p: Position, m: Market): real
    requires m.Market? && m.conv.Some?
  {
    Product(Product(Product(p.lots, m.contract), m.pip), m.conv.value)
  }

  /** The stop that gives back the position's share of the budget, on the price grid. */
  function Candidate(p: Position, m: Market, share: real): real
    requires Sound(m) && Priced(p, m) && PipValue(p, m) > 0.0
  {
    var unreal := Unrealised(p, m);
    var distance := Product((unreal - (unreal - share)) / PipValue(p, m), m.pip);
    RoundTo(ClosePrice(p, m) - distance * Sign(p.side), m.tick)
  }

  predicate Tighter(side: Side, current: Option<real>, candidate: real) {
    current.None? || if side.Buy? then candidate > current.value else candidate < current.value
  }

  /** At or past the closing price: moving there would close the position. */
  predicate Beyond(p: Position, m: Market, candidate: real)
    requires m.Market?
  {
    if p.side.Buy? then candidate >= ClosePrice(p, m) else candidate <= ClosePrice(p, m)
  }

  /** The position after the lock has looked at it, given whether the venue would accept
      a new stop. */
  function Locked(p: Position, m: Market, share: real, accepts: bool): Position
    requires Sound(m)
  {
    if !Priced(p, m) || PipValue(p, m) <= 0.0 then p
    else
      var candidate := Candidate(p, m, share);
      if Tighter(p.side, p.stop, candidate) && !Beyond(p, m, candidate) && accepts
      then p.(stop := Some(candidate)) else p
  }

  function OpenCount(book: seq<Position>): nat {
    if book == [] then 0 else (if book[0].lots > 0.0 then 1 else 0) + OpenCount(book[1..])
  }

  /** How much of the day's gain may be given back. */
  function GiveBack(cfg: Config, dayPnl: real): real {
    dayPnl - Product(dayPnl, cfg.keep)
  }

  /** Each open position's share of it. */
  function Share(cfg: Config, dayPnl: real, open: nat): real
    requires open > 0
  {
    GiveBack(cfg, dayPnl) / open as real
  }

  function LockedBook(book: seq<Position>, ms: seq<Market>, share: real, accepts: seq<bool>): seq<Position>
    requires |book| == |ms| == |accepts| && forall m :: m in ms ==> Sound(m)
  {
    seq(|book|, i requires 0 <= i < |book| => Locked(book[i], ms[i], share, accepts[i]))
  }

  class Agent {
    const cfg: Config
    var dayProfitLocked: bool
    var book: seq<Position>

    constructor (cfg: Config, book: seq<Position>)
      ensures this.cfg == cfg && this.book == book && !dayProfitLocked
    {
      this.cfg, this.book, dayProfitLocked := cfg, book, false;
    }

    method ApplyProfitLock(dayPnl: real, dayPnlPct: real, ms: seq<Market>, accepts: seq<bool>)
      requires |book| == |ms| == |accepts| && forall m :: m in ms ==> Sound(m)
      modifies this
      ensures dayProfitLocked == LatchAfter(cfg, old(dayProfitLocked), dayPnlPct)
      ensures book == BookAfter(cfg, old(dayProfitLocked), old(book), dayPnl, dayPnlPct, ms, accepts)
    {
      if cfg.lockPct <= 0.0 || (dayPnlPct < cfg.lockPct && !dayProfitLocked) {
        return;
      }
      dayProfitLocked := true;
      var open := OpenCount(book);
      if open == 0 {
        return;
      }
      var share := Share(cfg, dayPnl, open);
      ghost var before := book;
      var i := 0;
      while i < |book|
        invariant 0 <= i <= |book| == |before| && dayProfitLocked
        invariant forall k :: 0 <= k < i ==> book[k] == Locked(before[k], ms[k], share, accepts[k])
        invariant forall k :: i <= k < |book| ==> book[k] == before[k]
      {
        var p := TightenOne(book[i], ms[i], share, accepts[i]);
        book := book[i := p];
        i := i + 1;
      }
    }

    method TightenOne(p: Position, m: Market, share: real, accepts: bool) returns (q: Position)
      requires Sound(m)
      ensures q == Locked(p, m, share, accepts)
    {
      q := p;
      if Priced(p, m) && PipValue(p, m) > 0.0 {
        var candidate := Candidate(p, m, share);
        if Tighter(p.side, p.stop, candidate) && !Beyond(p, m, candidate) && accepts {
          q := p.(stop := Some(candidate));
        }
      }
    }

    /** The venue day rolls and the latch is released. */
    method RollDay()
      modifies `dayProfitLocked
      ensures !dayProfitLocked
    {
      dayProfitLocked := false;
    }
  }

  predicate Engaged(cfg: Config, latched: bool, dayPnlPct: real) {
    cfg.lockPct > 0.0 && (latched || dayPnlPct >= cfg.lockPct)
  }

  function LatchAfter(cfg: Config, latched: bool, dayPnlPct: real): bool {
    latched || Engaged(cfg, latched, dayPnlPct)
  }

  function BookAfter(cfg: Config, latched: bool, book: seq<Position>, dayPnl: real, dayPnlPct: real,
                     ms: seq<Market>, accepts: seq<bool>): seq<Position>
    requires |book| == |ms| == |accepts| && forall m :: m in ms ==> Sound(m)
  {
    if !Engaged(cfg, latched, dayPnlPct) || OpenCount(book) == 0 then book
    else LockedBook(book, ms, Share(cfg, dayPnl, OpenCount(book)), accepts)
  }

  // ---------------------------------------------------------------------
  // One position
  // ---------------------------------------------------------------------

  lemma {:induction false} WorthIsPositive(p: Position, m: Market)
    requires Sound(m) && Priced(p, m)
    ensures Worth(p, m) > 0.0 && PipValue(p, m) == Product(Worth(p, m), m.pip) > 0.0
  {
    var units := Product(p.lots, m.contract);
    MulPositive(p.lots, m.contract);
    MulPositive(units, m.conv.value);
    MulPositive(Worth(p, m), m.pip);
    Rearrange(units, m.pip, m.conv.value);
  }

  lemma {:induction false} Rearrange(a: real, b: real, c: real)
    ensures Product(Product(a, b), c) == Product(Product(a, c), b)
  {
  }

  /** The stop distance is the share divided by the position's worth per price unit: the
      pip cancels. */
  lemma {:induction false} DistanceIsTheShare(worth: real, pip: real, share: real)
    requires worth > 0.0 && pip > 0.0
    ensures Product(worth, pip) > 0.0
    ensures Product(Product(share / Product(worth, pip), pip), worth) == share
  {
    MulPositive(worth, pip);
    var per := share / Product(worth, pip);
    assert per * Product(worth, pip) == share;
    assert (per * pip) * worth == per * (worth * pip);
  }

  /** Closing at the candidate gives back the share, but for half a tick. */
  lemma {:induction false} CandidateGivesBackItsShare(p: Position, m: Market, share: real)
    requires Sound(m) && Priced(p, m)
    ensures PipValue(p, m) > 0.0
    ensures var kept := ValueAt(p, Candidate(p, m, share), Worth(p, m));
            var slack := Product(0.5 * m.tick, Worth(p, m));
            Unrealised(p, m) - share - slack <= kept <= Unrealised(p, m) - share + slack
  {
    var worth, sign, close := Worth(p, m), Sign(p.side), ClosePrice(p, m);
    WorthIsPositive(p, m);
    DistanceIsTheShare(worth, m.pip, share);
    var distance := Product(share / PipValue(p, m), m.pip);
    var exact := close - distance * sign;
    RoundToNear(exact, m.tick);
    var candidate := Candidate(p, m, share);
    assert candidate == RoundTo(exact, m.tick);
    assert (candidate - p.entry) * sign == (close - p.entry) * sign - distance + (candidate - exact) * sign;
    GiveUp((close - p.entry) * sign, distance, (candidate - exact) * sign, 0.5 * m.tick, worth);
  }

  /** Giving up a distance, within an error of half a tick, costs its worth within the
      worth of half a tick. */
  lemma {:induction false} GiveUp(gain: real, distance: real, error: real, half: real, worth: real)
    requires worth >= 0.0 && -half <= error <= half
    ensures var kept := Product(gain - distance + error, worth);
            var left := Product(gain, worth) - Product(distance, worth);
            left - Product(half, worth) <= kept <= left + Product(half, worth)
  {
    SplitValue(gain, distance, error, worth);
    MulMonotone(error, half, worth);
    MulMonotone(-half, error, worth);
    assert Product(-half, worth) == -Product(half, worth);
  }

  lemma {:induction false} SplitValue(gain: real, distance: real, error: real, worth: real)
    ensures Product(gain - distance + error, worth)
            == Product(gain, worth) - Product(distance, worth) + Product(error, worth)
  {
  }

  /** The position's stop is at the candidate or safer. */
  predicate AtLeast(p: Position, candidate: real) {
    p.stop.Some? && if p.side.Buy? then p.stop.value >= candidate else p.stop.value <= candidate
  }

  /** After the lock a position ends at its candidate stop or safer, except exactly when a
      tighter stop was wanted and it lay at or past the closing price or the venue
      refused it. Such a position keeps its looser stop, or none. */
  lemma {:induction false} ProtectedIff(p: Position, m: Market, share: real, accepts: bool)
    requires Sound(m) && Priced(p, m) && PipValue(p, m) > 0.0
    ensures var candidate := Candidate(p, m, share);
            AtLeast(Locked(p, m, share, accepts), candidate)
            <==> !(Tighter(p.side, p.stop, candidate) && (Beyond(p, m, candidate) || !accepts))
  {
  }

  /** The closing price as a count of ticks. */
  function Ticks(p: Position, m: Market): int
    requires m.Market? && m.tick > 0.0
  {
    Steps(ClosePrice(p, m), m.tick).Floor
  }

  /** The share of the budget is less than half a tick is worth; at exactly half, the tie
      goes to an even closing price. */
  predicate WithinHalfATick(p: Position, m: Market, share: real)
    requires Sound(m) && Priced(p, m)
  {
    var half := Product(0.5 * m.tick, Worth(p, m));
    share < half || (share == half && Ticks(p, m) % 2 == 0)
  }

  lemma {:induction false} ShareInTicks(share: real, distance: real, tick: real, worth: real)
    requires worth > 0.0 && Product(distance, worth) == share
    ensures distance < 0.5 * tick <==> share < Product(0.5 * tick, worth)
    ensures distance == 0.5 * tick <==> share == Product(0.5 * tick, worth)
  {
    if distance < 0.5 * tick {
      MulStrict(distance, 0.5 * tick, worth);
    } else if distance > 0.5 * tick {
      MulStrict(0.5 * tick, distance, worth);
    }
  }

  /** With closing prices on the grid, a candidate is at or past the closing price exactly
      when the position's share of the budget is within half a tick of its worth: known
      before any candidate is computed. */
  lemma {:induction false} BeyondIffWithinHalfATick(p: Position, m: Market, share: real)
    requires Sound(m) && Priced(p, m) && OnGrid(ClosePrice(p, m), m.tick)
    ensures PipValue(p, m) > 0.0
    ensures Beyond(p, m, Candidate(p, m, share)) <==> WithinHalfATick(p, m, share)
  {
    var worth, n := Worth(p, m), Ticks(p, m);
    WorthIsPositive(p, m);
    DistanceIsTheShare(worth, m.pip, share);
    var distance := Product(share / PipValue(p, m), m.pip);
    ShareInTicks(share, distance, m.tick, worth);
    assert ClosePrice(p, m) == GridAt(n, m.tick);
    RoundReachesIff(GridAt(n, m.tick) - distance * Sign(p.side), n, m.tick);
  }

  /** So, with the venue's answer, exactly which positions the lock moves. */
  lemma {:induction false} MovedIff(p: Position, m: Market, share: real, accepts: bool)
    requires Sound(m) && Priced(p, m) && OnGrid(ClosePrice(p, m), m.tick)
    ensures PipValue(p, m) > 0.0
    ensures Locked(p, m, share, accepts) != p
            <==> accepts && !WithinHalfATick(p, m, share) && Tighter(p.side, p.stop, Candidate(p, m, share))
  {
    BeyondIffWithinHalfATick(p, m, share);
  }

  lemma {:induction false} SaferIsWorthMore(p: Position, q: Position, candidate: real, worth: real)
    requires p.(stop := q.stop) == q && AtLeast(q, candidate) && worth >= 0.0
    ensures ValueAt(q, q.stop.value, worth) >= ValueAt(p, candidate, worth)
  {
    MulMonotone((candidate - p.entry) * Sign(p.side), (q.stop.value - p.entry) * Sign(p.side), worth);
  }

  /** The unrealised profit is the worse of the two sides of the quote: what closing now would
      really bring. */
  lemma {:induction false} UnrealisedIsTheWorseSide(p: Position, m: Market)
    requires Sound(m) && Priced(p, m) && m.bid <= m.ask
    ensures Unrealised(p, m) == Min(ValueAt(p, m.bid, Worth(p, m)), ValueAt(p, m.ask, Worth(p, m)))
    ensures ValueAt(p, p.entry, Worth(p, m)) == 0.0
  {
    WorthIsPositive(p, m);
    MulMonotone((ClosePrice(p, m) - p.entry) * Sign(p.side), (m.bid - p.entry) * Sign(p.side), Worth(p, m));
    MulMonotone((ClosePrice(p, m) - p.entry) * Sign(p.side), (m.ask - p.entry) * Sign(p.side), Worth(p, m));
  }

  // ---------------------------------------------------------------------
  // The whole book
  // ---------------------------------------------------------------------

  ghost predicate AllPriced(book: seq<Position>, ms: seq<Market>) {
    |book| == |ms| && forall i :: 0 <= i < |book| ==> Sound(ms[i]) && (book[i].lots > 0.0 ==> Priced(book[i], ms[i]))
  }

  function UnrealisedOf(p: Position, m: Market): real {
    if Priced(p, m) then Unrealised(p, m) else 0.0
  }

  function StoppedOf(p: Position, m: Market): real {
    if Priced(p, m) && p.stop.Some? then ValueAt(p, p.stop.value, Worth(p, m)) else 0.0
  }

  function SlackOf(p: Position, m: Market): real {
    if Priced(p, m) then Product(0.5 * m.tick, Worth(p, m)) else 0.0
  }

  function TotalUnrealised(book: seq<Position>, ms: seq<Market>): real
    requires |book| == |ms|
  {
    if book == [] then 0.0 else UnrealisedOf(book[0], ms[0]) + TotalUnrealised(book[1..], ms[1..])
  }

  /** What the open book is worth if every position closes at its stop. */
  function TotalAtStops(book: seq<Position>, ms: seq<Market>): real
    requires |book| == |ms|
  {
    if book == [] then 0.0 else StoppedOf(book[0], ms[0]) + TotalAtStops(book[1..], ms[1..])
  }

  /** Half a tick on every open position. */
  function TickSlack(book: seq<Position>, ms: seq<Market>): real
    requires |book| == |ms|
  {
    if book == [] then 0.0 else SlackOf(book[0], ms[0]) + TickSlack(book[1..], ms[1..])
  }

  /** No open position was left behind: its candidate stop was reachable and accepted, or
      its stop was already as safe. */
  ghost predicate NoneLeftBehind(book: seq<Position>, ms: seq<Market>, share: real, accepts: seq<bool>)
    requires AllPriced(book, ms) && |accepts| == |book|
  {
    forall i :: 0 <= i < |book| && book[i].lots > 0.0 ==> Reached(book[i], ms[i], share, accepts[i])
  }

  predicate Reached(p: Position, m: Market, share: real, accepts: bool)
    requires Sound(m) && Priced(p, m)
  {
    WorthIsPositive(p, m);
    var candidate := Candidate(p, m, share);
    !Tighter(p.side, p.stop, candidate) || (!Beyond(p, m, candidate) && accepts)
  }

  lemma {:induction false} OneStopKeepsItsShare(p: Position, m: Market, share: real, accepts: bool)
    requires Sound(m) && Priced(p, m) && Reached(p, m, share, accepts)
    ensures var q := Locked(p, m, share, accepts);
            Priced(q, m) && q.stop.Some?
            && StoppedOf(q, m) >= UnrealisedOf(p, m) - share - SlackOf(p, m)
  {
    WorthIsPositive(p, m);
    ProtectedIff(p, m, share, accepts);
    CandidateGivesBackItsShare(p, m, share);
    SaferIsWorthMore(p, Locked(p, m, share, accepts), Candidate(p, m, share), Worth(p, m));
  }

  function Times(n: nat, x: real): real {
    if n == 0 then 0.0 else x + Times(n - 1, x)
  }

  lemma {:induction false} TimesIsProduct(n: nat, x: real)
    ensures Times(n, x) == n as real * x
  {
    if n > 0 {
      TimesIsProduct(n - 1, x);
    }
  }

  lemma {:induction false} BookKeepsItsShares(book: seq<Position>, ms: seq<Market>, share: real, accepts: seq<bool>)
    requires AllPriced(book, ms) && |accepts| == |book| && NoneLeftBehind(book, ms, share, accepts)
    ensures TotalAtStops(LockedBook(book, ms, share, accepts), ms)
            >= TotalUnrealised(book, ms) - Times(OpenCount(book), share) - TickSlack(book, ms)
  {
    if book != [] {
      var after := LockedBook(book, ms, share, accepts);
      assert after[1..] == LockedBook(book[1..], ms[1..], share, accepts[1..]);
      BookKeepsItsShares(book[1..], ms[1..], share, accepts[1..]);
      if book[0].lots > 0.0 {
        OneStopKeepsItsShare(book[0], ms[0], share, accepts[0]);
      }
    }
  }

  lemma {:induction false} SharesAddUp(cfg: Config, dayPnl: real, open: nat)
    requires open > 0
    ensures Times(open, Share(cfg, dayPnl, open)) == GiveBack(cfg, dayPnl)
  {
    var total, n := GiveBack(cfg, dayPnl), open as real;
    TimesIsProduct(open, total / n);
    assert n * (total / n) == total;
  }

  /** The lock conserves the day's gain: with every open position priced and none left
      behind, a book that closes at its stops leaves the day with at least the kept
      fraction of its profit, less half a tick on each position. realised is the part of
      the day's profit that is already banked. */
  lemma {:induction false} LockKeepsTheFraction(cfg: Config, book: seq<Position>, ms: seq<Market>,
                                                accepts: seq<bool>, dayPnl: real, realised: real)
    requires AllPriced(book, ms) && |accepts| == |book| && OpenCount(book) > 0
    requires dayPnl == realised + TotalUnrealised(book, ms)
    requires NoneLeftBehind(book, ms, Share(cfg, dayPnl, OpenCount(book)), accepts)
    ensures var after := LockedBook(book, ms, Share(cfg, dayPnl, OpenCount(book)), accepts);
            realised + TotalAtStops(after, ms) >= Product(dayPnl, cfg.keep) - TickSlack(book, ms)
  {
    SharesAddUp(cfg, dayPnl, OpenCount(book));
    BookKeepsItsShares(book, ms, Share(cfg, dayPnl, OpenCount(book)), accepts);
  }

  /** An equal share of what may be given back, for each open position. */
  predicate EqualShare(cfg: Config, dayPnl: real, open: nat, share: real) {
    Product(share, open as real) == dayPnl - Product(dayPnl, cfg.keep)
  }

  lemma {:induction false} OnlyEqualShare(cfg: Config, dayPnl: real, open: nat, share: real)
    requires open > 0 && EqualShare(cfg, dayPnl, open, share)
    ensures share == Share(cfg, dayPnl, open)
  {
    DivCompare(GiveBack(cfg, dayPnl), open as real, share);
  }

  /** The same of the operation itself: once the day's gain has reached its threshold, or the
      lock is latched, a book that closes at its stops leaves at least the kept fraction of
      the day's profit, less half a tick on each position. */
  lemma {:induction false} LockedDayKeepsTheFraction(cfg: Config, latched: bool, book: seq<Position>, dayPnl: real,
                                                     dayPnlPct: real, ms: seq<Market>, accepts: seq<bool>, share: real)
    requires AllPriced(book, ms) && |accepts| == |book| && OpenCount(book) > 0 && forall m :: m in ms ==> Sound(m)
    requires cfg.lockPct > 0.0 && (latched || dayPnlPct >= cfg.lockPct)
    requires EqualShare(cfg, dayPnl, OpenCount(book), share) && NoneLeftBehind(book, ms, share, accepts)
    ensures LatchAfter(cfg, latched, dayPnlPct)
    ensures var banked := dayPnl - TotalUnrealised(book, ms);
            banked + TotalAtStops(BookAfter(cfg, latched, book, dayPnl, dayPnlPct, ms, accepts), ms)
            >= Product(dayPnl, cfg.keep) - TickSlack(book, ms)
  {
    OnlyEqualShare(cfg, dayPnl, OpenCount(book), share);
    LockKeepsTheFraction(cfg, book, ms, accepts, dayPnl, dayPnl - TotalUnrealised(book, ms));
  }

  /** A position the lock moves gives back its share, within half a tick of its worth. */
  predicate GivesBack(p: Position, q: Position, m: Market, share: real)
    requires Sound(m) && Priced(p, m) && PipValue(p, m) > 0.0
  {
    && q == p.(stop := Some(Candidate(p, m, share)))
    && Unrealised(p, m) - share - SlackOf(p, m) <= StoppedOf(q, m) <= Unrealised(p, m) - share + SlackOf(p, m)
  }

  lemma {:induction false} MovedGivesBack(p: Position, m: Market, share: real, accepts: bool)
    requires Sound(m) && Priced(p, m) && Locked(p, m, share, accepts) != p
    ensures PipValue(p, m) > 0.0 && GivesBack(p, Locked(p, m, share, accepts), m, share)
  {
    CandidateGivesBackItsShare(p, m, share);
    var q := Locked(p, m, share, accepts);
    assert Priced(q, m) && Worth(q, m) == Worth(p, m);
  }

  /** And it takes no more than that: exactly when the lock is engaged, the venue accepts and
      the stop is looser does it move a position whose share of the budget exceeds half a
      tick, and the stop it sets gives back that share, give or take half a tick. Nothing
      else of the position changes. */
  lemma {:induction false} LockMovesIff(cfg: Config, latched: bool, book: seq<Position>, dayPnl: real,
                                        dayPnlPct: real, ms: seq<Market>, accepts: seq<bool>, share: real, i: nat)
    requires |book| == |ms| == |accepts| && i < |book| && forall m :: m in ms ==> Sound(m)
    requires Priced(book[i], ms[i]) && ClosesOnGrid(book[i], ms[i])
    requires EqualShare(cfg, dayPnl, OpenCount(book), share)
    ensures OpenCount(book) > 0 && PipValue(book[i], ms[i]) > 0.0
    ensures var p, m := book[i], ms[i];
            var q := BookAfter(cfg, latched, book, dayPnl, dayPnlPct, ms, accepts)[i];
            && (q != p <==> cfg.lockPct > 0.0 && (latched || dayPnlPct >= cfg.lockPct) && accepts[i]
                            && !WithinHalfATick(p, m, share) && Tighter(p.side, p.stop, Candidate(p, m, share)))
            && (q != p ==> GivesBack(p, q, m, share))
  {
    OpenIsCounted(book, i);
    OnlyEqualShare(cfg, dayPnl, OpenCount(book), share);
    MovedIff(book[i], ms[i], share, accepts[i]);
    if Locked(book[i], ms[i], share, accepts[i]) != book[i] {
      MovedGivesBack(book[i], ms[i], share, accepts[i]);
    }
  }

  lemma {:induction false} OpenIsCounted(book: seq<Position>, i: nat)
    requires i < |book| && book[i].lots > 0.0
    ensures OpenCount(book) > 0
  {
    if i > 0 {
      OpenIsCounted(book[1..], i - 1);
    }
  }

  /** A lock that is switched off, or whose day has not reached the threshold, touches
      nothing, and it never touches a position that is closed or whose rate is unknown. */
  lemma {:induction false} IdleLockTouchesNothing(cfg: Config, latched: bool, book: seq<Position>, dayPnl: real,
                                                  dayPnlPct: real, ms: seq<Market>, accepts: seq<bool>, i: nat)
    requires |book| == |ms| == |accepts| && i < |book| && forall m :: m in ms ==> Sound(m)
    requires || cfg.lockPct <= 0.0 || (!latched && dayPnlPct < cfg.lockPct)
             || book[i].lots <= 0.0 || ms[i].Unpriced? || ms[i].conv.None? || ms[i].conv.value <= 0.0
    ensures BookAfter(cfg, latched, book, dayPnl, dayPnlPct, ms, accepts)[i] == book[i]
    ensures LatchAfter(cfg, latched, dayPnlPct)
            <==> latched || (cfg.lockPct > 0.0 && dayPnlPct >= cfg.lockPct)
  {
  }

  predicate ClosesOnGrid(p: Position, m: Market) {
    m.Market? ==> m.tick > 0.0 && OnGrid(ClosePrice(p, m), m.tick)
  }

  /** Nothing to give back, nothing locked in: with prices on the grid, a lock whose share of
      the budget is not positive moves no stop. Asked to keep the whole gain, it keeps none
      of it; and on a latched day that has turned negative it protects nothing more. */
  lemma {:induction false} NoBudgetMovesNothing(cfg: Config, dayPnl: real, book: seq<Position>,
                                                ms: seq<Market>, accepts: seq<bool>)
    requires |book| == |ms| == |accepts| && OpenCount(book) > 0 && forall m :: m in ms ==> Sound(m)
    requires forall i :: 0 <= i < |book| ==> ClosesOnGrid(book[i], ms[i])
    requires cfg.keep == 1.0 || (cfg.keep <= 1.0 && dayPnl <= 0.0)
    ensures LockedBook(book, ms, Share(cfg, dayPnl, OpenCount(book)), accepts) == book
  {
    var share := Share(cfg, dayPnl, OpenCount(book));
    NothingToShare(cfg, dayPnl, OpenCount(book));
    forall i | 0 <= i < |book| ensures Locked(book[i], ms[i], share, accepts[i]) == book[i] {
      assert ms[i] in ms;
      NoShareMovesNothing(book[i], ms[i], share, accepts[i]);
    }
  }

  lemma {:induction false} NoShareMovesNothing(p: Position, m: Market, share: real, accepts: bool)
    requires Sound(m) && share <= 0.0 && ClosesOnGrid(p, m)
    ensures Locked(p, m, share, accepts) == p
  {
    if Priced(p, m) {
      WorthIsPositive(p, m);
      MulPositive(0.5 * m.tick, Worth(p, m));
      BeyondIffWithinHalfATick(p, m, share);
    }
  }

  lemma {:induction false} NothingToShare(cfg: Config, dayPnl: real, open: nat)
    requires open > 0 && (cfg.keep == 1.0 || (cfg.keep <= 1.0 && dayPnl <= 0.0))
    ensures Share(cfg, dayPnl, open) <= 0.0
  {
    if cfg.keep < 1.0 {
      MulMonotone(dayPnl, 0.0, 1.0 - cfg.keep);
    }
    DivMonotone(GiveBack(cfg, dayPnl), 0.0, open as real);
  }

  // ---------------------------------------------------------------------
  // Repeated cycles
  // ---------------------------------------------------------------------

  /** One cycle of the same book: the day's figures, the market, and the venue's answers. */
  datatype Round = Round(dayPnl: real, dayPnlPct: real, ms: seq<Market>, accepts: seq<bool>)

  ghost predicate Fits(rounds: seq<Round>, n: nat) {
    forall r :: r in rounds ==> |r.ms| == |r.accepts| == n && forall m :: m in r.ms ==> Sound(m)
  }

  ghost function Repeated(cfg: Config, latched: bool, book: seq<Position>, rounds: seq<Round>): (after: seq<Position>)
    requires Fits(rounds, |book|)
    ensures |after| == |book|
    decreases |rounds|
  {
    if rounds == [] then book
    else
      var r := rounds[0];
      assert r in rounds && forall s :: s in rounds[1..] ==> s in rounds;
      Repeated(cfg, LatchAfter(cfg, latched, r.dayPnlPct),
               BookAfter(cfg, latched, book, r.dayPnl, r.dayPnlPct, r.ms, r.accepts), rounds[1..])
  }

  /** q is p with its stop where it was or safer. */
  predicate NoLooser(p: Position, q: Position) {
    p.(stop := q.stop) == q && (p.stop.Some? ==> AtLeast(q, p.stop.value))
  }

  /** Over any number of cycles no stop is ever widened or removed, whatever the market
      and the venue do. */
  lemma {:induction false} StopsNeverWiden(cfg: Config, latched: bool, book: seq<Position>, rounds: seq<Round>, i: nat)
    requires Fits(rounds, |book|) && i < |book|
    ensures NoLooser(book[i], Repeated(cfg, latched, book, rounds)[i])
    decreases |rounds|
  {
    if rounds != [] {
      var r := rounds[0];
      assert r in rounds && forall s :: s in rounds[1..] ==> s in rounds;
      var next := BookAfter(cfg, latched, book, r.dayPnl, r.dayPnlPct, r.ms, r.accepts);
      StopsNeverWiden(cfg, LatchAfter(cfg, latched, r.dayPnlPct), next, rounds[1..], i);
      assert NoLooser(book[i], next[i]);
    }
  }

  /** So the guaranteed floor of the book, valued at any one market, never falls over
      repeated cycles. */
  lemma {:induction false} FloorNeverFalls(before: seq<Position>, after: seq<Position>, ms: seq<Market>)
    requires |before| == |after| == |ms| && forall i :: 0 <= i < |ms| ==> Sound(ms[i])
    requires forall i :: 0 <= i < |before| ==> before[i].stop.Some? && NoLooser(before[i], after[i])
    ensures TotalAtStops(after, ms) >= TotalAtStops(before, ms)
  {
    if before != [] {
      FloorNeverFalls(before[1..], after[1..], ms[1..]);
      if Priced(before[0], ms[0]) {
        WorthIsPositive(before[0], ms[0]);
        SaferIsWorthMore(before[0], after[0], before[0].stop.value, Worth(before[0], ms[0]));
      }
    }
  }

  lemma {:induction false} GuaranteeNeverFalls(cfg: Config, latched: bool, book: seq<Position>,
                                               rounds: seq<Round>, ms: seq<Market>)
    requires Fits(rounds, |book|) && |ms| == |book| && forall i :: 0 <= i < |ms| ==> Sound(ms[i])
    requires forall i :: 0 <= i < |book| ==> book[i].stop.Some?
    ensures TotalAtStops(Repeated(cfg, latched, book, rounds), ms) >= TotalAtStops(book, ms)
  {
    var after := Repeated(cfg, latched, book, rounds);
    forall i | 0 <= i < |book| ensures NoLooser(book[i], after[i]) {
      StopsNeverWiden(cfg, latched, book, rounds, i);
    }
    FloorNeverFalls(book, after, ms);
  }
}
