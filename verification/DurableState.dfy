/** The agent's durable risk state: what a save and a load keep, and what halts, crashes
    and restarts do to it. */
module DurableState {
  import opened Common

  // ---------------------------------------------------------------------
  // Position metadata
  // ---------------------------------------------------------------------

  /** The text a value is saved as: a decimal number, an integer, or any other word. */
  datatype Cell = Numeral(x: real) | Digits(n: int) | Word(s: string)

  /** A value of the in-memory dictionary. A text may hold a number. */
  datatype Value = Num(x: real) | Whole(n: int) | Txt(cell: Cell) | Flag(b: bool) | Null

  type Meta = map<string, Value>

  datatype Kind = Number | Integer | Words | Switch | Stop

  const KINDS: map<string, Kind> := map[
    "initial_risk" := Number, "intended_risk" := Number, "lots" := Number, "entry_price" := Number,
    "max_favourable" := Number, "max_adverse" := Number,
    "opened_ns" := Integer, "max_hold_sec" := Integer,
    "strategy" := Words, "side" := Words, "client_order_id" := Words, "regime" := Words,
    "provisional" := Switch, "partial_taken" := Switch, "breakeven_moved" := Switch,
    "stop_loss" := Stop]

  function Show(v: Value): Cell {
    match v
    case Num(x) => Numeral(x)
    case Whole(n) => Digits(n)
    case Txt(c) => c
    case Flag(b) => Word(if b then "True" else "False")
    case Null => Word("None")
  }

  function SaveMeta(m: Meta): map<string, Cell> {
    map f | f in m :: Show(m[f])
  }

  /** A decimal read from its text; None where the conversion raises. */
  function AsNumber(c: Cell): Option<real> {
    match c
    case Numeral(x) => Some(x)
    case Digits(n) => Some(n as real)
    case Word(_) => None
  }

  function LoadNumber(field: string, saved: map<string, Cell>): Option<Value> {
    if field !in saved then Some(Num(0.0))
    else if saved[field] == Word("") && field != "initial_risk" then Some(Num(0.0))
    else if AsNumber(saved[field]).Some? then Some(Num(AsNumber(saved[field]).value))
    else None
  }

  function LoadInteger(field: string, saved: map<string, Cell>): Option<Value> {
    if field !in saved || saved[field] == Word("") then Some(Whole(0))
    else
      match saved[field]
      case Digits(n) => Some(Whole(n))
      case Numeral(x) =>
        if field == "max_hold_sec" then Some(Whole(if x >= 0.0 then x.Floor else -(-x).Floor)) else None
      case Word(_) => None
  }

  function LoadStop(field: string, saved: map<string, Cell>): Option<Value> {
    if field !in saved || saved[field] == Word("") || saved[field] == Word("None") then Some(Null)
    else if AsNumber(saved[field]).Some? then Some(Num(AsNumber(saved[field]).value))
    else None
  }

  function LoadField(field: string, saved: map<string, Cell>): Option<Value>
    requires field in KINDS
  {
    match KINDS[field]
    case Number => LoadNumber(field, saved)
    case Integer => LoadInteger(field, saved)
    case Words => Some(Txt(if field in saved then saved[field] else Word("")))
    case Switch => Some(Flag(field in saved && saved[field] == Word("True")))
    case Stop => LoadStop(field, saved)
  }

  predicate Readable(saved: map<string, Cell>) {
    forall f :: f in KINDS ==> LoadField(f, saved).Some?
  }

  /** The metadata of one position as loaded; None where a conversion raises. */
  function LoadMeta(saved: map<string, Cell>): Option<Meta> {
    if Readable(saved) then Some(map f | f in KINDS :: LoadField(f, saved).value) else None
  }

  /** What the agent keeps under each kind of field: numbers, or their text; a stop may be
      missing. */
  predicate Fits(k: Kind, v: Value) {
    match k
    case Number => v.Num? || (v.Txt? && v.cell.Numeral?)
    case Integer => v.Whole?
    case Words => v.Txt?
    case Switch => v.Flag?
    case Stop => v.Num? || v.Null? || (v.Txt? && v.cell.Numeral?)
  }

  predicate Typed(m: Meta) {
    forall f :: f in KINDS && f in m ==> Fits(KINDS[f], m[f])
  }

  /** The loader's normal form: every known field, numbers as numbers, defaults where the
      field was missing, and nothing else. */
  function Default(k: Kind): Value {
    match k
    case Number => Num(0.0)
    case Integer => Whole(0)
    case Words => Txt(Word(""))
    case Switch => Flag(false)
    case Stop => Null
  }

  function Canonical(k: Kind, v: Value): Value {
    if (k.Number? || k.Stop?) && v.Txt? && v.cell.Numeral? then Num(v.cell.x) else v
  }

  function NormalField(field: string, m: Meta): Value
    requires field in KINDS
  {
    if field in m then Canonical(KINDS[field], m[field]) else Default(KINDS[field])
  }

  function Normal(m: Meta): Meta {
    map f | f in KINDS :: NormalField(f, m)
  }

  lemma {:induction false} FieldRoundTrip(field: string, m: Meta)
    requires Typed(m) && field in KINDS
    ensures LoadField(field, SaveMeta(m)) == Some(NormalField(field, m))
  {
    if field in m {
      assert Fits(KINDS[field], m[field]);
    }
  }

  /** A restart reads back exactly the normal form of the metadata, and a second restart
      changes nothing more. */
  lemma {:induction false} MetaRoundTrip(m: Meta)
    requires Typed(m)
    ensures LoadMeta(SaveMeta(m)) == Some(Normal(m))
    ensures Typed(Normal(m)) && Normal(Normal(m)) == Normal(m)
  {
    forall f | f in KINDS ensures LoadField(f, SaveMeta(m)) == Some(NormalField(f, m)) {
      FieldRoundTrip(f, m);
    }
    assert LoadMeta(SaveMeta(m)).value == Normal(m);
    forall f | f in KINDS ensures NormalField(f, Normal(m)) == NormalField(f, m) && Fits(KINDS[f], NormalField(f, m)) {
      if f in m {
        assert Fits(KINDS[f], m[f]);
      }
    }
  }

  // ---------------------------------------------------------------------
  // The whole state
  // ---------------------------------------------------------------------

  const MAX_IDS := 5000
  const MAX_MARKS := 400

  /** The budgets and everything else that is saved as it stands. */
  datatype Core = Core(peak: real, peakMarked: real, dayLocked: bool, rung: int,
                       dayStart: real, weekStart: real, monthStart: real,
                       dayKey: Option<int>, weekKey: Option<seq<int>>, monthKey: Option<seq<int>>,
                       yearKey: Option<int>, today: int, week: int, year: int, lastEntry: Option<int>,
                       regimes: map<string, string>, cursor: string, suspended: map<string, string>)

  const FRESH := Core(0.0, 0.0, false, 0, 0.0, 0.0, 0.0, None, None, None, None, 0, 0, 0, None,
                      map[], "", map[])

  /** The agent's memory. order holds the processed trades as they were learnt. */
  datatype Memory = Memory(core: Core, halted: bool, reason: string, meta: map<string, Meta>,
                           processed: set<string>, order: seq<string>, marks: seq<(int, real)>)

  datatype Saved = Saved(core: Core, weekKey: seq<int>, monthKey: seq<int>, halted: bool, reason: string,
                         meta: map<string, map<string, Cell>>, ids: seq<string>, marks: seq<(int, real)>)

  datatype File = Missing | Unreadable | Stored(saved: Saved)

  const EMPTY := Memory(FRESH, false, "", map[], {}, [], [])

  const UNREADABLE_REASON := "the agent state is unreadable"
  const JOURNAL_REASON := "the order journal cannot be read"
  const REPLAY_REASON := "the venue has no record of an order sent before the restart"
  const RECONCILE_REASON := "startup reconciliation found a state that needs a human"

  function LastIds(s: seq<string>): seq<string> {
    if |s| <= MAX_IDS then s else s[|s| - MAX_IDS..]
  }

  function Elements(s: seq<string>): set<string> {
    set x | x in s
  }

  function KeyList(k: Option<seq<int>>): seq<int> {
    if k.Some? then k.value else []
  }

  /** The processed trades that were not learnt in this run, in some order. */
  function Others(m: Memory): set<string> {
    m.processed - Elements(m.order)
  }

  function ToSaved(m: Memory, others: seq<string>): Saved {
    Saved(m.core.(weekKey := None, monthKey := None), KeyList(m.core.weekKey), KeyList(m.core.monthKey),
          m.halted, m.reason, map sym | sym in m.meta :: SaveMeta(m.meta[sym]),
          LastIds(others + m.order), m.marks)
  }

  function LoadKey(s: seq<int>): Option<seq<int>> {
    if s == [] then None else Some(s)
  }

  function LastMarks(s: seq<(int, real)>): seq<(int, real)> {
    if |s| <= MAX_MARKS then s else s[|s| - MAX_MARKS..]
  }

  /** The memory of a fresh agent that loads a saved state; None where loading raises. */
  function FromSaved(s: Saved): Option<Memory> {
    if forall sym :: sym in s.meta ==> LoadMeta(s.meta[sym]).Some?
    then Some(Memory(s.core.(weekKey := LoadKey(s.weekKey), monthKey := LoadKey(s.monthKey)),
                     s.halted, if s.halted then s.reason else "",
                     map sym | sym in s.meta :: LoadMeta(s.meta[sym]).value,
                     Elements(s.ids), LastIds(s.ids), LastMarks(s.marks)))
    else None
  }

  /** Trades are learnt one at a time into a bounded order, so an id is missing from the
      order only once the order is full. */
  ghost predicate WellKept(m: Memory) {
    && (forall sym :: sym in m.meta ==> Typed(m.meta[sym]))
    && m.core.weekKey != Some([]) && m.core.monthKey != Some([])
    && (!m.halted ==> m.reason == "")
    && |m.order| <= MAX_IDS && |m.marks| <= MAX_MARKS
    && (if |m.order| < MAX_IDS then m.processed == Elements(m.order) else m.processed >= Elements(m.order))
  }

  /** Whatever is in the set beside the order, the ids saved are the latest learnt. */
  lemma {:induction false} TheOrderIsWhatIsSaved(m: Memory, others: seq<string>)
    requires WellKept(m) && Elements(others) == Others(m)
    ensures LastIds(others + m.order) == m.order
    ensures ToSaved(m, others) == ToSaved(m, [])
  {
    NonemptyHasElements(others);
    assert [] + m.order == m.order;
  }

  lemma {:induction false} NonemptyHasElements(s: seq<string>)
    ensures s != [] ==> Elements(s) != {}
  {
    if s != [] {
      assert s[0] in Elements(s);
    }
  }

  /** What a restart may lose: the fields a row of metadata never had, and trades older
      than the latest 5000. */
  function NormalMemory(m: Memory): Memory {
    m.(meta := map sym | sym in m.meta :: Normal(m.meta[sym]), processed := Elements(m.order))
  }

  /** A save followed by a load restores the memory up to its normal form: every budget,
      peak, rung, key, counter, mark and the halt exactly. A second restart changes
      nothing more. */
  lemma {:induction false} StateRoundTrip(m: Memory)
    requires WellKept(m)
    ensures FromSaved(ToSaved(m, [])) == Some(NormalMemory(m))
    ensures WellKept(NormalMemory(m)) && NormalMemory(NormalMemory(m)) == NormalMemory(m)
  {
    var s, n := ToSaved(m, []), NormalMemory(m);
    assert [] + m.order == m.order;
    forall sym | sym in m.meta
      ensures LoadMeta(s.meta[sym]) == Some(Normal(m.meta[sym]))
      ensures Typed(Normal(m.meta[sym])) && Normal(Normal(m.meta[sym])) == Normal(m.meta[sym])
    {
      MetaRoundTrip(m.meta[sym]);
    }
    assert FromSaved(s).value.meta == n.meta;
    assert NormalMemory(n).meta == n.meta;
  }

  // ---------------------------------------------------------------------
  // Halt, resume and restart
  // ---------------------------------------------------------------------

  datatype Record = Sent(id: string) | Filled(id: string) | Rejected(id: string) | Cancelled(id: string)
                  | Other

  /** Orders journalled as sent with no terminal record. Any fill counts as terminal. */
  predicate Pending(journal: seq<Record>, id: string) {
    && id != "" && Sent(id) in journal
    && Filled(id) !in journal && Rejected(id) !in journal && Cancelled(id) !in journal
  }

  function Unterminated(journal: seq<Record>): set<string> {
    set r | r in journal && r.Sent? && Pending(journal, r.id) :: r.id
  }

  /** What each record does to the orders a restart must ask about: an order that is sent joins
      them, unless it has no id or was closed before; a fill, a rejection or a cancellation
      takes its order out for good; and nothing else matters. */
  lemma {:induction false} JournalStep(journal: seq<Record>, rec: Record)
    ensures Unterminated([]) == {}
    ensures Unterminated(journal + [rec])
            == match rec
               case Sent(id) => if id == "" || Closed(journal, id) then Unterminated(journal)
                                else Unterminated(journal) + {id}
               case Filled(id) => Unterminated(journal) - {id}
               case Rejected(id) => Unterminated(journal) - {id}
               case Cancelled(id) => Unterminated(journal) - {id}
               case Other => Unterminated(journal)
  {
    forall id
      ensures id in Unterminated(journal) <==> Pending(journal, id)
      ensures id in Unterminated(journal + [rec]) <==> Pending(journal + [rec], id)
    {
      UnterminatedIff(journal, id);
      UnterminatedIff(journal + [rec], id);
    }
    forall id ensures Pending(journal + [rec], id)
                      <==> (Pending(journal, id) || (rec == Sent(id) && id != "" && !Closed(journal, id)))
                           && rec != Filled(id) && rec != Rejected(id) && rec != Cancelled(id)
    {
      ClosedIff(journal, id);
    }
  }

  lemma {:induction false} ClosedIff(journal: seq<Record>, id: string)
    ensures Closed(journal, id) <==> Filled(id) in journal || Rejected(id) in journal || Cancelled(id) in journal
  {
  }

  lemma {:induction false} UnterminatedIff(journal: seq<Record>, id: string)
    ensures id in Unterminated(journal) <==> Pending(journal, id)
  {
    assert Pending(journal, id) ==> Sent(id) in journal;
  }

  predicate Closed(journal: seq<Record>, id: string) {
    exists k :: 0 <= k < |journal|
      && (journal[k] == Filled(id) || journal[k] == Rejected(id) || journal[k] == Cancelled(id))
  }

  /** What a start meets: whether the journal reads, the orders the venue answers for,
      the reconciler's verdict, and the account's balance and equity if it reads. */
  datatype Boot = Boot(journalReads: bool, known: set<string>, mustHalt: bool, account: Option<(real, real)>)

  /** A memory and the file beside it. */
  datatype Kept = Kept(mem: Memory, file: File)

  function Halted(k: Kept, reason: string): Kept {
    if k.mem.halted then k
    else
      var m := k.mem.(halted := true, reason := reason);
      Kept(m, Stored(ToSaved(m, [])))
  }

  lemma {:induction false} HaltedOnce(k: Kept, reason: string)
    ensures Halted(Halted(k, reason), reason) == Halted(k, reason)
  {
  }

  function Loaded(file: File): Option<Memory> {
    match file
    case Missing => Some(EMPTY)
    case Unreadable => Some(EMPTY.(halted := true, reason := UNREADABLE_REASON))
    case Stored(s) => FromSaved(s)
  }

  lemma {:induction false} LoadedFieldFits(field: string, saved: map<string, Cell>)
    requires field in KINDS && LoadField(field, saved).Some?
    ensures Fits(KINDS[field], LoadField(field, saved).value)
  {
  }

  /** Whatever the file holds, what loads is well kept. */
  lemma {:induction false} LoadedIsWellKept(file: File)
    ensures Loaded(file).Some? ==> WellKept(Loaded(file).value)
  {
    if file.Stored? && FromSaved(file.saved).Some? {
      var s := file.saved;
      forall sym | sym in s.meta ensures Typed(LoadMeta(s.meta[sym]).value) {
        forall f | f in KINDS ensures Fits(KINDS[f], LoadField(f, s.meta[sym]).value) {
          LoadedFieldFits(f, s.meta[sym]);
        }
      }
      assert Elements(LastIds(s.ids)) <= Elements(s.ids);
    }
  }

  function Replayed(k: Kept, journal: seq<Record>, boot: Boot): Kept {
    if !boot.journalReads then Halted(k, JOURNAL_REASON)
    else if Unterminated(journal) <= boot.known then k
    else Halted(k, REPLAY_REASON)
  }

  function Reconciled(k: Kept, boot: Boot): Kept {
    if boot.mustHalt then Halted(k, RECONCILE_REASON) else k
  }

  function OrElse(x: real, fallback: real): real {
    if x <= 0.0 then fallback else x
  }

  /** The baselines after a start: the restored ones, with the account standing in for
      any that was never captured. */
  function Baselined(c: Core, restored: bool, balance: real, equity: real): Core {
    if !restored then c.(peak := balance, dayStart := equity, weekStart := equity, monthStart := equity)
    else c.(peak := OrElse(c.peak, equity), dayStart := OrElse(c.dayStart, equity),
            weekStart := OrElse(c.weekStart, equity), monthStart := OrElse(c.monthStart, equity))
  }

  /** The agent a start leaves running, if it does not raise, and the file it leaves. */
  datatype Launch = Launch(mem: Option<Memory>, file: File)

  function Started(file: File, journal: seq<Record>, boot: Boot): Launch {
    if Loaded(file).None? then Launch(None, file)
    else
      var k := Reconciled(Replayed(Kept(Loaded(file).value, file), journal, boot), boot);
      if boot.account.None? then Launch(None, k.file)
      else
        var m := k.mem.(core := Baselined(k.mem.core, file.Stored?, boot.account.value.0, boot.account.value.1));
        Launch(Some(m), Stored(ToSaved(m, [])))
  }

  /** What survives a crash of the process. */
  class Disk {
    var file: File
    var journal: seq<Record>

    constructor ()
      ensures file == Missing && journal == []
    {
      file, journal := Missing, [];
    }
  }

  class Agent {
    const disk: Disk
    var core: Core
    var halted: bool
    var reason: string
    var meta: map<string, Meta>
    var processed: set<string>
    var order: seq<string>
    var marks: seq<(int, real)>

    constructor (disk: Disk)
      ensures this.disk == disk && View() == EMPTY
    {
      this.disk, core, halted, reason := disk, FRESH, false, "";
      meta, processed, order, marks := map[], {}, [], [];
    }

    function View(): Memory
      reads this
    {
      Memory(core, halted, reason, meta, processed, order, marks)
    }

    ghost function Now(): Kept
      reads this, disk`file
    {
      Kept(View(), disk.file)
    }

    method SaveState()
      requires WellKept(View())
      modifies disk`file
      ensures disk.file == Stored(ToSaved(View(), []))
    {
      var seen := set x | x in order;
      var rest, others := processed - seen, [];
      while rest != {}
        invariant Elements(others) + rest == Others(View()) && rest <= Others(View())
        decreases |rest|
      {
        var x :| x in rest;
        assert Elements(others + [x]) == Elements(others) + {x};
        rest, others := rest - {x}, others + [x];
      }
      TheOrderIsWhatIsSaved(View(), others);
      disk.file := Stored(ToSaved(View(), others));
    }

    /** Loads into a new agent: whether a state was restored, or None if it raised. */
    method LoadState() returns (restored: Option<bool>)
      requires View() == EMPTY
      modifies this
      ensures restored.None? <==> Loaded(disk.file).None?
      ensures restored.Some? ==> View() == Loaded(disk.file).value && restored.value == disk.file.Stored?
    {
      match disk.file
      case Missing => restored := Some(false);
      case Unreadable =>
        halted, reason := true, UNREADABLE_REASON;
        restored := Some(false);
      case Stored(s) =>
        var m := FromSaved(s);
        if m.None? {
          return None;
        }
        core, meta, marks := m.value.core, m.value.meta, m.value.marks;
        processed, order := m.value.processed, m.value.order;
        if s.halted {
          halted, reason := true, s.reason;
        }
        restored := Some(true);
    }

    method Halt(why: string)
      requires WellKept(View())
      modifies this, disk`file
      ensures Now() == Halted(old(Now()), why)
    {
      if halted {
        return;
      }
      halted, reason := true, why;
      SaveState();
    }

    method Resume() returns (resumed: bool)
      requires WellKept(View())
      modifies this, disk`file
      ensures resumed == old(halted) && !halted
      ensures View() == if resumed then old(View()).(halted := false, reason := "") else old(View())
      ensures disk.file == if resumed then Stored(ToSaved(View(), [])) else old(disk.file)
    {
      if !halted {
        return false;
      }
      halted, reason := false, "";
      SaveState();
      resumed := true;
    }

    /** Asks the venue about every unterminated order of the journal, halting on the first
        one it does not know. */
    method Replay(boot: Boot)
      requires WellKept(View())
      modifies this, disk`file
      ensures Now() == Replayed(old(Now()), disk.journal, boot)
      ensures WellKept(View())
    {
      if !boot.journalReads {
        Halt(JOURNAL_REASON);
        return;
      }
      var rest := set r | r in disk.journal && r.Sent? && Pending(disk.journal, r.id) :: r.id;
      assert rest == Unterminated(disk.journal);
      ghost var asked: set<string>, before, after := {}, Now(), Halted(Now(), REPLAY_REASON);
      while rest != {}
        invariant asked + rest == Unterminated(disk.journal) && WellKept(View())
        invariant disk.journal == old(disk.journal)
        invariant Now() == if asked <= boot.known then before else after
        decreases |rest|
      {
        var id :| id in rest;
        HaltedOnce(before, REPLAY_REASON);
        AskAbout(id, boot);
        rest, asked := rest - {id}, asked + {id};
      }
    }

    method AskAbout(id: string, boot: Boot)
      requires WellKept(View())
      modifies this, disk`file
      ensures Now() == if id in boot.known then old(Now()) else Halted(old(Now()), REPLAY_REASON)
      ensures WellKept(View())
    {
      if id !in boot.known {
        Halt(REPLAY_REASON);
      }
    }

    method Start(boot: Boot) returns (up: bool)
      requires View() == EMPTY
      modifies this, disk`file
      ensures var l := Started(old(disk.file), disk.journal, boot);
              && up == l.mem.Some? && disk.file == l.file && (up ==> View() == l.mem.value)
    {
      LoadedIsWellKept(disk.file);
      var restored := LoadState();
      if restored.None? {
        return false;
      }
      Replay(boot);
      if boot.mustHalt {
        Halt(RECONCILE_REASON);
      }
      if boot.account.None? {
        return false;
      }
      CaptureBaselines(restored.value, boot.account.value.0, boot.account.value.1);
      SaveState();
      up := true;
    }

    method CaptureBaselines(restored: bool, balance: real, equity: real)
      modifies `core
      ensures core == Baselined(old(core), restored, balance, equity)
    {
      if !restored {
        core := core.(peak := balance, dayStart := equity, weekStart := equity, monthStart := equity);
      } else {
        core := core.(peak := Max(core.peak, 0.0));
        if core.peak <= 0.0 {
          core := core.(peak := equity);
        }
        core := core.(dayStart := OrElse(core.dayStart, equity), weekStart := OrElse(core.weekStart, equity),
                      monthStart := OrElse(core.monthStart, equity));
      }
    }
  }

  // ---------------------------------------------------------------------
  // Runs
  // ---------------------------------------------------------------------

  datatype World = World(mem: Option<Memory>, file: File, journal: seq<Record>)

  /** Work is anything the running agent does to its memory besides halting and resuming;
      Corrupt damages the file and Remove takes it away. */
  datatype Event =
    | Work(to: Memory) | Save | Halt(why: string) | Resume | Log(rec: Record)
    | Crash | Corrupt | Remove | Restart(boot: Boot)

  function Next(w: World, e: Event): World {
    match e
    case Crash => w.(mem := None)
    case Corrupt => w.(file := Unreadable)
    case Remove => w.(file := Missing)
    case Restart(boot) =>
      var l := Started(w.file, w.journal, boot);
      World(l.mem, l.file, w.journal)
    case Work(to) =>
      if w.mem.None? then w else w.(mem := Some(to.(halted := w.mem.value.halted, reason := w.mem.value.reason)))
    case Save => if w.mem.None? then w else w.(file := Stored(ToSaved(w.mem.value, [])))
    case Halt(why) =>
      if w.mem.None? then w
      else var k := Halted(Kept(w.mem.value, w.file), why); w.(mem := Some(k.mem), file := k.file)
    case Resume =>
      if w.mem.None? || !w.mem.value.halted then w
      else var m := w.mem.value.(halted := false, reason := ""); w.(mem := Some(m), file := Stored(ToSaved(m, [])))
    case Log(rec) => w.(journal := w.journal + [rec])
  }

  function Run(w: World, es: seq<Event>): World
    decreases |es|
  {
    if es == [] then w else Run(Next(w, es[0]), es[1..])
  }

  /** A start from this file would come up halted. */
  predicate FileHalts(f: File) {
    f.Unreadable? || (f.Stored? && f.saved.halted)
  }

  /** The agent is halted if it is up, and so is any file beside it. */
  predicate Held(w: World) {
    (FileHalts(w.file) || w.file.Missing?) && (w.mem.Some? ==> w.mem.value.halted)
  }

  /** Whenever the agent is halted in memory, any file beside it says so too. */
  predicate Recorded(w: World) {
    w.mem.Some? && w.mem.value.halted ==> FileHalts(w.file) || w.file.Missing?
  }

  lemma {:induction false} AlwaysRecorded(w: World, es: seq<Event>)
    requires Recorded(w)
    ensures Recorded(Run(w, es))
    decreases |es|
  {
    if es != [] {
      AlwaysRecorded(Next(w, es[0]), es[1..]);
    }
  }

  /** Some start of the run finds no file. */
  predicate StartsBare(w: World, es: seq<Event>)
    decreases |es|
  {
    es != [] && ((es[0].Restart? && w.file.Missing?) || StartsBare(Next(w, es[0]), es[1..]))
  }

  lemma {:induction false} HeldUntilResume(w: World, es: seq<Event>)
    requires Held(w) && Resume !in es && !StartsBare(w, es)
    ensures Held(Run(w, es))
    decreases |es|
  {
    if es != [] {
      assert es[0] in es && es[0] != Resume;
      assert forall e :: e in es[1..] ==> e in es;
      HeldUntilResume(Next(w, es[0]), es[1..]);
    }
  }

  lemma {:induction false} FileStays(w: World, es: seq<Event>)
    requires !w.file.Missing? && Remove !in es
    ensures !StartsBare(w, es) && !Run(w, es).file.Missing?
    decreases |es|
  {
    if es != [] {
      assert es[0] in es && es[0] != Remove;
      assert forall e :: e in es[1..] ==> e in es;
      FileStays(Next(w, es[0]), es[1..]);
    }
  }

  /** Once halt returns, the agent stays halted through any work, saves, crashes, damage to
      the file and restarts, until a resume or a start that finds the file removed. With its
      file in place and never removed, the file itself stays halted too. */
  lemma {:induction false} HaltLastsUntilResume(w: World, before: seq<Event>, why: string, after: seq<Event>)
    requires Recorded(w) && Run(w, before).mem.Some? && Resume !in after
    ensures var from := Next(Run(w, before), Halt(why));
            var end := Run(from, after);
            && (!StartsBare(from, after) ==> end.mem.Some? ==> end.mem.value.halted)
            && (!from.file.Missing? && Remove !in after ==>
                  !StartsBare(from, after) && FileHalts(end.file))
  {
    var from := Next(Run(w, before), Halt(why));
    AlwaysRecorded(w, before);
    if !from.file.Missing? && Remove !in after {
      FileStays(from, after);
    }
    if !StartsBare(from, after) {
      HeldUntilResume(from, after);
    }
  }

  /** A running agent at its work. Halting it again is one of the things it may do. */
  predicate Quiet(es: seq<Event>) {
    forall e :: e in es ==> e.Work? || e.Save? || e.Log? || e.Halt?
  }

  lemma {:induction false} OnlyASaveBringsItBack(w: World, es: seq<Event>)
    requires w.mem.Some? && Held(w) && Quiet(es)
    ensures var end := Run(w, es);
            && end.mem.Some? && Held(end)
            && (end.file.Missing? <==> w.file.Missing? && Save !in es)
    decreases |es|
  {
    if es != [] {
      assert es[0] in es && forall e :: e in es[1..] ==> e in es;
      OnlyASaveBringsItBack(Next(w, es[0]), es[1..]);
      assert Save in es <==> es[0] == Save || Save in es[1..];
    }
  }

  /** A halt survives the removal of its file exactly if the halted agent saves before it
      goes down; halting it a second time saves nothing. Otherwise the next start comes up
      unhalted whenever a first start would. */
  lemma {:induction false} RemovedHaltIsLostIff(w: World, mid: seq<Event>, boot: Boot)
    requires w.mem.Some? && Held(w) && Quiet(mid)
    ensures var down := Next(Run(Next(w, Remove), mid), Crash);
            var l := Started(down.file, down.journal, boot);
            && Next(down, Restart(boot)) == World(l.mem, l.file, down.journal)
            && (l.mem.Some? && !l.mem.value.halted
                <==> Save !in mid && boot.account.Some? && boot.journalReads && !boot.mustHalt
                     && forall id :: Pending(down.journal, id) ==> id in boot.known)
  {
    OnlyASaveBringsItBack(Next(w, Remove), mid);
    var down := Next(Run(Next(w, Remove), mid), Crash);
    if Loaded(down.file).Some? {
      StartsUnhaltedIff(down.file, down.journal, boot);
    }
  }

  /** A start leaves an agent running unhalted if and only if the account and the state
      read, the state was not halted, the journal reads, the venue answers for every
      order that was sent and never terminated, and reconciliation finds nothing. */
  lemma {:induction false} StartsUnhaltedIff(file: File, journal: seq<Record>, boot: Boot)
    requires Loaded(file).Some?
    ensures var l := Started(file, journal, boot);
            (l.mem.Some? && !l.mem.value.halted)
            <==> boot.account.Some? && !FileHalts(file) && boot.journalReads && !boot.mustHalt
                 && forall id :: Pending(journal, id) ==> id in boot.known
  {
    forall id ensures Pending(journal, id) <==> id in Unterminated(journal) {
      assert Pending(journal, id) ==> Sent(id) in journal;
    }
  }

  /** What a start measures every budget against. A first start, and one that could not read
      its state, takes the balance for its peak and the equity for the three baselines. A
      start that read its state keeps each figure it had captured, so that no restart moves
      one, and takes the equity only for those it never captured. Nothing else of the state
      is touched. */
  lemma {:induction false} StartBaselines(file: File, journal: seq<Record>, boot: Boot)
    requires Loaded(file).Some? && boot.account.Some?
    ensures var l, (balance, equity) := Started(file, journal, boot), boot.account.value;
            && l.mem.Some? && l.file == Stored(ToSaved(l.mem.value, []))
            && var from, to := Loaded(file).value, l.mem.value;
               && (!file.Stored? ==> to.core.peak == balance && to.core.dayStart == equity
                                     && to.core.weekStart == equity && to.core.monthStart == equity)
               && (file.Stored? ==>
                     && to.core.peak == (if from.core.peak > 0.0 then from.core.peak else equity)
                     && to.core.dayStart == (if from.core.dayStart > 0.0 then from.core.dayStart else equity)
                     && to.core.weekStart == (if from.core.weekStart > 0.0 then from.core.weekStart else equity)
                     && to.core.monthStart == (if from.core.monthStart > 0.0 then from.core.monthStart else equity))
               && to == from.(halted := to.halted, reason := to.reason,
                              core := from.core.(peak := to.core.peak, dayStart := to.core.dayStart,
                                                 weekStart := to.core.weekStart, monthStart := to.core.monthStart))
  {
  }

  ghost predicate Captured(c: Core) {
    c.peak > 0.0 && c.dayStart > 0.0 && c.weekStart > 0.0 && c.monthStart > 0.0
  }

  predicate OnlyRestarts(es: seq<Event>) {
    forall e :: e in es ==> e.Crash? || e.Restart?
  }

  /** The file holds this memory's state, halted or not. */
  ghost predicate Holds(f: File, m: Memory) {
    exists now :: Same(now, m) && f == Stored(ToSaved(now, []))
  }

  /** Everything but the halt is the same. */
  ghost predicate Same(a: Memory, m: Memory) {
    WellKept(a) && a.(halted := m.halted, reason := m.reason) == m
  }

  /** A crash loop forgets nothing: after any number of crashes and restarts the agent has
      the last saved budgets, peak, counters, marks and metadata, in their normal form. */
  lemma {:induction false} CrashLoopForgetsNothing(w: World, m: Memory, es: seq<Event>)
    requires WellKept(m) && NormalMemory(m) == m && Captured(m.core)
    requires Holds(w.file, m) && (w.mem.Some? ==> Same(w.mem.value, m)) && OnlyRestarts(es)
    ensures Holds(Run(w, es).file, m)
    ensures Run(w, es).mem.Some? ==> Same(Run(w, es).mem.value, m)
    decreases |es|
  {
    if es != [] {
      assert es[0] in es && forall e :: e in es[1..] ==> e in es;
      if es[0].Restart? {
        RestartForgetsNothing(w, m, es[0].boot);
      }
      CrashLoopForgetsNothing(Next(w, es[0]), m, es[1..]);
    }
  }

  lemma {:induction false} HaltKeepsTheRest(k: Kept, m: Memory, why: string)
    requires Same(k.mem, m) && Holds(k.file, m)
    ensures Same(Halted(k, why).mem, m) && Holds(Halted(k, why).file, m)
  {
    if !k.mem.halted {
      assert Same(k.mem.(halted := true, reason := why), m);
    }
  }

  lemma {:induction false} RestartForgetsNothing(w: World, m: Memory, boot: Boot)
    requires WellKept(m) && NormalMemory(m) == m && Captured(m.core) && Holds(w.file, m)
    ensures var l := Started(w.file, w.journal, boot);
            Holds(l.file, m) && (l.mem.Some? ==> Same(l.mem.value, m))
  {
    var now :| Same(now, m) && w.file == Stored(ToSaved(now, []));
    StateRoundTrip(now);
    var k := Kept(Loaded(w.file).value, w.file);
    assert k.mem == NormalMemory(now);
    assert NormalMemory(now).(halted := m.halted, reason := m.reason) == NormalMemory(m);
    assert Same(k.mem, m);
    HaltKeepsTheRest(k, m, JOURNAL_REASON);
    HaltKeepsTheRest(k, m, REPLAY_REASON);
    var k' := Replayed(k, w.journal, boot);
    HaltKeepsTheRest(k', m, RECONCILE_REASON);
    var k'' := Reconciled(k', boot);
    if boot.account.Some? {
      assert Baselined(k''.mem.core, true, boot.account.value.0, boot.account.value.1) == m.core;
    }
  }

  // ---------------------------------------------------------------------
  // An unreadable state
  // ---------------------------------------------------------------------

  /** An unreadable file survives a start, to be restored from a backup, exactly when the
      account did not read and the start raised; otherwise the agent comes up halted and
      the file now holds a fresh state whose peak is the balance of that moment. */
  lemma {:induction false} UnreadableSurvivesIff(file: File, journal: seq<Record>, boot: Boot)
    requires file.Unreadable?
    ensures var l := Started(file, journal, boot);
            && (l.file.Unreadable? <==> boot.account.None?)
            && (l.mem.None? <==> boot.account.None?)
            && (boot.account.Some? ==>
                  && l.mem.value.halted && l.mem.value.core.peak == boot.account.value.0
                  && l.file == Stored(ToSaved(l.mem.value, [])))
  {
  }

  /** After a resume no restart can tell that a state was ever lost: the agent and its file
      are those of an agent started for the first time on that account. */
  lemma {:induction false} ResumedLooksNew(w: World, boot: Boot, first: Boot)
    requires w.file.Unreadable? && boot.account.Some? && first.account == boot.account
    requires first.journalReads && !first.mustHalt && Unterminated(w.journal) <= first.known
    ensures Next(Next(w, Restart(boot)), Resume) == Next(w.(mem := None, file := Missing), Restart(first))
  {
  }

  /** The first start of a run whose account reads. */
  function FirstAccount(es: seq<Event>): Option<(real, real)> {
    if es == [] then None
    else if es[0].Restart? && es[0].boot.account.Some? then es[0].boot.account
    else FirstAccount(es[1..])
  }

  predicate NoWork(es: seq<Event>) {
    forall e :: e in es ==> e.Crash? || e.Restart? || e.Resume?
  }

  /** The file holds this peak, and so does the agent if it is up. */
  predicate PeakIs(w: World, peak: real) {
    && w.file.Stored? && w.file.saved.core.peak == peak
    && (w.mem.Some? ==> w.mem.value.core.peak == peak)
  }

  lemma {:induction false} PeakLasts(w: World, es: seq<Event>, peak: real)
    requires PeakIs(w, peak) && peak > 0.0 && NoWork(es)
    ensures PeakIs(Run(w, es), peak)
    decreases |es|
  {
    if es != [] {
      assert es[0] in es && forall e :: e in es[1..] ==> e in es;
      PeakStep(w, es[0], peak);
      PeakLasts(Next(w, es[0]), es[1..], peak);
    }
  }

  lemma {:induction false} PeakStep(w: World, e: Event, peak: real)
    requires PeakIs(w, peak) && peak > 0.0 && (e.Crash? || e.Restart? || e.Resume?)
    ensures PeakIs(Next(w, e), peak)
  {
    if e.Restart? && Loaded(w.file).Some? {
      StartKeepsPeak(w.file, w.journal, e.boot, peak);
    }
  }

  lemma {:induction false} StartKeepsPeak(file: File, journal: seq<Record>, boot: Boot, peak: real)
    requires Loaded(file).Some? && KeptPeakIs(Kept(Loaded(file).value, file), peak) && peak > 0.0
    ensures var l := Started(file, journal, boot);
            PeakIs(World(l.mem, l.file, journal), peak)
  {
    var k := Kept(Loaded(file).value, file);
    ReplayKeepsPeak(k, journal, boot, peak);
    HaltKeepsPeak(Replayed(k, journal, boot), RECONCILE_REASON, peak);
  }

  lemma {:induction false} ReplayKeepsPeak(k: Kept, journal: seq<Record>, boot: Boot, peak: real)
    requires KeptPeakIs(k, peak)
    ensures KeptPeakIs(Replayed(k, journal, boot), peak)
  {
    HaltKeepsPeak(k, JOURNAL_REASON, peak);
    HaltKeepsPeak(k, REPLAY_REASON, peak);
  }

  predicate KeptPeakIs(k: Kept, peak: real) {
    k.mem.core.peak == peak && k.file.Stored? && k.file.saved.core.peak == peak
  }

  lemma {:induction false} HaltKeepsPeak(k: Kept, reason: string, peak: real)
    requires KeptPeakIs(k, peak)
    ensures KeptPeakIs(Halted(k, reason), peak)
  {
  }

  /** Over any crashes, restarts and resumes from an unreadable file: it stays unreadable
      and no agent comes up until an account first reads, and from that start on the peak
      is the balance of that account, whatever the peak was before. */
  lemma {:induction false} UnreadablePeakOverRuns(w: World, es: seq<Event>)
    requires w.file.Unreadable? && w.mem.None? && NoWork(es)
    requires FirstAccount(es).Some? ==> FirstAccount(es).value.0 > 0.0
    ensures Run(w, es).file.Unreadable? <==> FirstAccount(es).None?
    ensures FirstAccount(es).None? ==> Run(w, es).mem.None?
    ensures FirstAccount(es).Some? ==> PeakIs(Run(w, es), FirstAccount(es).value.0)
    decreases |es|
  {
    if es != [] {
      var next := Next(w, es[0]);
      assert es[0] in es && forall e :: e in es[1..] ==> e in es;
      if es[0].Restart? && es[0].boot.account.Some? {
        UnreadableSurvivesIff(w.file, w.journal, es[0].boot);
        PeakLasts(next, es[1..], FirstAccount(es).value.0);
      } else {
        UnreadablePeakOverRuns(next, es[1..]);
      }
    }
  }
}
