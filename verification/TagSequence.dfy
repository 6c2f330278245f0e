/** Auto-assigned Tag primary keys and the guard that keeps them above the frozen historical
    ids, on a database whose sequence is reset to MAX(pk) (PostgreSQL) and on one whose
    autoincrement counter never rewinds on delete (SQLite). */
module TagSequence {
  import opened Text
  import opened Maximum

  datatype Backend = Postgres | Sqlite

  /** The Tag table and its key generator. On PostgreSQL `counter` is the next value of the
      sequence; on SQLite it is the table's entry in `sqlite_sequence`. */
  datatype State = State(backend: Backend, rows: map<nat, string>, counter: nat)

  /** `order_by("-pk").first() or 0`. */
  function MaxPk(rows: map<nat, string>): nat {
    if rows == map[] then 0 else MaxOf(rows.Keys)
  }

  /** The key the next automatic insert is given. */
  function NextAuto(st: State): nat {
    match st.backend
    case Postgres => st.counter
    case Sqlite => Max(st.counter, MaxPk(st.rows)) + 1
  }

  // ---------------------------------------------------------------- single operations

  /** An insert without a key. A sequence value is used up even if the insert is refused. */
  function AutoInsert(st: State, name: string): (State, Option<nat>) {
    var pk := NextAuto(st);
    var ok := pk !in st.rows && name !in st.rows.Values;
    match st.backend
    case Postgres =>
      (State(st.backend, if ok then st.rows[pk := name] else st.rows, st.counter + 1), if ok then Some(pk) else None)
    case Sqlite =>
      if ok then (State(st.backend, st.rows[pk := name], pk), Some(pk)) else (st, None)
  }

  /** An insert with an explicit key; only SQLite's counter notices it. */
  function ExplicitInsert(st: State, pk: nat, name: string): State {
    if pk in st.rows || name in st.rows.Values then st
    else State(st.backend, st.rows[pk := name], if st.backend.Sqlite? then Max(st.counter, pk) else st.counter)
  }

  function Delete(st: State, pk: nat): State { st.(rows := st.rows - {pk}) }

  /** Django's own sequence reset before a test: start again at 1. */
  function RawReset(st: State): State {
    st.(counter := if st.backend.Postgres? then 1 else 0)
  }

  /** `sequence_reset_sql`: continue after MAX(pk) on PostgreSQL, nothing on SQLite. */
  function SequenceReset(st: State): State {
    if st.backend.Postgres? then st.(counter := if st.rows == map[] then 1 else MaxOf(st.rows.Keys) + 1) else st
  }

  // ---------------------------------------------------------------- the guard

  /** Which of the guard's database calls raise. */
  datatype Faults = Faults(create: bool, reset: bool, delete: bool)

  /** How the guard ends: normally or with the exception of one of its calls. */
  datatype Outcome = Done | RaisedByCreate | RaisedByReset | RaisedByDelete

  function Sentinel(st: State, frozen: set<nat>): nat
    requires frozen != {}
  {
    Max(MaxOf(frozen), MaxPk(st.rows)) + 1
  }

  predicate CreateRaises(st: State, frozen: set<nat>, name: string, faults: Faults)
    requires frozen != {}
  {
    faults.create || Sentinel(st, frozen) in st.rows || name in st.rows.Values
  }

  /** The table and counter after the guard's insert and sequence reset, before its cleanup. */
  function Advanced(st: State, frozen: set<nat>, name: string, faults: Faults): State
    requires frozen != {}
  {
    var inserted := ExplicitInsert(st, Sentinel(st, frozen), name);
    if faults.reset then inserted else SequenceReset(inserted)
  }

  /** `ensure_tag_pk_sequence_past_historical_ids`. */
  function Guard(st: State, frozen: set<nat>, name: string, faults: Faults): (State, Outcome)
    requires frozen != {}
  {
    if CreateRaises(st, frozen, name, faults) then (st, RaisedByCreate)
    else
      var advanced := Advanced(st, frozen, name, faults);
      var cleaned := if faults.delete then advanced else Delete(advanced, Sentinel(st, frozen));
      (cleaned, if faults.reset then RaisedByReset else if faults.delete then RaisedByDelete else Done)
  }

  // ---------------------------------------------------------------- the guard as the program runs it

  class TagTable {
    const backend: Backend
    var rows: map<nat, string>
    var counter: nat

    function Value(): State
      reads this
    {
      State(backend, rows, counter)
    }

    constructor (backend: Backend)
      ensures Value() == State(backend, map[], if backend.Postgres? then 1 else 0)
    {
      this.backend := backend;
      rows := map[];
      counter := if backend.Postgres? then 1 else 0;
    }

    /** `manager.create(pk=…, name=…)`; reports whether it raised. */
    method Create(pk: nat, name: string, fault: bool) returns (raised: bool)
      modifies this
      ensures raised == (fault || pk in old(rows) || name in old(rows).Values)
      ensures Value() == if raised then old(Value()) else ExplicitInsert(old(Value()), pk, name)
    {
      if fault || pk in rows || name in rows.Values { return true; }
      if backend.Sqlite? { counter := Max(counter, pk); }
      rows := rows[pk := name];
      return false;
    }

    method ResetSequence(fault: bool) returns (raised: bool)
      modifies this
      ensures raised == fault
      ensures Value() == if fault then old(Value()) else SequenceReset(old(Value()))
    {
      if fault { return true; }
      if backend.Postgres? { counter := if rows == map[] then 1 else MaxOf(rows.Keys) + 1; }
      return false;
    }

    /** `manager.filter(pk=…, name=…).delete()`. */
    method DeleteNamed(pk: nat, name: string, fault: bool) returns (raised: bool)
      modifies this
      ensures raised == fault
      ensures Value() == if !fault && pk in old(rows) && old(rows)[pk] == name
                         then Delete(old(Value()), pk) else old(Value())
    {
      if fault { return true; }
      if pk in rows && rows[pk] == name { rows := rows - {pk}; }
      return false;
    }

    /** The guard: sentinel insert, sequence reset, cleanup in `finally`. A cleanup failure
        never hides an earlier exception. */
    method EnsurePastHistoricalIds(frozen: set<nat>, name: string, faults: Faults) returns (outcome: Outcome)
      requires frozen != {}
      modifies this
      ensures (Value(), outcome) == Guard(old(Value()), frozen, name, faults)
    {
      var frozenMax := MaxOf(frozen);
      var currentMax := MaxPk(rows);
      var sentinel := Max(frozenMax, currentMax) + 1;
      var occupied := set pk | pk in rows && pk >= sentinel;
      var chosen := FirstFree(occupied, sentinel);
      NothingAboveMax(Value(), frozen);
      assert sentinel !in occupied && chosen == sentinel;
      sentinel := chosen;

      outcome := Done;
      var createRaised := Create(sentinel, name, faults.create);
      if createRaised { return RaisedByCreate; }
      var resetRaised := ResetSequence(faults.reset);
      if resetRaised { outcome := RaisedByReset; }
      var deleteRaised := DeleteNamed(sentinel, name, faults.delete);
      if deleteRaised && !resetRaised { outcome := RaisedByDelete; }
    }
  }

  /** `TransactionTestCase._reset_sequences`: Django's own, or wrapped by the marked guard. */
  datatype Hook = Original | Guarded(inner: Hook)

  /** What the hook does to the Tag table when it runs for a database alias. */
  function RunHook(hook: Hook, st: State, tagAlias: bool, frozen: set<nat>, name: string, faults: Faults)
    : (State, Outcome)
    requires frozen != {}
  {
    match hook
    case Original => (if tagAlias then RawReset(st) else st, Done)
    case Guarded(inner) =>
      var (after, outcome) := RunHook(inner, st, tagAlias, frozen, name, faults);
      if !outcome.Done? || !tagAlias then (after, outcome) else Guard(after, frozen, name, faults)
  }

  class TransactionTestCase {
    var hook: Hook

    constructor ()
      ensures hook == Original
    {
      hook := Original;
    }

    /** `_install_transaction_testcase_tag_pk_guard`: the mark makes it idempotent. */
    method Install()
      modifies this
      ensures hook == Installed(old(hook))
    {
      if hook.Guarded? { return; }
      hook := Guarded(hook);
    }

    /** The wrapped `_reset_sequences`, or Django's own before installation. */
    method ResetSequences(tags: TagTable, tagAlias: bool, frozen: set<nat>, name: string, faults: Faults)
      returns (outcome: Outcome)
      requires frozen != {} && (hook == Original || hook == Guarded(Original))
      modifies tags
      ensures (tags.Value(), outcome) == RunHook(hook, old(tags.Value()), tagAlias, frozen, name, faults)
    {
      if tagAlias { tags.counter := if tags.backend.Postgres? then 1 else 0; }
      outcome := Done;
      if hook.Original? || !tagAlias { return; }
      outcome := tags.EnsurePastHistoricalIds(frozen, name, faults);
    }
  }

  function Installed(hook: Hook): Hook {
    if hook.Guarded? then hook else Guarded(hook)
  }

  function InstalledTimes(n: nat): Hook {
    if n == 0 then Original else Installed(InstalledTimes(n - 1))
  }

  /** However often it is installed, the guard wraps Django's reset once: a reset runs
      Django's own and then the guard, one time. */
  lemma {:induction false} InstallIsIdempotent(n: nat, st: State, frozen: set<nat>, name: string, faults: Faults)
    requires n > 0 && frozen != {}
    ensures InstalledTimes(n) == Guarded(Original)
    ensures RunHook(InstalledTimes(n), st, true, frozen, name, faults) == Guard(RawReset(st), frozen, name, faults)
    ensures RunHook(InstalledTimes(n), st, false, frozen, name, faults) == (st, Done)
  {
    hide Guard;
    if n > 1 { InstallIsIdempotent(n - 1, st, frozen, name, faults); }
  }

  /** The sentinel search: the first key from start on that is not occupied. */
  method FirstFree(occupied: set<nat>, start: nat) returns (pk: nat)
    ensures pk >= start && pk !in occupied
    ensures forall k :: start <= k < pk ==> k in occupied
  {
    pk := start;
    ghost var remaining := occupied;
    while pk in occupied
      invariant pk >= start
      invariant forall k :: start <= k < pk ==> k in occupied
      invariant forall k :: k in occupied && k >= pk ==> k in remaining
      decreases remaining
    {
      remaining := remaining - {pk};
      pk := pk + 1;
    }
  }

  /** No row sits at or above the sentinel, so it is never an occupied key. */
  lemma NothingAboveMax(st: State, frozen: set<nat>)
    requires frozen != {}
    ensures forall pk <- st.rows :: pk < Sentinel(st, frozen)
    ensures forall pk <- frozen :: pk < Sentinel(st, frozen)
  {
    if st.rows != map[] {
      forall pk <- st.rows ensures pk <= MaxPk(st.rows) { assert pk in st.rows.Keys; }
    }
  }

  // ---------------------------------------------------------------- the guard leaves the rows alone

  /** On every exit, normal or exceptional, the rows are those before the call, unless the
      sentinel was created and its cleanup failed; then the sentinel is the only extra row. */
  lemma GuardKeepsRows(st: State, frozen: set<nat>, name: string, faults: Faults)
    requires frozen != {}
    ensures var rows := Guard(st, frozen, name, faults).0.rows;
            && (rows == st.rows <==> CreateRaises(st, frozen, name, faults) || !faults.delete)
            && (rows != st.rows ==> rows == st.rows[Sentinel(st, frozen) := name])
    ensures Sentinel(st, frozen) !in st.rows
    ensures Guard(st, frozen, name, faults).1.Done? ==> Guard(st, frozen, name, faults).0.rows == st.rows
  {
    hide MaxOf, SequenceReset;
    NothingAboveMax(st, frozen);
    ResetKeepsRows(ExplicitInsert(st, Sentinel(st, frozen), name));
    var s := Sentinel(st, frozen);
    assert st.rows[s := name] - {s} == st.rows;
    assert s in st.rows[s := name];
  }

  lemma ResetKeepsRows(st: State)
    ensures SequenceReset(st).rows == st.rows && SequenceReset(st).backend == st.backend
  {
  }

  // ---------------------------------------------------------------- when the guard has taken effect

  /** The key generator itself is past every frozen historical id, whatever rows there are. */
  ghost predicate Safe(st: State, frozen: set<nat>)
    requires frozen != {}
  {
    st.counter >= MaxOf(frozen) + if st.backend.Postgres? then 1 else 0
  }

  /** The guard got far enough to move the key generator. */
  predicate Advances(st: State, frozen: set<nat>, name: string, faults: Faults)
    requires frozen != {}
  {
    !CreateRaises(st, frozen, name, faults) && (st.backend.Sqlite? || !faults.reset)
  }

  lemma SentinelRow(st: State, frozen: set<nat>, name: string)
    requires frozen != {} && name !in st.rows.Values
    ensures var st' := ExplicitInsert(st, Sentinel(st, frozen), name);
            && st'.rows == st.rows[Sentinel(st, frozen) := name]
            && MaxOf(st'.rows.Keys) == Sentinel(st, frozen)
  {
    NothingAboveMax(st, frozen);
    var rows := st.rows[Sentinel(st, frozen) := name];
    assert Sentinel(st, frozen) in rows.Keys;
  }

  /** Once advanced, the next key lies beyond the sentinel, hence beyond the frozen ids and
      beyond every row, whether or not the sentinel was cleaned up. */
  lemma AdvancedIsSafe(st: State, frozen: set<nat>, name: string, faults: Faults)
    requires frozen != {} && Advances(st, frozen, name, faults)
    ensures var st' := Guard(st, frozen, name, faults).0;
            Safe(st', frozen) && Fresh(st') && NextAuto(st') > Sentinel(st, frozen)
  {
    NothingAboveMax(st, frozen);
    SentinelRow(st, frozen, name);
    GuardKeepsRows(st, frozen, name, faults);
    var st' := Guard(st, frozen, name, faults).0;
    assert st'.counter >= Sentinel(st, frozen);
    forall pk <- st'.rows ensures pk <= Sentinel(st, frozen) {}
  }

  /** No row has the next key or a later one. */
  ghost predicate Fresh(st: State) {
    forall pk <- st.rows :: pk < NextAuto(st)
  }

  lemma NoAdvanceNoChange(st: State, frozen: set<nat>, name: string, faults: Faults)
    requires frozen != {} && !Advances(st, frozen, name, faults)
    ensures var st' := Guard(st, frozen, name, faults).0;
            st'.counter == st.counter && st'.backend == st.backend &&
            (st.backend.Sqlite? ==> st' == st)
  {
    hide MaxOf;
  }

  /** A wrapped reset leaves the generator past the frozen ids exactly when its guard got far
      enough to move it. */
  lemma WrappedResetSafeIff(st: State, frozen: set<nat>, name: string, faults: Faults)
    requires frozen != {} && MaxOf(frozen) >= 1
    ensures Safe(RunHook(Guarded(Original), st, true, frozen, name, faults).0, frozen) <==>
            Advances(RawReset(st), frozen, name, faults)
  {
    hide MaxOf, Advances, Guard;
    var raw := RawReset(st);
    if Advances(raw, frozen, name, faults) {
      AdvancedIsSafe(raw, frozen, name, faults);
    } else {
      NoAdvanceNoChange(raw, frozen, name, faults);
    }
  }

  const HISTORY: set<nat> := {1, 2, 3}

  /** An empty table on a generator that was past the historical ids. */
  function PastHistory(backend: Backend): State { State(backend, map[], 4) }

  /** If the guard's insert fails inside a wrapped reset, the next automatic insert is given a
      historical id, on either back end. */
  lemma StuckResetReusesHistory(backend: Backend, sentinel: string, name: string)
    ensures Safe(PastHistory(backend), HISTORY)
    ensures var (st, outcome) := RunHook(Guarded(Original), PastHistory(backend), true, HISTORY, sentinel,
                                         Faults(true, false, false));
            && outcome.RaisedByCreate? && !Safe(st, HISTORY)
            && AutoInsert(st, name).1 == Some(1) && 1 in HISTORY
  {
    var m := MaxOf(HISTORY);
    assert m in HISTORY && 3 in HISTORY;
    assert MaxPk(map[]) == 0;
  }

  // ---------------------------------------------------------------- every run

  datatype Event =
    | Auto(name: string)
    | Explicit(pk: nat, name: string)
    | Remove(pk: nat)
    | Ensure(name: string, faults: Faults)
    | Reset(tagAlias: bool, name: string, faults: Faults)

  /** One event under the installed hook; Auto also reports the key it assigned. */
  function Step(st: State, e: Event, frozen: set<nat>): (State, Option<nat>)
    requires frozen != {}
  {
    match e
    case Auto(name) => AutoInsert(st, name)
    case Explicit(pk, name) => (ExplicitInsert(st, pk, name), None)
    case Remove(pk) => (Delete(st, pk), None)
    case Ensure(name, faults) => (Guard(st, frozen, name, faults).0, None)
    case Reset(tagAlias, name, faults) =>
      (RunHook(Guarded(Original), st, tagAlias, frozen, name, faults).0, None)
  }

  function StateAt(st: State, events: seq<Event>, frozen: set<nat>, i: nat): State
    requires frozen != {} && i <= |events|
  {
    if i == 0 then st else Step(StateAt(st, events, frozen, i - 1), events[i - 1], frozen).0
  }

  /** No reset of the Tag database ends with its guard stuck before the generator moved. */
  ghost predicate ResetsAdvance(st: State, events: seq<Event>, frozen: set<nat>)
    requires frozen != {}
  {
    forall i :: 0 <= i < |events| && events[i].Reset? && events[i].tagAlias ==>
      Advances(RawReset(StateAt(st, events, frozen, i)), frozen, events[i].name, events[i].faults)
  }

  lemma StepKeepsSafe(st: State, e: Event, frozen: set<nat>)
    requires frozen != {} && Safe(st, frozen)
    requires e.Reset? && e.tagAlias ==> Advances(RawReset(st), frozen, e.name, e.faults)
    ensures Safe(Step(st, e, frozen).0, frozen)
    ensures Step(st, e, frozen).1.Some? ==>
              var pk := Step(st, e, frozen).1.value;
              pk !in st.rows && pk in Step(st, e, frozen).0.rows && forall id <- frozen :: pk > id
  {
    hide MaxOf, MaxPk, Guard, Advances, CreateRaises;
    match e
    case Auto(name) =>
    case Explicit(_, _) =>
    case Remove(_) =>
    case Ensure(name, faults) =>
      if Advances(st, frozen, name, faults) {
        AdvancedIsSafe(st, frozen, name, faults);
      } else {
        NoAdvanceNoChange(st, frozen, name, faults);
      }
    case Reset(tagAlias, name, faults) =>
      InstallIsIdempotent(1, st, frozen, name, faults);
      if tagAlias { AdvancedIsSafe(RawReset(st), frozen, name, faults); }
  }

  /** Over every run from a safe state, every automatically assigned key exceeds all frozen
      historical ids and was free, on both back ends, whatever is inserted, deleted, guarded
      or reset in between and however guard calls outside resets fail. */
  lemma {:induction false} AutoKeysAvoidHistory(st: State, events: seq<Event>, frozen: set<nat>, i: nat)
    requires frozen != {} && Safe(st, frozen) && ResetsAdvance(st, events, frozen) && i < |events|
    ensures Safe(StateAt(st, events, frozen, i), frozen)
    ensures var before := StateAt(st, events, frozen, i);
            var key := Step(before, events[i], frozen).1;
            key.Some? ==> key.value !in before.rows && forall id <- frozen :: key.value > id
  {
    hide Safe, Step, ResetsAdvance;
    if i > 0 {
      AutoKeysAvoidHistory(st, events, frozen, i - 1);
      ResetAdvanced(st, events, frozen, i - 1);
      StepKeepsSafe(StateAt(st, events, frozen, i - 1), events[i - 1], frozen);
    }
    ResetAdvanced(st, events, frozen, i);
    StepKeepsSafe(StateAt(st, events, frozen, i), events[i], frozen);
  }

  lemma ResetAdvanced(st: State, events: seq<Event>, frozen: set<nat>, i: nat)
    requires frozen != {} && ResetsAdvance(st, events, frozen) && i < |events|
    ensures events[i].Reset? && events[i].tagAlias ==>
              Advances(RawReset(StateAt(st, events, frozen, i)), frozen, events[i].name, events[i].faults)
  {
    hide Advances, RawReset;
  }

  ghost predicate SafeAt(st: State, events: seq<Event>, frozen: set<nat>, i: nat)
    requires frozen != {} && i <= |events|
  {
    Safe(StateAt(st, events, frozen, i), frozen)
  }

  /** Over every run from a safe state, the key generator is past the frozen ids at every moment
      if and only if no reset of the Tag database ends with its guard stuck. */
  lemma RunSafeIff(st: State, events: seq<Event>, frozen: set<nat>)
    requires frozen != {} && Safe(st, frozen) && MaxOf(frozen) >= 1
    ensures (forall i :: 0 <= i <= |events| ==> SafeAt(st, events, frozen, i)) <==> ResetsAdvance(st, events, frozen)
  {
    hide Safe, Step, Advances, RawReset, ResetsAdvance;
    if ResetsAdvance(st, events, frozen) {
      forall i | 0 <= i <= |events| ensures SafeAt(st, events, frozen, i) {
        if i > 0 {
          AutoKeysAvoidHistory(st, events, frozen, i - 1);
          ResetAdvanced(st, events, frozen, i - 1);
          StepKeepsSafe(StateAt(st, events, frozen, i - 1), events[i - 1], frozen);
        }
      }
    }
    if forall i :: 0 <= i <= |events| ==> SafeAt(st, events, frozen, i) { SafeRunAdvances(st, events, frozen); }
  }

  lemma SafeRunAdvances(st: State, events: seq<Event>, frozen: set<nat>)
    requires frozen != {} && MaxOf(frozen) >= 1
    requires forall i :: 0 <= i <= |events| ==> SafeAt(st, events, frozen, i)
    ensures ResetsAdvance(st, events, frozen)
  {
    hide Safe, Step, Advances, RawReset;
    forall i | 0 <= i < |events| && events[i].Reset? && events[i].tagAlias
      ensures Advances(RawReset(StateAt(st, events, frozen, i)), frozen, events[i].name, events[i].faults)
    {
      SafeResetAdvanced(StateAt(st, events, frozen, i), events[i], frozen);
      assert SafeAt(st, events, frozen, i + 1);
    }
  }

  lemma SafeResetAdvanced(st: State, e: Event, frozen: set<nat>)
    requires frozen != {} && MaxOf(frozen) >= 1 && e.Reset? && e.tagAlias
    ensures Safe(Step(st, e, frozen).0, frozen) <==> Advances(RawReset(st), frozen, e.name, e.faults)
  {
    hide Safe, Advances, RawReset, RunHook;
    WrappedResetSafeIff(st, frozen, e.name, e.faults);
  }

  // ---------------------------------------------------------------- no collisions

  /** An event that cannot plant a row at or beyond the next key: no explicit key, and no
      guard call that both fails to move the generator and fails to clean up. */
  ghost predicate Tidy(e: Event) {
    !e.Explicit? && (e.Ensure? ==> !(e.faults.reset && e.faults.delete))
  }

  lemma StuckGuardKeepsFresh(st: State, frozen: set<nat>, name: string, faults: Faults)
    requires frozen != {} && Fresh(st) && !Advances(st, frozen, name, faults)
    requires !(faults.reset && faults.delete)
    ensures Fresh(Guard(st, frozen, name, faults).0)
  {
    hide MaxOf;
    GuardKeepsRows(st, frozen, name, faults);
    NoAdvanceNoChange(st, frozen, name, faults);
  }

  lemma StepKeepsFresh(st: State, e: Event, frozen: set<nat>)
    requires frozen != {} && Fresh(st) && Tidy(e)
    requires e.Reset? && e.tagAlias ==> Advances(RawReset(st), frozen, e.name, e.faults)
    ensures Fresh(Step(st, e, frozen).0)
    ensures e.Auto? ==> (Step(st, e, frozen).1.Some? <==> e.name !in st.rows.Values)
  {
    hide Guard, Advances, CreateRaises;
    match e
    case Auto(name) =>
      assert NextAuto(st) !in st.rows;
    case Explicit(_, _) =>
    case Remove(pk) => RemoveKeepsFresh(st, pk);
    case Ensure(name, faults) =>
      if Advances(st, frozen, name, faults) {
        AdvancedIsSafe(st, frozen, name, faults);
      } else {
        StuckGuardKeepsFresh(st, frozen, name, faults);
      }
    case Reset(tagAlias, name, faults) =>
      InstallIsIdempotent(1, st, frozen, name, faults);
      if tagAlias { AdvancedIsSafe(RawReset(st), frozen, name, faults); }
  }

  lemma RemoveKeepsFresh(st: State, pk: nat)
    requires Fresh(st)
    ensures Fresh(Delete(st, pk))
  {
    var st' := Delete(st, pk);
    forall k <- st'.rows ensures k < NextAuto(st') { assert k in st'.rows.Keys; }
  }

  /** Over every run of tidy events from a fresh state, an automatic insert is refused only
      for a name that is taken, never for its key. */
  lemma {:induction false} AutoKeysNeverCollide(st: State, events: seq<Event>, frozen: set<nat>, i: nat)
    requires frozen != {} && Fresh(st) && ResetsAdvance(st, events, frozen) && i < |events|
    requires forall e <- events :: Tidy(e)
    ensures Fresh(StateAt(st, events, frozen, i))
    ensures events[i].Auto? ==>
              (Step(StateAt(st, events, frozen, i), events[i], frozen).1.Some? <==>
               events[i].name !in StateAt(st, events, frozen, i).rows.Values)
  {
    hide Fresh, Step, ResetsAdvance, Tidy;
    if i > 0 {
      AutoKeysNeverCollide(st, events, frozen, i - 1);
      ResetAdvanced(st, events, frozen, i - 1);
      assert events[i - 1] in events;
      StepKeepsFresh(StateAt(st, events, frozen, i - 1), events[i - 1], frozen);
    }
    ResetAdvanced(st, events, frozen, i);
    assert events[i] in events;
    StepKeepsFresh(StateAt(st, events, frozen, i), events[i], frozen);
  }
}
