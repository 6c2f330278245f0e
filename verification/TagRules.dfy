/** The guard's whole outcome written out, and the key that the next insert gets. */
module TagRules {
  import opened Text
  import opened Maximum
  import opened TagSequence

  /** s is one past the highest of the frozen ids and the rows. */
  ghost predicate OnePast(s: nat, frozen: set<nat>, rows: map<nat, string>) {
    && s >= 1 && (s - 1 in frozen || s - 1 in rows)
    && (forall id <- frozen :: id < s) && forall pk <- rows :: pk < s
  }

  lemma SentinelIsOnePast(st: State, frozen: set<nat>)
    requires frozen != {}
    ensures forall s: nat :: OnePast(s, frozen, st.rows) <==> s == Sentinel(st, frozen)
  {
    NothingAboveMax(st, frozen);
    var top := Sentinel(st, frozen);
    assert OnePast(top, frozen, st.rows) by {
      if st.rows != map[] { assert MaxPk(st.rows) in st.rows.Keys; }
    }
    forall s: nat | OnePast(s, frozen, st.rows) ensures s == top {
      assert s - 1 < top && top - 1 < s;
    }
  }

  /** How the guard ends: with the insert's exception first, the reset's next, the cleanup's last. */
  ghost predicate WrittenOutcome(st: State, name: string, faults: Faults, outcome: Outcome) {
    var createRaises := faults.create || name in st.rows.Values;
    && (outcome == RaisedByCreate <==> createRaises)
    && (outcome == RaisedByReset <==> !createRaises && faults.reset)
    && (outcome == RaisedByDelete <==> !createRaises && !faults.reset && faults.delete)
    && (outcome == Done <==> !createRaises && !faults.reset && !faults.delete)
  }

  /** What it leaves behind, for the sentinel s. */
  ghost predicate WrittenGuard(st: State, name: string, faults: Faults, s: nat, after: State) {
    var created := !faults.create && name !in st.rows.Values;
    && after.backend == st.backend
    && after.rows == (if created && faults.delete then st.rows[s := name] else st.rows)
    && after.counter == (if !created then st.counter
                         else if st.backend == Sqlite then (if st.counter >= s then st.counter else s)
                         else if faults.reset then st.counter
                         else s + 1)
  }

  /** The guard's end and effect, for every table and every combination of failing calls. */
  lemma GuardWritten(st: State, frozen: set<nat>, name: string, faults: Faults, s: nat)
    requires frozen != {} && OnePast(s, frozen, st.rows)
    ensures WrittenOutcome(st, name, faults, Guard(st, frozen, name, faults).1)
    ensures WrittenGuard(st, name, faults, s, Guard(st, frozen, name, faults).0)
  {
    hide OnePast, MaxOf, Sentinel;
    SentinelIsOnePast(st, frozen);
    assert s !in st.rows by { OnePastIsFree(s, frozen, st.rows); }
    if name !in st.rows.Values {
      SentinelRow(st, frozen, name);
      assert st.rows[s := name] - {s} == st.rows;
    }
  }

  lemma OnePastIsFree(s: nat, frozen: set<nat>, rows: map<nat, string>)
    requires OnePast(s, frozen, rows)
    ensures s !in rows
  {
  }

  /** The key that the next automatic insert is given. */
  ghost predicate WrittenNext(st: State, key: nat) {
    match st.backend
    case Postgres => key == st.counter
    case Sqlite => key >= 1 && key - 1 >= st.counter && (forall pk <- st.rows :: pk < key)
                   && (key - 1 == st.counter || key - 1 in st.rows)
  }

  lemma NextWritten(st: State)
    ensures WrittenNext(st, NextAuto(st))
  {
    if st.rows != map[] {
      assert MaxPk(st.rows) in st.rows.Keys;
      forall pk <- st.rows ensures pk <= MaxPk(st.rows) { assert pk in st.rows.Keys; }
    }
  }

  /** An automatic insert is refused only for a taken key or name; PostgreSQL uses the key up either
      way, SQLite only when the row is inserted. */
  lemma InsertWritten(st: State, name: string)
    ensures var (after, inserted), key := AutoInsert(st, name), NextAuto(st);
            && inserted == (if key in st.rows || name in st.rows.Values then None else Some(key))
            && after.backend == st.backend
            && after.rows == (if inserted.Some? then st.rows[key := name] else st.rows)
            && NextAuto(after) == (if st.backend == Postgres || inserted.Some? then key + 1 else key)
  {
    NextWritten(st);
    var after := AutoInsert(st, name).0;
    NextWritten(after);
  }

  /** An insert with an explicit key is refused for a taken key or name; PostgreSQL's sequence does not
      notice it, SQLite's next key is past it. */
  lemma ExplicitWritten(st: State, pk: nat, name: string)
    ensures var after := ExplicitInsert(st, pk, name);
            && after.backend == st.backend
            && after.rows == (if pk in st.rows || name in st.rows.Values then st.rows else st.rows[pk := name])
            && (st.backend == Postgres ==> NextAuto(after) == NextAuto(st))
            && (st.backend == Sqlite ==>
                  NextAuto(after) == if after.rows == st.rows || pk < NextAuto(st) then NextAuto(st) else pk + 1)
  {
    var after := ExplicitInsert(st, pk, name);
    NextWritten(st);
    NextWritten(after);
    if after.rows != st.rows && st.backend == Sqlite {
      assert forall q :: q in after.rows <==> q in st.rows || q == pk;
      var key, key' := NextAuto(st), NextAuto(after);
      assert key' > pk && key' - 1 >= st.counter;
      if key' - 1 in st.rows { assert key' - 1 < key; }
      if key - 1 in st.rows { assert key - 1 < key'; }
    }
  }

  /** The sequence reset continues after the last row on PostgreSQL, with 1 in an empty table, and does
      nothing on SQLite. */
  lemma ResetWritten(st: State)
    ensures var after := SequenceReset(st);
            && after.rows == st.rows && after.backend == st.backend
            && (st.backend == Sqlite ==> after == st)
            && (st.backend == Postgres ==>
                  && (forall pk <- st.rows :: pk < NextAuto(after))
                  && (NextAuto(after) == 1 || NextAuto(after) - 1 in st.rows))
  {
  }

  /** Before a guarded test the generator starts over; without the guard it would hand out 1 again on
      PostgreSQL, and on SQLite the key after the last row. */
  lemma OriginalResetRewinds(st: State, frozen: set<nat>, name: string, faults: Faults)
    requires frozen != {}
    ensures var (after, outcome) := RunHook(Original, st, true, frozen, name, faults);
            && outcome == Done && after.rows == st.rows && after.backend == st.backend
            && NextAuto(after) == (if st.backend == Postgres then 1 else MaxPk(st.rows) + 1)
    ensures RunHook(Original, st, false, frozen, name, faults) == (st, Done)
  {
  }
}
