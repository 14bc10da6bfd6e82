/** A database behind every reachable deployment: starting from empty tables, the store's own
    transactions take a consistent database along with every run in which attempt ids are fresh. */
module StoreRuns {
  import opened Domain
  import opened CycleTables
  import opened StoreView
  import opened StoreSteps
  import opened Protocol
  import opened ManyCycles
  import Audit
  import Store

  /** The schema's constraints and foreign keys. */
  ghost predicate Sane(db: Db) {
    Consistent(db) && NoticesOwned(db)
  }

  /** A new attempt id is not that of another cycle's attempt. */
  predicate FreshId(w: World, a: WorldAction) {
    a.Within? && a.a.ReserveSlot? ==>
      forall d | d in w.parts && d != a.cycle :: !IdTaken(w.parts[d].db.attempts, a.a.id)
  }

  ghost predicate FreshIds(w: World, actions: seq<WorldAction>)
    decreases |actions|
  {
    actions != [] && WorldEnabled(w, actions[0]) ==>
      FreshId(w, actions[0]) && FreshIds(WorldApply(w, actions[0]), actions[1..])
  }

  // ---------------------------------------------------------------------------------------
  // The database after each kind of step

  /** A transaction on an attempt changes that row and the cycle's, and neither's identity. */
  lemma PerformChangesTwoRows(t: Tables, i: nat, tx: Tx)
    requires i < |t.attempts|
    ensures var t' := Perform(t, i, tx).0;
            && |t'.attempts| == |t.attempts| && t' == SetAttempt(t, i, t'.attempts[i]).(cycle := t'.cycle)
            && SameIdentity(t.attempts[i], t'.attempts[i]) && t'.cycle.id == t.cycle.id
  {
    assert t.attempts[i := t.attempts[i]] == t.attempts;
  }

  lemma TxHasDb(db: Db, k: nat, tx: Tx) returns (db': Db, status: Status)
    requires Sane(db) && k < |db.attempts|
    ensures Sane(db') && Performs(db, db', db.attempts[k].id, tx, status)
  {
    var c, i := db.attempts[k].cycleId, Rank(db.attempts, k);
    RankFindsRow(db.attempts, k);
    var t := ViewOf(db, c);
    status := Perform(t, i, tx).1;
    var t' := Perform(t, i, tx).0;
    PerformChangesTwoRows(t, i, tx);
    db' := Updated(db, k, t'.attempts[i], t'.cycle);
    UpdatedIsConsistent(db, k, t'.attempts[i], t'.cycle);
    UpdatedViews(db, k, t'.attempts[i], t'.cycle);
    Store.PerformsByRow(db, db', k, tx, status);
  }

  lemma ReserveHasDb(db: Db, c: string, version: int, id: string, at: Time, deliverBy: Time)
    returns (db': Db, status: Status)
    requires Sane(db) && c in db.cycles
    ensures Sane(db') && Store.Reserves(db, db', c, version, id, at, deliverBy, status)
  {
    if db.cycles[c].version != version || db.cycles[c].attemptsUsed >= MAX_ATTEMPTS {
      db', status := db, Conflict;
      Store.ReservationRefused(db, c, version, id, at, deliverBy, Conflict);
    } else {
      db' := Store.AfterReservation(db, c, id, at, deliverBy);
      status := Store.InsertStatus(db.attempts, Store.NextAttempt(RowsOf(db.attempts, c), c, id, at));
      Store.ReservationEffect(db, c, id, at, deliverBy);
    }
  }

  /** Rewriting a cycle's own row, or its lease. */
  lemma RowsHaveDb(db: Db, c: string, row: Cycle, lease: Lease) returns (db': Db)
    requires Sane(db) && c in db.cycles && row.id == c
    ensures Sane(db') && OthersSame(db, db', c)
    ensures ViewOf(db', c) == ViewOf(db, c).(cycle := row, lease := lease)
  {
    db' := db.(cycles := db.cycles[c := row], leases := db.leases[c := lease]);
    assert db'.cycles.Keys == db.cycles.Keys && db'.leases.Keys == db.leases.Keys;
  }

  lemma DeliverHasDb(db: Db, id: string, at: Time) returns (db': Db)
    requires Sane(db)
    ensures Sane(db') && db'.cycles == db.cycles && db'.leases == db.leases
    ensures forall d | d in db.cycles :: ViewOf(db', d) == DeliverNotice(ViewOf(db, d), id, at).0
  {
    db' := db.(outbox := DeliverAll(db.outbox, id, at));
    Store.DeliveredViews(db, id, at);
  }

  // ---------------------------------------------------------------------------------------
  // The database after each step of a deployment

  lemma TxStepHasDb(db: Db, w: World, c: string, a: Action, tx: Tx) returns (db': Db)
    requires Sane(db) && Backs(db, w) && c in w.parts && Enabled(View(w, c), a) && TxOf(View(w, c), a) == Some(tx)
    ensures Sane(db') && WorldEnabled(w, Within(c, a)) && Backs(db', WorldApply(w, Within(c, a)))
  {
    var s := View(w, c);
    var i := s.procs[a.p].i;
    StepPerformsTx(s, a, i, tx);
    var k := RecordHasRow(db, w, c, i);
    var status;
    db', status := TxHasDb(db, k, tx);
    AttemptCallIsStep(db, db', w, c, a, k, tx, status);
  }

  lemma ReserveStepHasDb(db: Db, w: World, c: string, a: Action) returns (db': Db)
    requires Sane(db) && Backs(db, w) && WorldEnabled(w, Within(c, a)) && a.ReserveSlot? && FreshId(w, Within(c, a))
    ensures Sane(db') && Backs(db', WorldApply(w, Within(c, a)))
  {
    hide Store.Reserves, Consistent, NoticesOwned;
    var status;
    db', status := ReserveHasDb(db, c, w.parts[c].procs[a.p].version, a.id, a.scheduledFor, a.deliverBy);
    ReserveCallIsStep(db, db', w, c, a.p, a.id, a.scheduledFor, a.deliverBy, status);
    if status == Duplicate {
      TakenByItself(db, w, c, a.id);
    }
  }

  lemma TakenByItself(db: Db, w: World, c: string, id: string)
    requires Consistent(db) && Backs(db, w) && c in w.parts && Store.TakenAnywhere(db, id)
    requires forall d | d in w.parts && d != c :: !IdTaken(w.parts[d].db.attempts, id)
    ensures IdTaken(w.parts[c].db.attempts, id)
  {
    var k :| 0 <= k < |db.attempts| && db.attempts[k].id == id;
    RankFindsRow(db.attempts, k);
    var d := db.attempts[k].cycleId;
    assert w.parts[d].db.attempts[Rank(db.attempts, k)].id == id;
  }

  lemma RowStepHasDb(db: Db, w: World, c: string, a: Action) returns (db': Db)
    requires Sane(db) && Backs(db, w) && WorldEnabled(w, Within(c, a)) && (a.Acquire? || a.Hold? || a.Advance?)
    ensures Sane(db') && Backs(db', WorldApply(w, Within(c, a)))
  {
    var t := Apply(View(w, c), a).db;
    RowStepsKeepTheRest(View(w, c), a);
    assert db.cycles[c].id == c;
    db' := RowsHaveDb(db, c, t.cycle, t.lease);
    BackedStep(db, db', w, c, a);
  }

  lemma RowStepsKeepTheRest(s: Sys, a: Action)
    requires Enabled(s, a) && (a.Acquire? || a.Hold? || a.Advance?)
    ensures Apply(s, a).db == s.db.(cycle := Apply(s, a).db.cycle, lease := Apply(s, a).db.lease)
    ensures Apply(s, a).db.cycle.id == s.db.cycle.id
  {
  }

  lemma DeliverStepHasDb(db: Db, w: World, c: string, p: nat, at: Time) returns (db': Db)
    requires Sane(db) && Backs(db, w) && WorldInv(w) && WorldEnabled(w, Within(c, Deliver(p, at)))
    ensures Sane(db') && Backs(db', WorldApply(w, Within(c, Deliver(p, at))))
  {
    WorldRows(w);
    DeliveredInStep(db, w, c, p, at);
    db' := DeliverHasDb(db, w.parts[c].db.attempts[w.parts[c].procs[p].i].id, at);
    DeliverCallIsStep(db, db', w, c, p, at);
  }

  lemma DeliveredInStep(db: Db, w: World, c: string, p: nat, at: Time)
    requires WorldEnabled(w, Within(c, Deliver(p, at)))
    ensures c in w.parts && At(View(w, c), p) && View(w, c).procs[p].Noticing?
  {
  }

  lemma CreateStepHasDb(db: Db, w: World, a: WorldAction) returns (db': Db)
    requires Sane(db) && Backs(db, w) && WorldEnabled(w, a) && a.Create?
    ensures Sane(db') && Backs(db', WorldApply(w, a))
  {
    var row := Cycle(a.cycle, a.rail, a.amountPaise, a.dueDate, 0, Pending, 0);
    Store.NewCycleKeeps(db, row);
    db' := Store.WithCycle(db, row);
    CreateCallIsStep(db, db', w, row, a.procs);
  }

  /** The remaining steps write nothing to the tables. */
  predicate Writes(a: Action) {
    || a.AbandonStale? || a.AbandonMissing? || a.CancelNotice? || a.Mark? || a.RecordTimeout? || a.RecordReply?
    || a.Resolve? || a.ReserveSlot? || a.Acquire? || a.Hold? || a.Advance? || a.Deliver?
  }

  lemma OtherStepsKeepTables(s: Sys, a: Action)
    requires Enabled(s, a) && !Writes(a)
    ensures Apply(s, a).db == s.db
  {
  }

  lemma WithinStepHasDb(db: Db, w: World, c: string, a: Action) returns (db': Db)
    requires Sane(db) && Backs(db, w) && WorldInv(w) && WorldEnabled(w, Within(c, a)) && FreshId(w, Within(c, a))
    ensures Sane(db') && Backs(db', WorldApply(w, Within(c, a)))
  {
    hide WorldInv, Sane, Backs;
    var s := View(w, c);
    if TxOf(s, a).Some? {
      db' := TxStepHasDb(db, w, c, a, TxOf(s, a).value);
    } else if a.ReserveSlot? {
      db' := ReserveStepHasDb(db, w, c, a);
    } else if a.Acquire? || a.Hold? || a.Advance? {
      db' := RowStepHasDb(db, w, c, a);
    } else if a.Deliver? {
      db' := DeliverStepHasDb(db, w, c, a.p, a.at);
    } else {
      db' := db;
      ReadingStepHasDb(db, w, c, a);
    }
  }

  lemma ReadingStepHasDb(db: Db, w: World, c: string, a: Action)
    requires Backs(db, w) && WorldEnabled(w, Within(c, a)) && !Writes(a)
    ensures Backs(db, WorldApply(w, Within(c, a)))
  {
    OtherStepsKeepTables(View(w, c), a);
    BackedStep(db, db, w, c, a);
  }

  lemma SharedStepKeepsParts(w: World, a: WorldAction)
    requires WorldEnabled(w, a) && a.Shared?
    ensures WorldApply(w, a).parts == w.parts
  {
  }

  /** Every step of the deployment has a database behind it if the state before had one. */
  lemma StepHasDb(db: Db, w: World, a: WorldAction) returns (db': Db)
    requires Sane(db) && Backs(db, w) && WorldInv(w) && WorldEnabled(w, a) && FreshId(w, a)
    ensures Sane(db') && Backs(db', WorldApply(w, a))
  {
    if a.Create? {
      db' := CreateStepHasDb(db, w, a);
    } else if a.Within? {
      db' := WithinStepHasDb(db, w, a.cycle, a.a);
    } else {
      SharedStepKeepsParts(w, a);
      db' := db;
    }
  }

  lemma {:induction false} RunHasDb(db: Db, w: World, actions: seq<WorldAction>, v: World) returns (db': Db)
    requires Sane(db) && Backs(db, w) && WorldInv(w) && WorldRuns(w, actions, v) && FreshIds(w, actions)
    ensures Sane(db') && Backs(db', v)
    decreases |actions|
  {
    hide Sane, Backs, WorldInv;
    if actions == [] {
      db' := db;
    } else {
      var next := StepHasDb(db, w, actions[0]);
      StepKeepsWorldInv(w, actions[0]);
      db' := RunHasDb(next, WorldApply(w, actions[0]), actions[1..], v);
    }
  }

  const EMPTY_TABLES := Db(map[], [], map[], [])

  /** Behind every reachable state of the deployment there is a consistent database, and the audit
      queries find nothing in it. */
  lemma ReachableDatabaseIsClean(w: World, actions: seq<WorldAction>, v: World) returns (db: Db)
    requires WorldInit(w) && WorldRuns(w, actions, v) && FreshIds(w, actions)
    ensures Sane(db) && Backs(db, v)
    ensures Audit.DoubleDebits(db) == {} && Audit.BudgetExceeded(db) == {}
    ensures Audit.BudgetMismatch(db) == {} && Audit.MissingNotice(db) == {}
  {
    db := RunHasDb(EMPTY_TABLES, w, actions, v);
    Audit.NothingToReport(w, actions, v, db);
  }
}
