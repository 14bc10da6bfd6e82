/** The store's transactions are the protocol's steps. One database holds every cycle's rows; the
    protocol of a cycle works on its view. A store call, as its contract in module Store describes
    it, takes the database to one whose views are exactly those after the step, for the cycle of
    the call and for every other one. */
module StoreSteps {
  import opened Domain
  import opened CycleTables
  import opened StoreView
  import opened Protocol
  import opened ManyCycles
  import Invariant
  import Bank = DebitHandler
  import Store

  /** The database behind the world: each cycle's rows are its view. */
  ghost predicate Backs(db: Db, w: World) {
    && db.cycles.Keys == w.parts.Keys && db.leases.Keys == w.parts.Keys
    && forall c | c in w.parts :: w.parts[c].db == ViewOf(db, c)
  }

  /** The store transaction an action asks for on the attempt of its record. */
  function TxOf(s: Sys, a: Action): Option<Tx>
    requires Enabled(s, a)
  {
    match a
    case AbandonStale(_) => Some(AbandonTx)
    case AbandonMissing(_) => Some(AbandonTx)
    case CancelNotice(_) => Some(AbandonTx)
    case Mark(p) => Some(MarkTx(s.procs[p].fence, s.now))
    case RecordTimeout(_) => Some(RecordTx(Timeout, None))
    case RecordReply(_, h) => Some(RecordTx(s.bank.handlers[h].reply.outcome, s.bank.handlers[h].reply.code))
    case Resolve(p) => Some(if s.procs[p].outcome == Success then DebitedTx else NotDebitedTx)
    case _ => None
  }

  /** The action runs this transaction on the attempt at position i. */
  predicate AsksFor(s: Sys, a: Action, i: nat, tx: Tx) {
    Enabled(s, a) && TxOf(s, a) == Some(tx) && s.procs[a.p].i == i
  }

  /** A step that runs a transaction on an attempt changes the rows as the transaction says. */
  lemma StepPerformsTx(s: Sys, a: Action, i: nat, tx: Tx)
    requires AsksFor(s, a, i, tx)
    ensures !SharedAction(a) && !a.OtherRequest?
    ensures i < |s.db.attempts| && Apply(s, a).db == Perform(s.db, i, tx).0
  {
    hide Bank.Apply, Bank.Enabled;
  }

  /** Changing one cycle's view as its step does, and no other, keeps the database behind the world. */
  lemma BackedStep(db: Db, db': Db, w: World, c: string, a: Action)
    requires Backs(db, w) && WorldEnabled(w, Within(c, a))
    requires OthersSame(db, db', c) && ViewOf(db', c) == Apply(View(w, c), a).db
    ensures Backs(db', WorldApply(w, Within(c, a)))
  {
    hide Apply, Enabled;
  }

  /** MarkAttemptFired, RecordAttemptOutcome, AbandonAttempt, ResolveDebited, ResolveNotDebited. */
  lemma AttemptCallIsStep(db: Db, db': Db, w: World, c: string, a: Action, k: nat, tx: Tx, status: Status)
    requires Backs(db, w) && Consistent(db) && k < |db.attempts| && db.attempts[k].cycleId == c && c in w.parts
    requires AsksFor(View(w, c), a, Rank(db.attempts, k), tx)
    requires Performs(db, db', db.attempts[k].id, tx, status)
    ensures WorldEnabled(w, Within(c, a)) && Backs(db', WorldApply(w, Within(c, a)))
  {
    hide Apply, Enabled, Performs, PerformedAt, Perform, Consistent;
    StepPerformsTx(View(w, c), a, Rank(db.attempts, k), tx);
    PerformedThere(db, db', k, tx, status);
    BackedStep(db, db', w, c, a);
  }

  lemma PerformedThere(db: Db, db': Db, k: nat, tx: Tx, status: Status)
    requires Consistent(db) && k < |db.attempts| && Performs(db, db', db.attempts[k].id, tx, status)
    ensures var c, i := db.attempts[k].cycleId, Rank(db.attempts, k);
            && OthersSame(db, db', c)
            && c in db.cycles && c in db.leases && c in db'.cycles && c in db'.leases
            && i < |ViewOf(db, c).attempts|
            && ViewOf(db', c) == Perform(ViewOf(db, c), i, tx).0
  {
    assert PerformedAt(db, db', k, tx, status);
  }

  /** The record names its attempt by position; the row there has exactly one place in the table. */
  lemma RecordHasRow(db: Db, w: World, c: string, i: nat) returns (k: nat)
    requires Backs(db, w) && Consistent(db) && c in w.parts && i < |w.parts[c].db.attempts|
    ensures k < |db.attempts| && db.attempts[k] == w.parts[c].db.attempts[i]
    ensures db.attempts[k].cycleId == c && Rank(db.attempts, k) == i
    ensures forall l | 0 <= l < |db.attempts| && db.attempts[l].id == db.attempts[k].id :: l == k
  {
    k := RowsOfAreRows(db.attempts, c, i);
  }

  /** AcquireLease. */
  lemma LeaseCallIsStep(db: Db, db': Db, w: World, c: string, p: nat, holder: string, fence: Option<int>)
    requires Backs(db, w) && c in w.parts && At(View(w, c), p)
    requires w.parts[c].procs[p].Claimed? || w.parts[c].procs[p].Picked?
    requires OthersSame(db, db', c)
    requires var ttl := if w.parts[c].procs[p].Claimed? then WORKER_LEASE else RECONCILER_LEASE;
             (ViewOf(db', c), fence) == AcquireLease(ViewOf(db, c), holder, ttl, w.now)
    ensures WorldEnabled(w, Within(c, Acquire(p, holder))) && Backs(db', WorldApply(w, Within(c, Acquire(p, holder))))
  {
    BackedStep(db, db', w, c, Acquire(p, holder));
  }

  /** ReserveAttempt: the step, or, when some other cycle already has the attempt id, a refusal
      that changes nothing, as if the scheduler had stopped there. */
  lemma ReserveCallIsStep(db: Db, db': Db, w: World, c: string, p: nat, id: string, at: Time, deliverBy: Time,
                          status: Status)
    requires Backs(db, w) && Consistent(db) && c in w.parts && p in w.parts[c].procs && w.parts[c].procs[p].Coded?
    requires HasPlan(w.parts[c].procs[p].used, w.parts[c].procs[p].lastCode)
    requires Store.Reserves(db, db', c, w.parts[c].procs[p].version, id, at, deliverBy, status)
    ensures var a := if status == Duplicate && !IdTaken(w.parts[c].db.attempts, id) then Action.Crash(p)
                     else ReserveSlot(p, id, at, deliverBy);
            WorldEnabled(w, Within(c, a)) && Backs(db', WorldApply(w, Within(c, a)))
    ensures status == Duplicate ==> Store.TakenAnywhere(db, id)
  {
    hide Apply, Enabled, Consistent, Store.Reserves;
    var a := if status == Duplicate && !IdTaken(w.parts[c].db.attempts, id) then Action.Crash(p)
             else ReserveSlot(p, id, at, deliverBy);
    var version := w.parts[c].procs[p].version;
    ReservedRows(db, db', w.parts[c].db, c, version, id, at, deliverBy, status);
    if a.Crash? {
      BackedCrash(db, db', w, c, p);
    } else {
      BackedReservation(db, db', w, c, p, id, at, deliverBy);
    }
  }

  lemma BackedCrash(db: Db, db': Db, w: World, c: string, p: nat)
    requires Backs(db, w) && c in w.parts && p in w.parts[c].procs
    requires OthersSame(db, db', c) && ViewOf(db', c) == w.parts[c].db
    ensures WorldEnabled(w, Within(c, Action.Crash(p))) && Backs(db', WorldApply(w, Within(c, Action.Crash(p))))
  {
    BackedStep(db, db', w, c, Action.Crash(p));
  }

  lemma BackedReservation(db: Db, db': Db, w: World, c: string, p: nat, id: string, at: Time, deliverBy: Time)
    requires Backs(db, w) && c in w.parts && p in w.parts[c].procs && w.parts[c].procs[p].Coded?
    requires HasPlan(w.parts[c].procs[p].used, w.parts[c].procs[p].lastCode)
    requires OthersSame(db, db', c)
    requires ViewOf(db', c) == Reserve(w.parts[c].db, w.parts[c].procs[p].version, id, at, deliverBy).0
    ensures WorldEnabled(w, Within(c, ReserveSlot(p, id, at, deliverBy)))
    ensures Backs(db', WorldApply(w, Within(c, ReserveSlot(p, id, at, deliverBy))))
  {
    BackedStep(db, db', w, c, ReserveSlot(p, id, at, deliverBy));
  }

  lemma ReservedRows(db: Db, db': Db, t: Tables, c: string, version: int, id: string, at: Time, deliverBy: Time,
                     status: Status)
    requires Consistent(db) && c in db.cycles && t == ViewOf(db, c)
    requires Store.Reserves(db, db', c, version, id, at, deliverBy, status)
    ensures OthersSame(db, db', c)
    ensures ViewOf(db', c) == if status == Duplicate && !IdTaken(t.attempts, id) then t
                              else Reserve(t, version, id, at, deliverBy).0
    ensures status == Duplicate ==> Store.TakenAnywhere(db, id)
  {
    Store.IdTakenMeansTaken(db.attempts, c, id);
  }

  /** MarkCycleRecovered, HoldCycle and the other writes of the state column. */
  lemma StateCallIsStep(db: Db, db': Db, w: World, c: string, a: Action, state: State)
    requires Backs(db, w) && WorldEnabled(w, Within(c, a))
    requires (a.Hold? && state == Held) || (a.Advance? && AdvancedState(View(w, c).procs[a.p], a.class_) == Some(state))
    requires OthersSame(db, db', c) && ViewOf(db', c) == SetState(ViewOf(db, c), state)
    ensures Backs(db', WorldApply(w, Within(c, a)))
  {
    StateStepRows(View(w, c), a, state);
    hide Apply, Enabled, AdvancedState;
    BackedStep(db, db', w, c, a);
  }

  lemma StateStepRows(s: Sys, a: Action, state: State)
    requires Enabled(s, a)
    requires (a.Hold? && state == Held) || (a.Advance? && AdvancedState(s.procs[a.p], a.class_) == Some(state))
    ensures Apply(s, a).db == SetState(s.db, state)
  {
    hide Bank.Apply, Bank.Enabled;
  }

  /** MarkNoticeDeliveredAt runs over the whole outbox; only the attempt's own cycle has notices
      for it. */
  lemma DeliverCallIsStep(db: Db, db': Db, w: World, c: string, p: nat, at: Time)
    requires Backs(db, w) && Consistent(db) && c in w.parts && At(View(w, c), p) && View(w, c).procs[p].Noticing?
    requires forall d | d in w.parts :: NoticesFollowRows(w.parts[d].db)
    requires db'.cycles == db.cycles && db'.leases == db.leases
    requires var id := w.parts[c].db.attempts[w.parts[c].procs[p].i].id;
             forall d | d in db.cycles :: ViewOf(db', d) == DeliverNotice(ViewOf(db, d), id, at).0
    ensures WorldEnabled(w, Within(c, Deliver(p, at))) && Backs(db', WorldApply(w, Within(c, Deliver(p, at))))
  {
    hide Apply, Enabled, Consistent;
    var i := w.parts[c].procs[p].i;
    DeliverElsewhere(db, db', w, c, i, at);
    DeliverStep(View(w, c), p, at);
    BackedStep(db, db', w, c, Deliver(p, at));
  }

  lemma DeliverStep(s: Sys, p: nat, at: Time)
    requires At(s, p) && s.procs[p].Noticing?
    ensures Enabled(s, Deliver(p, at))
    ensures Apply(s, Deliver(p, at)).db == DeliverNotice(s.db, s.db.attempts[s.procs[p].i].id, at).0
  {
  }

  /** Each notice is for the attempt at its own position. */
  predicate NoticesFollowRows(t: Tables) {
    |t.outbox| == |t.attempts| && forall n | 0 <= n < |t.outbox| :: t.outbox[n].attemptId == t.attempts[n].id
  }

  lemma WorldRows(w: World)
    requires WorldInv(w)
    ensures forall d | d in w.parts :: NoticesFollowRows(w.parts[d].db)
  {
    forall d | d in w.parts
      ensures NoticesFollowRows(w.parts[d].db)
    {
      var t := View(w, d).db;
      assert Invariant.RowsInv(t);
      forall n | 0 <= n < |t.outbox|
        ensures t.outbox[n].attemptId == t.attempts[n].id
      {
        assert Invariant.AttemptOk(t, n);
      }
    }
  }

  lemma DeliverElsewhere(db: Db, db': Db, w: World, c: string, i: nat, at: Time)
    requires Backs(db, w) && Consistent(db) && c in w.parts && i < |w.parts[c].db.attempts|
    requires forall d | d in w.parts :: NoticesFollowRows(w.parts[d].db)
    requires db'.cycles == db.cycles && db'.leases == db.leases
    requires forall d | d in db.cycles ::
               ViewOf(db', d) == DeliverNotice(ViewOf(db, d), w.parts[c].db.attempts[i].id, at).0
    ensures OthersSame(db, db', c)
  {
    forall d | d in db.cycles && d != c
      ensures ViewOf(db', d) == ViewOf(db, d)
    {
      NoNoticeElsewhere(db, w, c, i, d);
      NothingToDeliver(ViewOf(db, d), w.parts[c].db.attempts[i].id, at);
    }
  }

  lemma NoNoticeElsewhere(db: Db, w: World, c: string, i: nat, d: string)
    requires Backs(db, w) && Consistent(db) && c in w.parts && d in w.parts && d != c && i < |w.parts[c].db.attempts|
    requires NoticesFollowRows(w.parts[d].db)
    ensures forall n | 0 <= n < |w.parts[d].db.outbox| ::
              w.parts[d].db.outbox[n].attemptId != w.parts[c].db.attempts[i].id
  {
    var k := RecordHasRow(db, w, c, i);
    var t := w.parts[d].db;
    forall n | 0 <= n < |t.outbox|
      ensures t.outbox[n].attemptId != w.parts[c].db.attempts[i].id
    {
      var l := RecordHasRow(db, w, d, n);
    }
  }

  lemma NothingToDeliver(t: Tables, id: string, at: Time)
    requires forall n | 0 <= n < |t.outbox| :: t.outbox[n].attemptId != id
    ensures DeliverNotice(t, id, at).0 == t
  {
  }

  /** CreateCycle of what production creates is the world's creation step. */
  lemma CreateCallIsStep(db: Db, db': Db, w: World, row: Cycle, procs: map<nat, Proc>)
    requires Backs(db, w) && WorldEnabled(w, Create(row.id, row.rail, row.amountPaise, row.dueDate, procs))
    requires row.attemptsUsed == 0 && row.state == Pending && row.version == 0
    requires db'.cycles.Keys == db.cycles.Keys + {row.id} && db'.leases.Keys == db'.cycles.Keys
    requires forall d | d in db.cycles :: ViewOf(db', d) == ViewOf(db, d)
    requires ViewOf(db', row.id) == Tables(row, [], Lease(None, 0, 0), [])
    ensures Backs(db', WorldApply(w, Create(row.id, row.rail, row.amountPaise, row.dueDate, procs)))
  {
    var created := Fresh(row.id, row.rail, row.amountPaise, row.dueDate);
    assert ViewOf(db', row.id) == created;
    CreatedParts(db, db', w, row.id, Part(created, procs, {}, []));
  }

  lemma CreatedParts(db: Db, db': Db, w: World, c: string, part: Part)
    requires Backs(db, w) && c !in w.parts
    requires db'.cycles.Keys == db.cycles.Keys + {c} && db'.leases.Keys == db'.cycles.Keys
    requires forall d | d in db.cycles :: ViewOf(db', d) == ViewOf(db, d)
    requires ViewOf(db', c) == part.db
    ensures Backs(db', w.(parts := w.parts[c := part]))
  {
    assert w.parts[c := part].Keys == w.parts.Keys + {c};
  }
}
