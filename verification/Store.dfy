/** internal/store: the Postgres tables of all cycles, updated in place by guarded statements.
    Each method is one transaction, written statement by statement as the repository does; its
    contract says which transaction of module CycleTables it performs on which cycle's rows, and that
    no other cycle's rows change. The database clock is a parameter. */
module Store {
  import opened Domain
  import opened Keys
  import opened CycleTables
  import opened StoreView
  import opened Pages

  /** The mandate and the customer of a cycle. */
  datatype Parties = Parties(mandateId: string, customerId: string)

  predicate BySlot(a: Attempt, b: Attempt) {
    a.scheduledFor <= b.scheduledFor
  }

  predicate ByDeadline(a: Notice, b: Notice) {
    a.deliverBy <= b.deliverBy
  }

  predicate ByDueDate(a: Cycle, b: Cycle) {
    a.dueDate < b.dueDate || (a.dueDate == b.dueDate && TextLe(a.id, b.id))
  }

  lemma ByDueDateIsOrder()
    ensures IsOrder(ByDueDate)
  {
    forall a: Cycle, b: Cycle
      ensures ByDueDate(a, b) || ByDueDate(b, a)
    {
      TextLeIsTotal(a.id, b.id);
    }
    forall a: Cycle, b: Cycle, c: Cycle | ByDueDate(a, b) && ByDueDate(b, c)
      ensures ByDueDate(a, c)
    {
      if TextLe(a.id, b.id) && TextLe(b.id, c.id) {
        TextLeIsTransitive(a.id, b.id, c.id);
      }
    }
  }

  /** A limit that is not positive means the query's default. */
  function LimitOf(limit: int, default: nat): nat {
    if limit <= 0 then default else limit
  }

  class PostgresStore {
    var cycles: map<string, Cycle>
    var attempts: seq<Attempt>
    var leases: map<string, Lease>
    var outbox: seq<Notice>
    var parties: map<string, Parties>

    ghost function State(): Db
      reads this
    {
      Db(cycles, attempts, leases, outbox)
    }

    ghost predicate Valid()
      reads this
    {
      Consistent(State()) && NoticesOwned(State())
    }

    /** One cycle's rows. */
    ghost function View(c: string): Tables
      requires c in cycles && c in leases
      reads this
    {
      ViewOf(State(), c)
    }

    constructor ()
      ensures Valid() && State() == Db(map[], [], map[], []) && parties == map[]
    {
      cycles, attempts, leases, outbox, parties := map[], [], map[], [], map[];
    }

    /** CreateCycle, with the trigger that seeds the lease row. */
    method CreateCycle(c: Cycle, of: Parties) returns (status: Status)
      requires Valid()
      modifies this
      ensures Valid()
      ensures status == Invalid <==>
                || c.id == "" || of.mandateId == "" || of.customerId == ""
                || c.amountPaise <= 0 || c.attemptsUsed < 0 || c.attemptsUsed > MAX_ATTEMPTS
      ensures status == Duplicate <==> status != Invalid && c.id in old(cycles)
      ensures status != Done ==> State() == old(State()) && parties == old(parties)
      ensures status == Done ==>
                && (forall d | d in old(cycles) :: d in cycles && View(d) == old(View(d)))
                && cycles.Keys == old(cycles).Keys + {c.id}
                && View(c.id) == Tables(c.(version := 0), [], Lease(None, 0, 0), [])
                && parties == old(parties)[c.id := of]
    {
      if c.id == "" || of.mandateId == "" || of.customerId == "" {
        return Invalid;
      }
      if c.amountPaise <= 0 || c.attemptsUsed < 0 || c.attemptsUsed > MAX_ATTEMPTS {
        return Invalid;
      }
      if c.id in cycles {
        return Duplicate;
      }
      NewCycleKeeps(State(), c.(version := 0));
      cycles := cycles[c.id := c.(version := 0)];
      leases := leases[c.id := Lease(None, 0, 0)];
      parties := parties[c.id := of];
      status := Done;
    }

    /** The cycles with an open attempt. */
    method BusyCycles() returns (busy: set<string>)
      ensures busy == set l | 0 <= l < |attempts| && Open(attempts[l]) :: attempts[l].cycleId
    {
      busy := {};
      var k := 0;
      while k < |attempts|
        invariant 0 <= k <= |attempts|
        invariant busy == set l | 0 <= l < k && Open(attempts[l]) :: attempts[l].cycleId
      {
        if Open(attempts[k]) {
          busy := busy + {attempts[k].cycleId};
        }
        k := k + 1;
      }
    }

    /** SchedulableCycles: pending and no open attempt, by due date and id. */
    method SchedulableCycles(limit: int) returns (page: seq<Cycle>)
      requires Valid()
      ensures IsPage(page, (set c | c in cycles && Schedulable(View(c)) :: cycles[c]), ByDueDate, LimitOf(limit, 100))
      ensures forall row | row in page ::
                && row.state == Pending
                && forall a | a in attempts && a.cycleId == row.id :: a.outcome.Some? && a.outcome != Some(Timeout)
    {
      hide NoticesOwned, TextLe, RowsOf, Numbered;
      var busy := BusyCycles();
      var free := set c | c in cycles && cycles[c].state == Pending && c !in busy :: cycles[c];
      forall c | c in cycles
        ensures c in busy <==> exists i | 0 <= i < |RowsOf(attempts, c)| :: Open(RowsOf(attempts, c)[i])
      {
        BusyIsOpen(attempts, c);
      }
      ByDueDateIsOrder();
      page := FirstPage(free, ByDueDate, LimitOf(limit, 100));
      forall row, a | row in page && a in attempts && a.cycleId == row.id
        ensures a.outcome.Some? && a.outcome != Some(Timeout)
      {
        var l :| 0 <= l < |attempts| && attempts[l] == a;
        assert attempts[l].cycleId !in busy;
      }
    }

    /** AttemptsByCycle: the cycle's rows by sequence number. */
    method AttemptsByCycle(c: string) returns (rows: seq<Attempt>)
      ensures rows == RowsOf(attempts, c)
    {
      rows := [];
      var k := 0;
      while k < |attempts|
        invariant 0 <= k <= |attempts|
        invariant rows == RowsOf(attempts[..k], c)
      {
        assert attempts[..k + 1] == attempts[..k] + [attempts[k]];
        RowsOfAppend(attempts[..k], attempts[k], c);
        if attempts[k].cycleId == c {
          rows := rows + [attempts[k]];
        }
        k := k + 1;
      }
      assert attempts[..k] == attempts;
    }

    /** lastFailureCode (cmd/quiescent/scheduler.go:68-82): the backwards scan. */
    method LastFailureCodeOf(c: string, attemptsUsed: int) returns (code: Option<FailureCode>)
      requires Valid() && c in cycles
      ensures code == LastFailureCode(View(c), attemptsUsed)
      ensures attemptsUsed == 0 ==> code == None
      ensures var rows := RowsOf(attempts, c);
              attemptsUsed != 0 && code.Some? ==>
                exists k | 0 <= k < |rows| :: rows[k].code == code && forall l | k < l < |rows| :: rows[l].code.None?
      ensures attemptsUsed != 0 && code.None? ==>
                forall k | 0 <= k < |RowsOf(attempts, c)| :: RowsOf(attempts, c)[k].code.None?
    {
      hide Consistent, NoticesOwned, RowsOf;
      if attemptsUsed == 0 {
        return None;
      }
      var rows := AttemptsByCycle(c);
      NewestCodeIsTheLast(rows);
      var i := |rows|;
      assert rows[..i] == rows;
      while i > 0
        invariant 0 <= i <= |rows|
        invariant NewestCode(rows) == NewestCode(rows[..i])
      {
        i := i - 1;
        assert rows[..i + 1][..i] == rows[..i];
        if rows[i].code.Some? {
          return rows[i].code;
        }
      }
      return None;
    }

    /** ReserveAttempt: four statements, one transaction; any failure restores the cycle row. */
    method ReserveAttempt(c: string, expectedVersion: int, id: string, scheduledFor: Time, deliverBy: Time)
      returns (status: Status)
      requires Valid()
      modifies this`cycles, this`attempts, this`outbox
      ensures Valid()
      ensures status != Done ==> State() == old(State())
      ensures c == "" ==> status == Invalid
      ensures c != "" && c !in old(cycles) ==> status == Conflict
      ensures c in old(cycles) ==>
                Reserves(old(State()), State(), c, expectedVersion, id, scheduledFor, deliverBy, status)
    {
      if c == "" {
        return Invalid;
      }
      if c !in cycles {
        return Conflict;
      }
      if cycles[c].version != expectedVersion || cycles[c].attemptsUsed >= MAX_ATTEMPTS {
        ReservationRefused(State(), c, expectedVersion, id, scheduledFor, deliverBy, Conflict);
        return Conflict;
      }
      status := Reserved(c, expectedVersion, id, scheduledFor, deliverBy);
    }

    /** The transaction once its first guard has matched. */
    method Reserved(c: string, ghost version: int, id: string, scheduledFor: Time, deliverBy: Time)
      returns (status: Status)
      requires Valid() && c in cycles && cycles[c].version == version && cycles[c].attemptsUsed < MAX_ATTEMPTS
      modifies this`cycles, this`attempts, this`outbox
      ensures Valid()
      ensures status != Done ==> State() == old(State())
      ensures Reserves(old(State()), State(), c, version, id, scheduledFor, deliverBy, status)
    {
      hide Consistent, NoticesOwned, Reserves, InsertStatus, RowsOf;
      ghost var was := State();
      ReservationEffect(was, c, id, scheduledFor, deliverBy);
      var before := cycles;
      cycles := cycles[c := CountedUp(cycles[c])];
      var rows := AttemptsByCycle(c);
      var a := NextAttempt(rows, c, id, scheduledFor);
      var n := Notice(c, id, deliverBy, None);
      status := InsertWithNotice(a, n);
      if status != Done {
        cycles := before;
      }
      assert State() == AfterReservation(was, c, id, scheduledFor, deliverBy);
    }

    method InsertWithNotice(a: Attempt, n: Notice) returns (status: Status)
      modifies this`attempts, this`outbox
      ensures status == InsertStatus(old(attempts), a)
      ensures attempts == if status == Done then old(attempts) + [a] else old(attempts)
      ensures outbox == if status == Done then old(outbox) + [n] else old(outbox)
    {
      status := InsertAttempt(a);
      if status == Done {
        QueueNotice(n);
      }
    }

    /** InsertAttempt: validation, then the primary key and the two unique constraints. */
    method InsertAttempt(a: Attempt) returns (status: Status)
      modifies this`attempts
      ensures status == InsertStatus(old(attempts), a)
      ensures attempts == if status == Done then old(attempts) + [a] else old(attempts)
    {
      if a.id == "" || a.cycleId == "" || !ValidSeq(a.seqNo) || a.key == "" {
        return Invalid;
      }
      if a.fence.Some? || a.firedAt.Some? || a.outcome.Some? || a.code.Some? {
        return Invalid;
      }
      for k := 0 to |attempts|
        invariant forall l | 0 <= l < k :: !Clashes(attempts[l], a)
      {
        if Clashes(attempts[k], a) {
          return Duplicate;
        }
      }
      attempts := attempts + [a];
      return Done;
    }

    method QueueNotice(n: Notice)
      modifies this`outbox
      ensures outbox == old(outbox) + [n]
    {
      outbox := outbox + [n];
    }

    /** AcquireLease: one guarded statement against the database clock. */
    method AcquireLease(c: string, holder: string, ttl: Time, now: Time) returns (status: Status, fence: int)
      requires Valid()
      modifies this`leases
      ensures Valid()
      ensures status == Invalid <==> c == "" || holder == "" || ttl <= 0
      ensures status == Invalid ==> State() == old(State())
      ensures status != Invalid && c !in cycles ==> status == Conflict && State() == old(State())
      ensures status != Invalid && c in cycles ==>
                && OthersSame(old(State()), State(), c)
                && (View(c), if status == Done then Some(fence) else None)
                  == CycleTables.AcquireLease(old(View(c)), holder, ttl, now)
    {
      if c == "" || holder == "" || ttl <= 0 {
        return Invalid, 0;
      }
      if c !in leases || leases[c].expiresAt >= now {
        return Conflict, 0;
      }
      fence := leases[c].fence + 1;
      leases := leases[c := Lease(Some(holder), fence, now + ttl)];
      status := Done;
    }

    /** The row with this id, if any. */
    method Find(id: string) returns (found: Option<nat>)
      ensures found.Some? ==> found.value < |attempts| && attempts[found.value].id == id
      ensures found.None? ==> forall k | 0 <= k < |attempts| :: attempts[k].id != id
    {
      for k := 0 to |attempts|
        invariant forall l | 0 <= l < k :: attempts[l].id != id
      {
        if attempts[k].id == id {
          return Some(k);
        }
      }
      return None;
    }

    /** The UPDATE of one attempt row and of its cycle's row. */
    method UpdateAttemptAndCycle(k: nat, a: Attempt, row: Cycle, ghost tx: Tx)
      requires Valid() && k < |attempts| && SameIdentity(attempts[k], a) && row.id == a.cycleId
      requires Carries(View(a.cycleId), Rank(attempts, k), attempts[k], a, row, tx)
      modifies this`attempts, this`cycles
      ensures Valid() && PerformedAt(old(State()), State(), k, tx, Done)
    {
      UpdatePair(State(), k, a, row, tx, Done);
      attempts, cycles := attempts[k := a], cycles[a.cycleId := row];
    }

    /** MarkAttemptFired: guarded on `fired_at IS NULL`, then the state column. */
    method MarkAttemptFired(id: string, fence: int, now: Time) returns (status: Status)
      requires Valid()
      modifies this`cycles, this`attempts
      ensures Valid()
      ensures id == "" || fence <= 0 ==> status == Invalid && State() == old(State())
      ensures id != "" && fence > 0 ==> Performs(old(State()), State(), id, MarkTx(fence, now), status)
    {
      if id == "" || fence <= 0 {
        return Invalid;
      }
      var found := Find(id);
      if found == None {
        return Conflict;
      }
      ghost var was := State();
      status := MarkAt(found.value, fence, now);
      PerformsByRow(was, State(), found.value, MarkTx(fence, now), status);
    }

    method MarkAt(k: nat, fence: int, now: Time) returns (status: Status)
      requires Valid() && k < |attempts| && fence > 0
      modifies this`cycles, this`attempts
      ensures Valid() && PerformedAt(old(State()), State(), k, MarkTx(fence, now), status)
    {
      var a := attempts[k];
      if a.firedAt.Some? {
        RolledBack(State(), k, MarkTx(fence, now), Conflict);
        return Conflict;
      }
      var a' := a.(firedAt := Some(now), fence := Some(fence));
      var row := cycles[a.cycleId].(state := InFlight);
      UpdateAttemptAndCycle(k, a', row, MarkTx(fence, now));
      return Done;
    }

    /** RecordAttemptOutcome: guarded on `outcome IS NULL`; a timeout also moves the cycle to unknown. */
    method RecordAttemptOutcome(id: string, outcome: Outcome, code: Option<FailureCode>) returns (status: Status)
      requires Valid()
      modifies this`cycles, this`attempts
      ensures Valid()
      ensures id == "" || !ValidOutcome(outcome, code) ==> status == Invalid && State() == old(State())
      ensures id != "" && ValidOutcome(outcome, code) ==>
                Performs(old(State()), State(), id, RecordTx(outcome, code), status)
    {
      if id == "" || !ValidOutcome(outcome, code) {
        return Invalid;
      }
      var found := Find(id);
      if found == None {
        return Conflict;
      }
      ghost var was := State();
      status := RecordAt(found.value, outcome, code);
      PerformsByRow(was, State(), found.value, RecordTx(outcome, code), status);
    }

    method RecordAt(k: nat, outcome: Outcome, code: Option<FailureCode>) returns (status: Status)
      requires Valid() && k < |attempts| && ValidOutcome(outcome, code)
      modifies this`cycles, this`attempts
      ensures Valid() && PerformedAt(old(State()), State(), k, RecordTx(outcome, code), status)
    {
      var a := attempts[k];
      if a.outcome.Some?
         || (outcome == AbandonedStale && a.firedAt.Some?) || (outcome != AbandonedStale && a.firedAt == None) {
        RecordRefused(View(a.cycleId), a, outcome, code);
        RolledBack(State(), k, RecordTx(outcome, code), Conflict);
        return Conflict;
      }
      var a' := a.(outcome := Some(outcome), code := code);
      var row := if outcome == Timeout then cycles[a.cycleId].(state := Unknown) else cycles[a.cycleId];
      RecordCarries(View(a.cycleId), a, outcome, code, row);
      UpdateAttemptAndCycle(k, a', row, RecordTx(outcome, code));
      return Done;
    }

    /** AbandonAttempt: guarded mark and refund. */
    method AbandonAttempt(id: string) returns (status: Status)
      requires Valid()
      modifies this`cycles, this`attempts
      ensures Valid()
      ensures id == "" ==> status == Invalid && State() == old(State())
      ensures id != "" ==> Performs(old(State()), State(), id, AbandonTx, status)
    {
      if id == "" {
        return Invalid;
      }
      var found := Find(id);
      if found == None {
        return Conflict;
      }
      ghost var was := State();
      status := AbandonAt(found.value);
      PerformsByRow(was, State(), found.value, AbandonTx, status);
    }

    method AbandonAt(k: nat) returns (status: Status)
      requires Valid() && k < |attempts|
      modifies this`cycles, this`attempts
      ensures Valid() && PerformedAt(old(State()), State(), k, AbandonTx, status)
    {
      if attempts[k].outcome.Some? || attempts[k].firedAt.Some? || cycles[attempts[k].cycleId].attemptsUsed <= 0 {
        RolledBack(State(), k, AbandonTx, Conflict);
        return Conflict;
      }
      CloseAndRefund(k, AbandonTx);
      return Done;
    }

    /** ResolveDebited. */
    method ResolveDebited(id: string) returns (status: Status)
      requires Valid()
      modifies this`cycles, this`attempts
      ensures Valid()
      ensures id == "" ==> status == Invalid && State() == old(State())
      ensures id != "" ==> Performs(old(State()), State(), id, DebitedTx, status)
    {
      if id == "" {
        return Invalid;
      }
      var found := Find(id);
      if found == None {
        return Conflict;
      }
      ghost var was := State();
      status := DebitedAt(found.value);
      PerformsByRow(was, State(), found.value, DebitedTx, status);
    }

    method DebitedAt(k: nat) returns (status: Status)
      requires Valid() && k < |attempts|
      modifies this`cycles, this`attempts
      ensures Valid() && PerformedAt(old(State()), State(), k, DebitedTx, status)
    {
      var a := attempts[k];
      if !(a.firedAt.Some? && (a.outcome == Some(Timeout) || a.outcome == None)) {
        RolledBack(State(), k, DebitedTx, Conflict);
        return Conflict;
      }
      var a' := a.(outcome := Some(Success));
      var row := cycles[a.cycleId].(state := Recovered);
      UpdateAttemptAndCycle(k, a', row, DebitedTx);
      return Done;
    }

    /** ResolveNotDebited. */
    method ResolveNotDebited(id: string) returns (status: Status)
      requires Valid()
      modifies this`cycles, this`attempts
      ensures Valid()
      ensures id == "" ==> status == Invalid && State() == old(State())
      ensures id != "" ==> Performs(old(State()), State(), id, NotDebitedTx, status)
    {
      if id == "" {
        return Invalid;
      }
      var found := Find(id);
      if found == None {
        return Conflict;
      }
      ghost var was := State();
      status := NotDebitedAt(found.value);
      PerformsByRow(was, State(), found.value, NotDebitedTx, status);
    }

    method NotDebitedAt(k: nat) returns (status: Status)
      requires Valid() && k < |attempts|
      modifies this`cycles, this`attempts
      ensures Valid() && PerformedAt(old(State()), State(), k, NotDebitedTx, status)
    {
      var a := attempts[k];
      if !(a.firedAt.Some? && (a.outcome == Some(Timeout) || a.outcome == None))
         || cycles[a.cycleId].attemptsUsed <= 0 {
        NotDebitedRefused(View(a.cycleId), a);
        RolledBack(State(), k, NotDebitedTx, Conflict);
        return Conflict;
      }
      CloseAndRefund(k, NotDebitedTx);
      return Done;
    }

    /** The two statements both refunds end in. */
    method CloseAndRefund(k: nat, ghost tx: Tx)
      requires Valid() && k < |attempts| && cycles[attempts[k].cycleId].attemptsUsed > 0
      requires (tx == AbandonTx && attempts[k].outcome == None && attempts[k].firedAt == None)
               || (tx == NotDebitedTx && Resolvable(attempts[k]))
      modifies this`cycles, this`attempts
      ensures Valid() && PerformedAt(old(State()), State(), k, tx, Done)
    {
      var a := attempts[k];
      var a' := a.(outcome := Some(AbandonedStale));
      var row := cycles[a.cycleId].(attemptsUsed := cycles[a.cycleId].attemptsUsed - 1, state := Pending);
      UpdateAttemptAndCycle(k, a', row, tx);
    }

    /** MarkCycleRecovered, HoldCycle, ReturnCycleToPending, EscalateCycle, AbandonCycle: one
        unguarded write of the state column each. */
    method WriteState(c: string, state: State) returns (status: Status)
      requires Valid()
      modifies this`cycles
      ensures Valid()
      ensures status == Done <==> c in old(cycles)
      ensures status != Done ==> status == Conflict && State() == old(State())
      ensures status == Done ==> OthersSame(old(State()), State(), c) && View(c) == SetState(old(View(c)), state)
    {
      if c !in cycles {
        return Conflict;
      }
      cycles := cycles[c := cycles[c].(state := state)];
      return Done;
    }

    /** MarkNoticeDeliveredAt: every undelivered notice of the attempt. */
    method MarkNoticeDelivered(id: string, at: Time) returns (status: Status)
      requires Valid()
      modifies this`outbox
      ensures Valid()
      ensures forall c | c in cycles :: View(c) == DeliverNotice(old(View(c)), id, at).0
      ensures status == Done <==> exists n | 0 <= n < |old(outbox)| ::
                old(outbox)[n].attemptId == id && old(outbox)[n].deliveredAt == None
      ensures status != Done ==> status == Conflict && State() == old(State())
    {
      DeliveredViews(State(), id, at);
      var matched := UpdateNotices(id, at);
      status := if matched then Done else Conflict;
    }

    method UpdateNotices(id: string, at: Time) returns (matched: bool)
      modifies this`outbox
      ensures outbox == DeliverAll(old(outbox), id, at)
      ensures matched <==> exists n | 0 <= n < |old(outbox)| ::
                old(outbox)[n].attemptId == id && old(outbox)[n].deliveredAt == None
      ensures !matched ==> outbox == old(outbox)
    {
      var n := 0;
      matched := false;
      while n < |outbox|
        invariant 0 <= n <= |outbox| == |old(outbox)|
        invariant forall m | 0 <= m < n :: outbox[m] == Delivered(old(outbox)[m], id, at)
        invariant forall m | n <= m < |outbox| :: outbox[m] == old(outbox)[m]
        invariant matched <==> exists m | 0 <= m < n ::
                    old(outbox)[m].attemptId == id && old(outbox)[m].deliveredAt == None
        invariant !matched ==> outbox == old(outbox)
      {
        if outbox[n].attemptId == id && outbox[n].deliveredAt == None {
          outbox := outbox[n := outbox[n].(deliveredAt := Some(at))];
          matched := true;
        }
        n := n + 1;
      }
    }

    /** NoticeDelivered: the gate, asked of the whole outbox. */
    method NoticeDelivered(id: string, scheduledFor: Time) returns (status: Status, delivered: bool)
      requires Valid()
      ensures status == Invalid <==> id == ""
      ensures status != Invalid ==> status == Done
      ensures id != "" ==>
                (delivered <==> exists n | 0 <= n < |outbox| ::
                   outbox[n].attemptId == id && outbox[n].deliveredAt.Some?
                   && outbox[n].deliveredAt.value <= scheduledFor - NOTICE_LEAD)
    {
      if id == "" {
        return Invalid, false;
      }
      for n := 0 to |outbox|
        invariant forall m | 0 <= m < n ::
                    !(outbox[m].attemptId == id && outbox[m].deliveredAt.Some?
                      && outbox[m].deliveredAt.value <= scheduledFor - NOTICE_LEAD)
      {
        if outbox[n].attemptId == id && outbox[n].deliveredAt.Some?
           && outbox[n].deliveredAt.value <= scheduledFor - NOTICE_LEAD {
          return Done, true;
        }
      }
      return Done, false;
    }

    /** DueAttempts, by slot. */
    method DueAttempts(now: Time, limit: int) returns (page: seq<Attempt>)
      requires Valid()
      ensures IsPage(page, (set a | a in attempts && a.scheduledFor <= now && a.outcome == None), BySlot,
                LimitOf(limit, 20))
    {
      var due: set<Attempt> := {};
      for k := 0 to |attempts|
        invariant forall a :: a in due <==> a in attempts[..k] && Due(a, now)
      {
        if Due(attempts[k], now) {
          due := due + {attempts[k]};
        }
      }
      assert due == (set a | a in attempts && a.scheduledFor <= now && a.outcome == None);
      page := FirstPage(due, BySlot, LimitOf(limit, 20));
    }

    /** NeedsReconciliation, by slot. */
    method Unresolved(limit: int) returns (page: seq<Attempt>)
      requires Valid()
      ensures IsPage(page,
                     (set a | a in attempts
                              && (a.outcome == Some(Timeout) || (a.firedAt.Some? && a.outcome == None))),
                     BySlot, LimitOf(limit, 50))
    {
      var rows: set<Attempt> := {};
      for k := 0 to |attempts|
        invariant forall a :: a in rows <==> a in attempts[..k] && NeedsReconciliation(a)
      {
        if NeedsReconciliation(attempts[k]) {
          rows := rows + {attempts[k]};
        }
      }
      assert rows == (set a | a in attempts && (a.outcome == Some(Timeout) || (a.firedAt.Some? && a.outcome == None)));
      page := FirstPage(rows, BySlot, LimitOf(limit, 50));
    }

    /** PendingNotices: undelivered notices of attempts without an outcome, by deadline. */
    method PendingNotices(limit: int) returns (page: seq<Notice>)
      requires Valid()
      ensures IsPage(page,
                     (set n | n in outbox && n.deliveredAt == None
                              && exists a :: a in attempts && a.id == n.attemptId && a.outcome == None),
                     ByDeadline, LimitOf(limit, 50))
    {
      var running: set<string> := {};
      for k := 0 to |attempts|
        invariant forall id :: id in running <==> exists a :: a in attempts[..k] && a.id == id && a.outcome == None
      {
        if attempts[k].outcome == None {
          running := running + {attempts[k].id};
        }
      }
      var rows: set<Notice> := {};
      for k := 0 to |outbox|
        invariant forall n :: n in rows <==> n in outbox[..k] && n.deliveredAt == None && n.attemptId in running
      {
        if outbox[k].deliveredAt == None && outbox[k].attemptId in running {
          rows := rows + {outbox[k]};
        }
      }
      assert attempts[..|attempts|] == attempts && outbox[..|outbox|] == outbox;
      assert rows == (set n | n in outbox && n.deliveredAt == None
                              && exists a :: a in attempts && a.id == n.attemptId && a.outcome == None);
      page := FirstPage(rows, ByDeadline, LimitOf(limit, 50));
    }
  }

  // ---------------------------------------------------------------------------------------

  /** Ids are unique: what was done at the row with the id was done to the id. */
  lemma PerformsByRow(db: Db, db': Db, k: nat, tx: Tx, status: Status)
    requires Consistent(db) && k < |db.attempts| && PerformedAt(db, db', k, tx, status)
    ensures Performs(db, db', db.attempts[k].id, tx, status)
  {
  }

  /** The guards the store writes out are those of the transactions. */
  lemma RecordRefused(t: Tables, a: Attempt, outcome: Outcome, code: Option<FailureCode>)
    requires ValidOutcome(outcome, code) && (a.outcome.Some? || (outcome == AbandonedStale <==> a.firedAt.Some?))
    ensures forall i: nat | i < |t.attempts| && t.attempts[i] == a ::
              RecordOutcome(t, i, outcome, code) == (t, Conflict)
  {
  }

  lemma RecordCarries(t: Tables, a: Attempt, outcome: Outcome, code: Option<FailureCode>, row: Cycle)
    requires ValidOutcome(outcome, code) && a.outcome == None && !(outcome == AbandonedStale <==> a.firedAt.Some?)
    requires row == if outcome == Timeout then t.cycle.(state := Unknown) else t.cycle
    ensures forall i: nat :: Carries(t, i, a, a.(outcome := Some(outcome), code := code), row, RecordTx(outcome, code))
  {
  }

  lemma NotDebitedRefused(t: Tables, a: Attempt)
    requires !Resolvable(a) || t.cycle.attemptsUsed <= 0
    ensures forall i: nat | i < |t.attempts| && t.attempts[i] == a ::
              CycleTables.ResolveNotDebited(t, i) == (t, Conflict)
  {
  }

  /** The reservation of module CycleTables on one cycle's view, except that an attempt id taken by any
      cycle is a duplicate. */
  ghost predicate Reserves(db: Db, db': Db, c: string, version: int, id: string, at: Time, deliverBy: Time,
                           status: Status)
    requires c in db.cycles && db.leases.Keys == db.cycles.Keys
  {
    var (t', expected) := Reserve(ViewOf(db, c), version, id, at, deliverBy);
    && OthersSame(db, db', c)
    && if expected == Done && TakenAnywhere(db, id) then ViewOf(db', c) == ViewOf(db, c) && status == Duplicate
       else ViewOf(db', c) == t' && status == expected
  }

  /** Two attempts the schema does not allow side by side. */
  predicate Clashes(a: Attempt, b: Attempt) {
    a.id == b.id || a.key == b.key || (a.cycleId == b.cycleId && a.seqNo == b.seqNo)
  }

  predicate TakenAnywhere(db: Db, id: string) {
    exists k | 0 <= k < |db.attempts| :: db.attempts[k].id == id
  }

  /** A refused reservation, with its reason in the order the statements run. */
  lemma ReservationRefused(db: Db, c: string, version: int, id: string, at: Time, deliverBy: Time, status: Status)
    requires c in db.cycles && db.leases.Keys == db.cycles.Keys
    requires db.cycles[c].id == c
    requires var row := db.cycles[c];
             status == if row.version != version || row.attemptsUsed >= MAX_ATTEMPTS then Conflict
                       else if id == "" || !ValidSeq(|RowsOf(db.attempts, c)| + 1) then Invalid
                       else Duplicate
    requires status == Duplicate ==> TakenAnywhere(db, id)
    ensures Reserves(db, db, c, version, id, at, deliverBy, status)
  {
    var (t', expected) := Reserve(ViewOf(db, c), version, id, at, deliverBy);
    assert status != Duplicate ==> (t', expected) == (ViewOf(db, c), status);
    assert status == Duplicate ==> expected == Done || (t', expected) == (ViewOf(db, c), Duplicate);
  }

  /** How inserting an attempt row ends: validation first, then the unique constraints. */
  function InsertStatus(attempts: seq<Attempt>, a: Attempt): Status {
    if a.id == "" || a.cycleId == "" || !ValidSeq(a.seqNo) || a.key == "" then Invalid
    else if a.fence.Some? || a.firedAt.Some? || a.outcome.Some? || a.code.Some? then Invalid
    else if exists k | 0 <= k < |attempts| :: Clashes(attempts[k], a) then Duplicate
    else Done
  }

  lemma InsertRefused(db: Db, c: string, version: int, a: Attempt, deliverBy: Time, status: Status)
    requires Consistent(db) && c in db.cycles
    requires db.cycles[c].version == version && db.cycles[c].attemptsUsed < MAX_ATTEMPTS
    requires a == NewAttempt(ViewOf(db, c), a.id, a.scheduledFor)
    requires status == InsertStatus(db.attempts, a) && status != Done
    ensures Reserves(db, db, c, version, a.id, a.scheduledFor, deliverBy, status)
  {
    ClashMeansTaken(db, c, a);
    ReservationRefused(db, c, version, a.id, a.scheduledFor, deliverBy, status);
  }

  lemma ReservationGoesThrough(db: Db, c: string, version: int, a: Attempt, n: Notice, row: Cycle)
    requires Consistent(db) && c in db.cycles && InsertStatus(db.attempts, a) == Done
    requires db.cycles[c].version == version && db.cycles[c].attemptsUsed < MAX_ATTEMPTS
    requires row == db.cycles[c].(attemptsUsed := db.cycles[c].attemptsUsed + 1, version := version + 1,
               state := Scheduled)
    requires a == NewAttempt(ViewOf(db, c), a.id, a.scheduledFor)
    requires n == Notice(c, a.id, n.deliverBy, None)
    ensures Consistent(WithReservation(db, c, a, n, row))
    ensures Reserves(db, WithReservation(db, c, a, n, row), c, version, a.id, a.scheduledFor, n.deliverBy, Done)
  {
    ClashMeansTaken(db, c, a);
    IdTakenMeansTaken(db.attempts, c, a.id);
    ReservedIsConsistent(db, c, a, n, row);
    ReservedViews(db, c, a, n, row);
    ReservedIsReserve(ViewOf(db, c), version, a, n, row);
  }

  lemma ReservedIsReserve(t: Tables, version: int, a: Attempt, n: Notice, row: Cycle)
    requires t.cycle.version == version && t.cycle.attemptsUsed < MAX_ATTEMPTS && ValidSeq(a.seqNo)
    requires row == t.cycle.(attemptsUsed := t.cycle.attemptsUsed + 1, version := version + 1, state := Scheduled)
    requires a == NewAttempt(t, a.id, a.scheduledFor) && a.id != "" && !IdTaken(t.attempts, a.id)
    requires n == Notice(t.cycle.id, a.id, n.deliverBy, None)
    ensures Reserve(t, version, a.id, a.scheduledFor, n.deliverBy)
         == (Tables(row, t.attempts + [a], t.lease, t.outbox + [n]), Done)
  {
  }

  /** The cycle row as the first statement leaves it. */
  function CountedUp(row: Cycle): Cycle {
    row.(attemptsUsed := row.attemptsUsed + 1, version := row.version + 1, state := Scheduled)
  }

  /** Sequence number and key follow from the number of rows there are. */
  function NextAttempt(rows: seq<Attempt>, c: string, id: string, at: Time): Attempt {
    Attempt(id, c, |rows| + 1, NewIdempotencyKey(c, |rows| + 1), at, None, None, None, None)
  }

  /** The tables when the transaction ends, however the inserts went. */
  function AfterReservation(db: Db, c: string, id: string, at: Time, deliverBy: Time): Db
    requires c in db.cycles
  {
    var a := NextAttempt(RowsOf(db.attempts, c), c, id, at);
    if InsertStatus(db.attempts, a) == Done
    then WithReservation(db, c, a, Notice(c, id, deliverBy, None), CountedUp(db.cycles[c])) else db
  }

  /** Either way the inserts end, the transaction does what `Reserve` says. */
  lemma ReservationEffect(db: Db, c: string, id: string, at: Time, deliverBy: Time)
    requires Consistent(db) && NoticesOwned(db) && c in db.cycles && db.cycles[c].attemptsUsed < MAX_ATTEMPTS
    ensures var db' := AfterReservation(db, c, id, at, deliverBy);
            && Consistent(db') && NoticesOwned(db')
            && Reserves(db, db', c, db.cycles[c].version, id, at, deliverBy,
                        InsertStatus(db.attempts, NextAttempt(RowsOf(db.attempts, c), c, id, at)))
  {
    var a, version := NextAttempt(RowsOf(db.attempts, c), c, id, at), db.cycles[c].version;
    assert a == NewAttempt(ViewOf(db, c), id, at);
    hide Consistent, NoticesOwned, RowsOf, Reserves, InsertStatus;
    if InsertStatus(db.attempts, a) == Done {
      ReservationGoesThrough(db, c, version, a, Notice(c, id, deliverBy, None), CountedUp(db.cycles[c]));
      ReservationOwnsItsNotice(db, c, a, Notice(c, id, deliverBy, None), CountedUp(db.cycles[c]));
    } else {
      InsertRefused(db, c, version, a, deliverBy, InsertStatus(db.attempts, a));
    }
  }

  lemma ReservationOwnsItsNotice(db: Db, c: string, a: Attempt, n: Notice, row: Cycle)
    requires NoticesOwned(db) && c in db.cycles && n.cycleId == c
    ensures NoticesOwned(WithReservation(db, c, a, n, row))
  {
  }

  function WithCycle(db: Db, row: Cycle): Db {
    db.(cycles := db.cycles[row.id := row], leases := db.leases[row.id := Lease(None, 0, 0)])
  }

  /** A new cycle row with its lease row: consistent, without attempts, nobody else's business. */
  lemma NewCycleKeeps(db: Db, row: Cycle)
    requires Consistent(db) && NoticesOwned(db) && row.id !in db.cycles && row.id != ""
    ensures Consistent(WithCycle(db, row)) && NoticesOwned(WithCycle(db, row))
    ensures ViewOf(WithCycle(db, row), row.id) == Tables(row, [], Lease(None, 0, 0), [])
    ensures forall d | d in db.cycles :: ViewOf(WithCycle(db, row), d) == ViewOf(db, d)
  {
    NoRows(db.attempts, row.id);
    NoNotices(db.outbox, row.id);
    NewCycleIsConsistent(db, row);
  }

  lemma NewCycleIsConsistent(db: Db, row: Cycle)
    requires Consistent(db) && row.id !in db.cycles && row.id != "" && RowsOf(db.attempts, row.id) == []
    ensures Consistent(WithCycle(db, row))
  {
    hide RowsOf;
    var db' := WithCycle(db, row);
    assert db'.leases.Keys == db'.cycles.Keys;
    forall c | c in db'.cycles
      ensures Numbered(RowsOf(db'.attempts, c), c) && |RowsOf(db'.attempts, c)| <= MAX_ATTEMPTS
    {
      assert c in db.cycles || c == row.id;
    }
  }

  lemma {:induction false} NoRows(attempts: seq<Attempt>, c: string)
    requires forall k | 0 <= k < |attempts| :: attempts[k].cycleId != c
    ensures RowsOf(attempts, c) == []
  {
    if attempts != [] {
      NoRows(attempts[..|attempts| - 1], c);
    }
  }

  lemma {:induction false} NoNotices(outbox: seq<Notice>, c: string)
    requires forall n | 0 <= n < |outbox| :: outbox[n].cycleId != c
    ensures NoticesOf(outbox, c) == []
  {
    if outbox != [] {
      NoNotices(outbox[..|outbox| - 1], c);
    }
  }

  lemma BusyIsOpen(attempts: seq<Attempt>, c: string)
    ensures (exists k | 0 <= k < |attempts| :: attempts[k].cycleId == c && Open(attempts[k]))
            <==> exists i | 0 <= i < |RowsOf(attempts, c)| :: Open(RowsOf(attempts, c)[i])
  {
    if k :| 0 <= k < |attempts| && attempts[k].cycleId == c && Open(attempts[k]) {
      RankFindsRow(attempts, k);
      assert Open(RowsOf(attempts, c)[Rank(attempts, k)]);
    }
    if i :| 0 <= i < |RowsOf(attempts, c)| && Open(RowsOf(attempts, c)[i]) {
      var k := RowsOfAreRows(attempts, c, i);
    }
  }

  lemma IdTakenMeansTaken(attempts: seq<Attempt>, c: string, id: string)
    ensures IdTaken(RowsOf(attempts, c), id) ==> exists k | 0 <= k < |attempts| :: attempts[k].id == id
  {
    if i :| 0 <= i < |RowsOf(attempts, c)| && RowsOf(attempts, c)[i].id == id {
      var k := RowsOfAreRows(attempts, c, i);
    }
  }

  /** The next sequence number and its key are never taken, by this cycle or any other: a
      reservation can only be a duplicate because of its id. */
  lemma ClashMeansTaken(db: Db, c: string, a: Attempt)
    requires Consistent(db) && c in db.cycles
    requires a.cycleId == c && a.seqNo == |RowsOf(db.attempts, c)| + 1 && a.key == NewIdempotencyKey(c, a.seqNo)
    ensures (exists k | 0 <= k < |db.attempts| :: Clashes(db.attempts[k], a)) <==> TakenAnywhere(db, a.id)
  {
    forall k | 0 <= k < |db.attempts|
      ensures Clashes(db.attempts[k], a) <==> db.attempts[k].id == a.id
    {
      var b := db.attempts[k];
      RankFindsRow(db.attempts, k);
      NumberIsFree(RowsOf(db.attempts, b.cycleId), b.cycleId, Rank(db.attempts, k), c, |RowsOf(db.attempts, c)|);
    }
  }

  lemma NumberIsFree(rows: seq<Attempt>, d: string, i: nat, c: string, n: nat)
    requires Numbered(rows, d) && i < |rows| <= MAX_ATTEMPTS && n <= MAX_ATTEMPTS && (d == c ==> |rows| == n)
    ensures rows[i].key != NewIdempotencyKey(c, n + 1) && !(rows[i].cycleId == c && rows[i].seqNo == n + 1)
  {
    if rows[i].key == NewIdempotencyKey(c, n + 1) {
      KeysAreInjective(d, i + 1, c, n + 1);
    }
  }

  lemma DeliveredViews(db: Db, id: string, at: Time)
    requires db.leases.Keys == db.cycles.Keys
    ensures forall c | c in db.cycles ::
              ViewOf(db.(outbox := DeliverAll(db.outbox, id, at)), c) == DeliverNotice(ViewOf(db, c), id, at).0
  {
    forall c | c in db.cycles
      ensures ViewOf(db.(outbox := DeliverAll(db.outbox, id, at)), c) == DeliverNotice(ViewOf(db, c), id, at).0
    {
      NoticesOfDeliver(db.outbox, id, at, c);
      assert DeliverNotice(ViewOf(db, c), id, at).0.outbox == DeliverAll(ViewOf(db, c).outbox, id, at);
    }
  }

  /** The tables after a reservation went through. */
  function WithReservation(db: Db, c: string, a: Attempt, n: Notice, row: Cycle): Db {
    Db(db.cycles[c := row], db.attempts + [a], db.leases, db.outbox + [n])
  }

  lemma ReservedViews(db: Db, c: string, a: Attempt, n: Notice, row: Cycle)
    requires db.leases.Keys == db.cycles.Keys && c in db.cycles && a.cycleId == c && n.cycleId == c
    ensures var db' := WithReservation(db, c, a, n, row);
            && OthersSame(db, db', c)
            && ViewOf(db', c) == Tables(row, RowsOf(db.attempts, c) + [a], db.leases[c], NoticesOf(db.outbox, c) + [n])
  {
    forall d | d in db.cycles
      ensures d != c ==> ViewOf(WithReservation(db, c, a, n, row), d) == ViewOf(db, d)
    {
      RowsOfAppend(db.attempts, a, d);
      NoticesOfAppend(db.outbox, n, d);
    }
    RowsOfAppend(db.attempts, a, c);
    NoticesOfAppend(db.outbox, n, c);
  }

  lemma ReservedIsNumbered(db: Db, c: string, a: Attempt, d: string)
    requires Consistent(db) && d in db.cycles && a.cycleId == c
    requires a.seqNo == |RowsOf(db.attempts, c)| + 1 <= MAX_ATTEMPTS && a.key == NewIdempotencyKey(c, a.seqNo)
    ensures Numbered(RowsOf(db.attempts + [a], d), d) && |RowsOf(db.attempts + [a], d)| <= MAX_ATTEMPTS
  {
    RowsOfAppend(db.attempts, a, d);
    var rows := RowsOf(db.attempts, d);
    assert Numbered(rows, d) && |rows| <= MAX_ATTEMPTS;
    if d == c {
      NumberedAppend(rows, a, c);
    } else {
      assert RowsOf(db.attempts + [a], d) == rows;
    }
  }

  lemma NumberedAppend(rows: seq<Attempt>, a: Attempt, c: string)
    requires Numbered(rows, c) && a.cycleId == c && a.seqNo == |rows| + 1 && a.key == NewIdempotencyKey(c, |rows| + 1)
    ensures Numbered(rows + [a], c)
  {
  }

  lemma ReservedIsConsistent(db: Db, c: string, a: Attempt, n: Notice, row: Cycle)
    requires Consistent(db) && c in db.cycles && row.id == c
    requires a.cycleId == c && a.id != "" && !TakenAnywhere(db, a.id)
    requires a.seqNo == |RowsOf(db.attempts, c)| + 1 <= MAX_ATTEMPTS && a.key == NewIdempotencyKey(c, a.seqNo)
    ensures Consistent(WithReservation(db, c, a, n, row))
  {
    var db' := WithReservation(db, c, a, n, row);
    assert db'.cycles.Keys == db.cycles.Keys;
    forall d | d in db'.cycles
      ensures Numbered(RowsOf(db'.attempts, d), d) && |RowsOf(db'.attempts, d)| <= MAX_ATTEMPTS
    {
      ReservedIsNumbered(db, c, a, d);
    }
  }
}
