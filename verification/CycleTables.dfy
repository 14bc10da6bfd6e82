/** The rows Postgres holds for one mandate cycle, and each guarded transaction of
    internal/store as a function from tables to tables. A transaction whose guard matches no row
    rolls back: it returns the tables it was given. */
module CycleTables {
  import opened Domain
  import opened Keys

  datatype Cycle = Cycle(id: string, rail: Rail, amountPaise: int, dueDate: Time,
                         attemptsUsed: int, state: State, version: int)

  datatype Attempt = Attempt(id: string, cycleId: string, seqNo: int, key: string, scheduledFor: Time,
                             firedAt: Option<Time>, fence: Option<int>,
                             outcome: Option<Outcome>, code: Option<FailureCode>)

  datatype Lease = Lease(holder: Option<string>, fence: int, expiresAt: Time)

  datatype Notice = Notice(cycleId: string, attemptId: string, deliverBy: Time, deliveredAt: Option<Time>)

  /** The attempts and outbox rows are in insertion order. */
  datatype Tables = Tables(cycle: Cycle, attempts: seq<Attempt>, lease: Lease, outbox: seq<Notice>)

  /** How a store call ends: done, guard matched nothing, argument refused, unique key taken. */
  datatype Status = Done | Conflict | Invalid | Duplicate

  /** A new cycle with its lease row, as the insert trigger seeds it. */
  function Fresh(id: string, rail: Rail, amountPaise: int, dueDate: Time): Tables {
    Tables(Cycle(id, rail, amountPaise, dueDate, 0, Pending, 0), [], Lease(None, 0, 0), [])
  }

  // ---------------------------------------------------------------------------------------
  // Queries

  /** Outcome NULL or TIMEOUT: nobody knows yet whether money moved. */
  predicate Open(a: Attempt) {
    a.outcome == None || a.outcome == Some(Timeout)
  }

  /** The claim query of the scheduler. */
  predicate Schedulable(t: Tables) {
    t.cycle.state == Pending && forall i | 0 <= i < |t.attempts| :: !Open(t.attempts[i])
  }

  /** The claim query of the workers. */
  predicate Due(a: Attempt, now: Time) {
    a.scheduledFor <= now && a.outcome == None
  }

  predicate NeedsReconciliation(a: Attempt) {
    a.outcome == Some(Timeout) || (a.firedAt.Some? && a.outcome == None)
  }

  /** The notice gate: a notice for this attempt was recorded as delivered by the deadline. */
  predicate NoticeDelivered(t: Tables, attemptId: string, scheduledFor: Time) {
    exists n | 0 <= n < |t.outbox| ::
      && t.outbox[n].attemptId == attemptId
      && t.outbox[n].deliveredAt.Some?
      && t.outbox[n].deliveredAt.value <= scheduledFor - NOTICE_LEAD
  }

  /** The newest failure code on record. */
  function NewestCode(attempts: seq<Attempt>): Option<FailureCode> {
    if attempts == [] then None
    else if attempts[|attempts| - 1].code.Some? then attempts[|attempts| - 1].code
    else NewestCode(attempts[..|attempts| - 1])
  }

  function LastFailureCode(t: Tables, attemptsUsed: int): Option<FailureCode> {
    if attemptsUsed == 0 then None else NewestCode(t.attempts)
  }

  // ---------------------------------------------------------------------------------------
  // Transactions

  function SetState(t: Tables, state: State): Tables {
    t.(cycle := t.cycle.(state := state))
  }

  /** An insert-time guard of `validateAttempt` that the reservation can meet or fail. */
  predicate ValidSeq(seqNo: int) {
    1 <= seqNo <= MAX_ATTEMPTS
  }

  function NewAttempt(t: Tables, id: string, scheduledFor: Time): Attempt {
    var seqNo := |t.attempts| + 1;
    Attempt(id, t.cycle.id, seqNo, NewIdempotencyKey(t.cycle.id, seqNo), scheduledFor, None, None, None, None)
  }

  predicate IdTaken(attempts: seq<Attempt>, id: string) {
    exists i | 0 <= i < |attempts| :: attempts[i].id == id
  }

  /** ReserveAttempt: budget, version, attempt row and notice in one transaction. */
  function Reserve(t: Tables, expectedVersion: int, id: string, scheduledFor: Time, deliverBy: Time): (Tables, Status) {
    if t.cycle.version != expectedVersion || t.cycle.attemptsUsed >= MAX_ATTEMPTS then (t, Conflict)
    else
      var a := NewAttempt(t, id, scheduledFor);
      if !ValidSeq(a.seqNo) || id == "" then (t, Invalid)
      else if IdTaken(t.attempts, id) then (t, Duplicate)
      else
        (Tables(t.cycle.(attemptsUsed := t.cycle.attemptsUsed + 1, version := t.cycle.version + 1, state := Scheduled),
                t.attempts + [a],
                t.lease,
                t.outbox + [Notice(t.cycle.id, id, deliverBy, None)]),
         Done)
  }

  /** AcquireLease: guarded on expiry, one statement. */
  function AcquireLease(t: Tables, holder: string, ttl: Time, now: Time): (Tables, Option<int>) {
    if t.lease.expiresAt < now
    then (t.(lease := Lease(Some(holder), t.lease.fence + 1, now + ttl)), Some(t.lease.fence + 1))
    else (t, None)
  }

  function SetAttempt(t: Tables, i: nat, a: Attempt): Tables
    requires i < |t.attempts|
  {
    t.(attempts := t.attempts[i := a])
  }

  /** MarkAttemptFired: guarded on `fired_at IS NULL` alone. */
  function MarkFired(t: Tables, i: nat, fence: int, now: Time): (Tables, Status)
    requires i < |t.attempts|
  {
    if fence <= 0 then (t, Invalid)
    else if t.attempts[i].firedAt.Some? then (t, Conflict)
    else (SetState(SetAttempt(t, i, t.attempts[i].(firedAt := Some(now), fence := Some(fence))), InFlight), Done)
  }

  predicate ValidOutcome(outcome: Outcome, code: Option<FailureCode>) {
    && (outcome == Failure <==> code.Some?)
    && (code.Some? ==> code.value != Other(""))
  }

  /** RecordAttemptOutcome: guarded on `outcome IS NULL`, and on having been fired exactly when
      the outcome is not ABANDONED_STALE. */
  function RecordOutcome(t: Tables, i: nat, outcome: Outcome, code: Option<FailureCode>): (Tables, Status)
    requires i < |t.attempts|
  {
    var a := t.attempts[i];
    if !ValidOutcome(outcome, code) then (t, Invalid)
    else if a.outcome.Some? || (outcome == AbandonedStale <==> a.firedAt.Some?) then (t, Conflict)
    else
      var t' := SetAttempt(t, i, a.(outcome := Some(outcome), code := code));
      (if outcome == Timeout then SetState(t', Unknown) else t', Done)
  }

  /** Closing an attempt as ABANDONED_STALE and giving its budget back. */
  function Refund(t: Tables, i: nat): (Tables, Status)
    requires i < |t.attempts|
  {
    if t.cycle.attemptsUsed <= 0 then (t, Conflict)
    else
      var t' := SetAttempt(t, i, t.attempts[i].(outcome := Some(AbandonedStale)));
      (t'.(cycle := t'.cycle.(attemptsUsed := t'.cycle.attemptsUsed - 1, state := Pending)), Done)
  }

  /** AbandonAttempt: only an attempt that was never fired and has no outcome. */
  function Abandon(t: Tables, i: nat): (Tables, Status)
    requires i < |t.attempts|
  {
    if t.attempts[i].outcome == None && t.attempts[i].firedAt == None then Refund(t, i) else (t, Conflict)
  }

  predicate Resolvable(a: Attempt) {
    a.firedAt.Some? && Open(a)
  }

  /** ResolveDebited: the bank says the money moved. */
  function ResolveDebited(t: Tables, i: nat): (Tables, Status)
    requires i < |t.attempts|
  {
    if !Resolvable(t.attempts[i]) then (t, Conflict)
    else (SetState(SetAttempt(t, i, t.attempts[i].(outcome := Some(Success))), Recovered), Done)
  }

  /** ResolveNotDebited: the bank says it did not. */
  function ResolveNotDebited(t: Tables, i: nat): (Tables, Status)
    requires i < |t.attempts|
  {
    if !Resolvable(t.attempts[i]) then (t, Conflict) else Refund(t, i)
  }

  /** MarkNoticeDeliveredAt: every undelivered notice of the attempt, first delivery wins. */
  function DeliverNotice(t: Tables, attemptId: string, at: Time): (Tables, Status) {
    var outbox := seq(|t.outbox|, n requires 0 <= n < |t.outbox| =>
      if t.outbox[n].attemptId == attemptId && t.outbox[n].deliveredAt == None
      then t.outbox[n].(deliveredAt := Some(at)) else t.outbox[n]);
    if exists n | 0 <= n < |t.outbox| :: t.outbox[n].attemptId == attemptId && t.outbox[n].deliveredAt == None
    then (t.(outbox := outbox), Done)
    else (t, Conflict)
  }

  // ---------------------------------------------------------------------------------------
  // Counting the attempts that hold a slot of the budget

  function Slot(a: Attempt): nat {
    if a.outcome == Some(AbandonedStale) then 0 else 1
  }

  /** The number of attempts whose outcome is not ABANDONED_STALE. */
  function SlotsHeld(attempts: seq<Attempt>): nat {
    if attempts == [] then 0 else SlotsHeld(attempts[..|attempts| - 1]) + Slot(attempts[|attempts| - 1])
  }

  lemma SlotsHeldAppend(attempts: seq<Attempt>, a: Attempt)
    ensures SlotsHeld(attempts + [a]) == SlotsHeld(attempts) + Slot(a)
  {
    assert (attempts + [a])[..|attempts|] == attempts;
  }

  lemma {:induction false} SlotsHeldUpdate(attempts: seq<Attempt>, i: nat, a: Attempt)
    requires i < |attempts|
    ensures SlotsHeld(attempts[i := a]) == SlotsHeld(attempts) - Slot(attempts[i]) + Slot(a)
  {
    var front, changed := attempts[..|attempts| - 1], attempts[i := a];
    if i < |front| {
      SlotsHeldUpdate(front, i, a);
      assert changed[..|changed| - 1] == front[i := a];
    } else {
      assert changed[..|changed| - 1] == front;
    }
  }

  lemma {:induction false} SlotsHeldBounds(attempts: seq<Attempt>)
    ensures SlotsHeld(attempts) <= |attempts|
    ensures forall i | 0 <= i < |attempts| && Slot(attempts[i]) == 1 :: SlotsHeld(attempts) > 0
  {
    if attempts != [] {
      SlotsHeldBounds(attempts[..|attempts| - 1]);
      forall i | 0 <= i < |attempts| && Slot(attempts[i]) == 1
        ensures SlotsHeld(attempts) > 0
      {
        assert i < |attempts| - 1 ==> attempts[..|attempts| - 1][i] == attempts[i];
      }
    }
  }

  /** The newest code is that of the last row that has one. */
  lemma {:induction false} NewestCodeIsTheLast(attempts: seq<Attempt>)
    ensures NewestCode(attempts).None? <==> forall i | 0 <= i < |attempts| :: attempts[i].code.None?
    ensures NewestCode(attempts).Some? ==>
              exists i | 0 <= i < |attempts| ::
                && attempts[i].code == NewestCode(attempts)
                && forall j | i < j < |attempts| :: attempts[j].code.None?
  {
    if attempts != [] {
      var n := |attempts| - 1;
      NewestCodeIsTheLast(attempts[..n]);
      if attempts[n].code.None? && NewestCode(attempts[..n]).Some? {
        var i :| 0 <= i < n && attempts[..n][i].code == NewestCode(attempts[..n])
                 && forall j | i < j < n :: attempts[..n][j].code.None?;
        assert attempts[i].code == NewestCode(attempts);
      }
    }
  }

  /** Slots held are the rows whose outcome is not ABANDONED_STALE. */
  lemma {:induction false} SlotsHeldCounts(attempts: seq<Attempt>)
    ensures SlotsHeld(attempts) == |set i | 0 <= i < |attempts| && attempts[i].outcome != Some(AbandonedStale)|
  {
    var all := set i | 0 <= i < |attempts| && attempts[i].outcome != Some(AbandonedStale);
    if attempts != [] {
      var n := |attempts| - 1;
      SlotsHeldCounts(attempts[..n]);
      var front := set i | 0 <= i < n && attempts[..n][i].outcome != Some(AbandonedStale);
      assert all == if attempts[n].outcome != Some(AbandonedStale) then front + {n} else front;
    }
  }

}
