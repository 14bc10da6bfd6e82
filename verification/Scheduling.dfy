/** ScheduleNext and the notice relay as sequential code against a deployment in which everybody
    else goes on between any two of their calls (internal/schedule/schedule.go:52-114,
    internal/outbox/outbox.go:56-76). */
module Scheduling {
  import opened Domain
  import opened Classification
  import opened CycleTables
  import opened Slots
  import opened Timestamps
  import opened Triggers
  import opened Protocol
  import opened Invariant
  import opened Preservation
  import opened Deployment
  import opened History
  import Safety
  import Bank = DebitHandler

  datatype ScheduleResult = Reserved(at: Time) | NotRetryable | BudgetRaced | AwaitingTrigger | ScheduleFailed

  datatype RelayResult = Delivered | TooLate | SendFailed | DeliveryFailed

  /** The newest attempt is an unfired one for this slot, with its notice queued under the
      deadline; every older attempt is closed and retryable. */
  ghost predicate JustReserved(t: Tables, id: string, at: Time, deliverBy: Time) {
    && t.attempts != [] && |t.outbox| == |t.attempts|
    && var n := |t.attempts| - 1;
       && t.attempts[n].id == id && t.attempts[n].scheduledFor == at
       && t.attempts[n].firedAt == None && t.attempts[n].outcome == None
       && t.outbox[n] == Notice(t.cycle.id, id, deliverBy, None)
       && t.cycle.state == State.Scheduled && t.cycle.attemptsUsed <= MAX_ATTEMPTS
       && forall i | 0 <= i < n :: RetryOk(t.attempts[i])
  }

  /** A confirmed answer decides this slot. */
  predicate Confirmed(rows: TriggerRows, k: TriggerKey, at: Time) {
    && k in rows && rows[k].answer.Some? && rows[k].answer.value.yes
    && at == AfterConfirmation(rows[k].answer.value.respondedAt)
  }

  /** A tick that waits found an unanswered question still running, and left it alone, or found none
      and put it, after whatever others did meanwhile. */
  predicate Waits(was: TriggerRows, rows: TriggerRows, k: TriggerKey, now: Time, meanwhile: seq<TriggerOp>) {
    if k in was then rows == was && was[k].answer == None && now <= was[k].expiresAt
    else rows == Queued(Steps(was, meanwhile), k, now, now + TRIGGER_TIMEOUT)
  }

  /** The trigger row a tick finds for the next attempt. */
  function RowFor(rows: TriggerRows, cycle: Cycle): Option<Trigger> {
    var k := TriggerKey(cycle.id, cycle.attemptsUsed + 1);
    if k in rows then Some(rows[k]) else None
  }

  /** What the balance trigger decides: a yes plans 24h15m after the answer, whenever the tick runs; a
      no or twenty unanswered hours plan the mandated slot, if one to three attempts are used; a
      running or new question waits. */
  ghost predicate GateDecides(cycle: Cycle, row: Option<Trigger>, hour: Option<int>, now: Time, verdict: Verdict) {
    match row
    case None => verdict == if cycle.id == "" then GateFailed else Wait
    case Some(t) =>
      if t.answer.Some? && t.answer.value.yes then
        verdict == Plan(AfterWindows(t.answer.value.respondedAt + 24 * HOUR + 15 * MINUTE))
      else if t.answer.Some? || now > t.expiresAt then
        verdict == if 1 <= cycle.attemptsUsed <= 3
                   then Plan(MandatedSlot(cycle.dueDate, MandatedDays(cycle.attemptsUsed).value, hour, now)) else NoPlan
      else verdict == Wait
  }

  /** What a tick decides: the first attempt is planned for the due date; after a lack of funds the
      trigger decides; after any other code the table retries, the mandated slot is planned with one
      to three attempts used; otherwise nothing is. */
  ghost predicate Decides(cycle: Cycle, code: Option<FailureCode>, row: Option<Trigger>, hour: Option<int>,
                          now: Time, verdict: Verdict)
  {
    if cycle.attemptsUsed == 0 then verdict == Plan(MandatedSlot(cycle.dueDate, 0, hour, now))
    else if code == Some(InsufficientFunds) then GateDecides(cycle, row, hour, now, verdict)
    else if code.Some? && code.value in RETRIED && 1 <= cycle.attemptsUsed <= 3 then
      verdict == Plan(MandatedSlot(cycle.dueDate, MandatedDays(cycle.attemptsUsed).value, hour, now))
    else verdict == NoPlan
  }

  /** Why a planned reservation may fail with an error. */
  predicate Refusable(t: Tables, id: string, at: Time, z: Zone) {
    || id == "" || IdTaken(t.attempts, id) || |t.attempts| >= 4
    || !FourDigitYear(LocalYear(at - 24 * HOUR, z))
  }

  class Scheduler {
    const cluster: Cluster
    const triggers: TriggerTable

    constructor (cluster: Cluster, triggers: TriggerTable)
      ensures this.cluster == cluster && this.triggers == triggers
    {
      this.cluster, this.triggers := cluster, triggers;
    }

    /** One cycle of a scheduler tick. `preferredHour` comes from the customer's history, `now`
        is the scheduler's own clock, `id` a new attempt id. `read` is the state in which the last
        failure code was read. */
    method ScheduleNext(p: nat, id: string, preferredHour: Option<int>, now: Time, z: Zone, meanwhile: seq<TriggerOp>)
      returns (r: ScheduleResult, ghost read: Sys, ghost verdict: Verdict)
      requires Inv(cluster.sys) && Enabled(cluster.sys, TakeSnapshot(p))
      modifies cluster, triggers
      ensures Inv(cluster.sys) && Leads(old(cluster.sys), cluster.sys) && p !in cluster.sys.procs
      ensures OthersRan(Apply(old(cluster.sys), TakeSnapshot(p)), read, p)
      ensures var cycle := old(cluster.sys).db.cycle;
              Decides(cycle, LastFailureCode(read.db, cycle.attemptsUsed), RowFor(old(triggers.rows), cycle),
                      preferredHour, now, verdict)
      ensures match verdict
              case Wait => r == AwaitingTrigger
              case NoPlan => r == NotRetryable
              case GateFailed => r == ScheduleFailed
              case Plan(at) =>
                || r == Reserved(at)
                || (r == BudgetRaced && cluster.sys.db.cycle.version > old(cluster.sys).db.cycle.version)
                || (r == ScheduleFailed && Refusable(cluster.sys.db, id, at, z))
      ensures r.Reserved? ==>
                && (exists deliverBy ::
                      DeadlineFits(deliverBy, r.at) && JustReserved(cluster.sys.db, id, r.at, deliverBy))
                && LastFailureCode(read.db, old(cluster.sys).db.cycle.attemptsUsed)
                   == LastFailureCode(old(cluster.sys).db, old(cluster.sys).db.cycle.attemptsUsed)
      ensures r == AwaitingTrigger ==>
                Waits(old(triggers.rows), triggers.rows,
                      TriggerKey(old(cluster.sys).db.cycle.id, old(cluster.sys).db.cycle.attemptsUsed + 1),
                      now, meanwhile)
    {
      hide Inv, Leads, OthersRan, Decides, Waits, JustReserved, Refusable;
      ghost var from := cluster.sys;
      var cycle := cluster.sys.db.cycle;
      var lastCode;
      lastCode, read := ReadCycle(p);
      var decided := PlanFor(cycle, lastCode, preferredHour, now, meanwhile);
      verdict := decided;
      match decided {
        case Wait =>
          Stop(p, from);
          r := AwaitingTrigger;
        case NoPlan =>
          Stop(p, from);
          r := NotRetryable;
        case GateFailed =>
          Stop(p, from);
          r := ScheduleFailed;
        case Plan(at) =>
          r := ReservePlan(p, id, at, z, from);
      }
    }

    /** The claim query's row, then lastFailureCode. */
    method ReadCycle(p: nat) returns (lastCode: Option<FailureCode>, ghost read: Sys)
      requires Inv(cluster.sys) && Enabled(cluster.sys, TakeSnapshot(p))
      modifies cluster
      ensures Inv(cluster.sys) && Leads(old(cluster.sys), cluster.sys) && p in cluster.sys.procs
      ensures var cycle := old(cluster.sys).db.cycle;
              && cluster.sys.procs[p] == Coded(cycle.version, cycle.attemptsUsed, lastCode)
              && cycle.version <= cluster.sys.db.cycle.version
              && OthersRan(Apply(old(cluster.sys), TakeSnapshot(p)), read, p)
              && lastCode == LastFailureCode(read.db, cycle.attemptsUsed)
              && (cluster.sys.db.cycle.version == cycle.version ==>
                    lastCode == LastFailureCode(old(cluster.sys).db, cycle.attemptsUsed))
    {
      hide Inv, Leads, OthersRan, LastFailureCode;
      ghost var from := cluster.sys;
      LeadsToItself(from);
      cluster.Do(TakeSnapshot(p), from);
      ghost var taken := cluster.sys;
      lastCode, read := LastCode(p, from);
      SameVersionSameCode(taken, read, from.db.cycle.attemptsUsed);
    }

    method LastCode(p: nat, ghost from: Sys) returns (lastCode: Option<FailureCode>, ghost read: Sys)
      requires Inv(cluster.sys) && Leads(from, cluster.sys) && p in cluster.sys.procs && cluster.sys.procs[p].Snapshot?
      modifies cluster
      ensures Inv(cluster.sys) && Leads(from, cluster.sys) && p in cluster.sys.procs
      ensures cluster.sys.procs[p] == Coded(old(cluster.sys).procs[p].version, old(cluster.sys).procs[p].used, lastCode)
      ensures OthersRan(old(cluster.sys), read, p) && Onward(old(cluster.sys), read) && cluster.sys.db == read.db
      ensures lastCode == LastFailureCode(read.db, old(cluster.sys).procs[p].used)
    {
      hide Inv, Leads, Onward, OthersRan, LastFailureCode;
      cluster.Interfere(p, from);
      RecordIsOk(cluster.sys, p);
      read := cluster.sys;
      cluster.Do(LoadCode(p), from);
      lastCode := cluster.sys.procs[p].lastCode;
    }

    /** The three ways to a plan. */
    method PlanFor(cycle: Cycle, lastCode: Option<FailureCode>, preferredHour: Option<int>, now: Time,
                   meanwhile: seq<TriggerOp>)
      returns (verdict: Verdict)
      modifies triggers
      ensures Decides(cycle, lastCode, RowFor(old(triggers.rows), cycle), preferredHour, now, verdict)
      ensures verdict.Plan? ==>
                && HasPlan(cycle.attemptsUsed, lastCode) && FreeAt(verdict.at) && !Blocked(verdict.at)
                && (|| verdict.at >= now + 24 * HOUR + 15 * MINUTE
                    || Confirmed(triggers.rows, TriggerKey(cycle.id, cycle.attemptsUsed + 1), verdict.at))
      ensures verdict == Wait ==>
                Waits(old(triggers.rows), triggers.rows, TriggerKey(cycle.id, cycle.attemptsUsed + 1), now, meanwhile)
    {
      hide MandatedSlot, AfterWindows, First, Next, FreeAt, Blocked, GateDecides, Waits;
      if cycle.attemptsUsed == 0 {
        PlansAreMandated(cycle.dueDate, 0, RetryNow, preferredHour, now);
        MandatedSlotMeetsEveryRule(cycle.dueDate, 0, preferredHour, now);
        return Plan(First(cycle.dueDate, preferredHour, now));
      }
      if lastCode == Some(InsufficientFunds) {
        verdict := Gated(cycle, preferredHour, now, meanwhile);
        return;
      }
      var class_ := if lastCode.Some? then Classify(lastCode.value).0 else ManualReview;
      if lastCode.Some? {
        CodesSplit(lastCode.value);
      }
      PlansAreMandated(cycle.dueDate, cycle.attemptsUsed, class_, preferredHour, now);
      PlansMeetEveryRule(cycle.dueDate, cycle.attemptsUsed, class_, preferredHour, now);
      var next := Next(cycle.dueDate, cycle.attemptsUsed, class_, preferredHour, now);
      return if next.Some? then Plan(next.value) else NoPlan;
    }

    method Gated(cycle: Cycle, preferredHour: Option<int>, now: Time, meanwhile: seq<TriggerOp>)
      returns (verdict: Verdict)
      modifies triggers
      ensures GateDecides(cycle, RowFor(old(triggers.rows), cycle), preferredHour, now, verdict)
      ensures verdict.Plan? ==>
                && FreeAt(verdict.at) && !Blocked(verdict.at)
                && (|| verdict.at >= now + 24 * HOUR + 15 * MINUTE
                    || Confirmed(triggers.rows, TriggerKey(cycle.id, cycle.attemptsUsed + 1), verdict.at))
      ensures verdict == Wait ==>
                Waits(old(triggers.rows), triggers.rows, TriggerKey(cycle.id, cycle.attemptsUsed + 1), now, meanwhile)
    {
      hide MandatedSlot, AfterWindows, First, Next, AfterConfirmation, FreeAt, Blocked;
      var k := TriggerKey(cycle.id, cycle.attemptsUsed + 1);
      ghost var found := FindIn(triggers.rows, k);
      PlansAreMandated(cycle.dueDate, cycle.attemptsUsed, RetryLater, preferredHour, now);
      PlansMeetEveryRule(cycle.dueDate, cycle.attemptsUsed, RetryLater, preferredHour, now);
      if found.Some? && found.value.answer.Some? {
        PlansAreMandated(cycle.dueDate, cycle.attemptsUsed, RetryLater, preferredHour,
          found.value.answer.value.respondedAt);
        ConfirmationCountsFromTheAnswer(found.value.answer.value.respondedAt, now);
      }
      var status;
      status, verdict := triggers.Gate(cycle.id, cycle.dueDate, cycle.attemptsUsed, preferredHour, now, meanwhile);
      if status != Done {
        verdict := GateFailed;
      }
    }

    /** Nothing to reserve: the record is dropped. */
    method Stop(p: nat, ghost from: Sys)
      requires Inv(cluster.sys) && Leads(from, cluster.sys) && p in cluster.sys.procs
      modifies cluster
      ensures Inv(cluster.sys) && Leads(from, cluster.sys) && p !in cluster.sys.procs
    {
      hide Inv, Leads;
      cluster.Do(Action.Crash(p), from);
    }

    /** The deadline through its text, then the reservation. It is raced exactly when the version has
        moved from the one read; an error has one of four reasons. */
    method ReservePlan(p: nat, id: string, at: Time, z: Zone, ghost from: Sys) returns (r: ScheduleResult)
      requires Inv(cluster.sys) && Leads(from, cluster.sys) && p in cluster.sys.procs && cluster.sys.procs[p].Coded?
      requires HasPlan(cluster.sys.procs[p].used, cluster.sys.procs[p].lastCode)
      modifies cluster
      ensures Inv(cluster.sys) && Leads(from, cluster.sys) && p !in cluster.sys.procs
      ensures r == Reserved(at) || r == BudgetRaced || r == ScheduleFailed
      ensures r.Reserved? ==> exists deliverBy ::
                DeadlineFits(deliverBy, at) && JustReserved(cluster.sys.db, id, at, deliverBy)
      ensures r.Reserved? ==> old(cluster.sys).db.cycle.version <= old(cluster.sys).procs[p].version
      ensures r == BudgetRaced ==> cluster.sys.db.cycle.version > old(cluster.sys).procs[p].version
      ensures r == ScheduleFailed ==> Refusable(cluster.sys.db, id, at, z)
    {
      hide Inv, Leads, Onward, JustReserved, HasPlan;
      ghost var was := cluster.sys;
      cluster.Interfere(p, from);
      VersionGrows(was, cluster.sys);
      var deliverBy := Deadline(at, z);
      if deliverBy == None {
        Stop(p, from);
        return ScheduleFailed;
      }
      var status := ReserveUntil(p, id, at, deliverBy.value, from);
      r := if status == Done then Reserved(at) else if status == Conflict then BudgetRaced else ScheduleFailed;
    }

    /** The deadline, printed and parsed. */
    method Deadline(at: Time, z: Zone) returns (deliverBy: Option<Time>)
      ensures deliverBy.Some? ==> DeadlineFits(deliverBy.value, at)
      ensures deliverBy.None? <==> !FourDigitYear(LocalYear(at - NOTICE_LEAD, z))
    {
      hide Format, Parse, LocalYear;
      DeadlineSurvivesText(at, z);
      deliverBy := Parse(Format(at - NOTICE_LEAD, z));
    }

    method ReserveUntil(p: nat, id: string, at: Time, deliverBy: Time, ghost from: Sys) returns (status: Status)
      requires Inv(cluster.sys) && Leads(from, cluster.sys) && p in cluster.sys.procs && cluster.sys.procs[p].Coded?
      requires HasPlan(cluster.sys.procs[p].used, cluster.sys.procs[p].lastCode)
      modifies cluster
      ensures Inv(cluster.sys) && Leads(from, cluster.sys) && p !in cluster.sys.procs
      ensures status == Done ==>
                && JustReserved(cluster.sys.db, id, at, deliverBy)
                && old(cluster.sys).db.cycle.version == old(cluster.sys).procs[p].version
      ensures status == Conflict ==> cluster.sys.db.cycle.version > old(cluster.sys).procs[p].version
      ensures status != Done && status != Conflict ==>
                id == "" || IdTaken(cluster.sys.db.attempts, id) || |cluster.sys.db.attempts| >= 4
    {
      hide Inv, Leads, JustReserved;
      status := Reserve(cluster.sys.db, cluster.sys.procs[p].version, id, at, deliverBy).1;
      ReservingIsSound(cluster.sys, p, id, at, deliverBy);
      cluster.Do(ReserveSlot(p, id, at, deliverBy), from);
    }
  }

  lemma VersionGrows(s: Sys, t: Sys)
    requires Onward(s, t)
    ensures s.db.cycle.version <= t.db.cycle.version
  {
  }

  /** While the version stands still and every attempt is closed, so does the newest failure code. */
  lemma SameVersionSameCode(s: Sys, t: Sys, used: int)
    requires Onward(s, t) && Schedulable(s.db)
    ensures s.db.cycle.version <= t.db.cycle.version
    ensures t.db.cycle.version == s.db.cycle.version ==> LastFailureCode(t.db, used) == LastFailureCode(s.db, used)
  {
    if t.db.cycle.version == s.db.cycle.version {
      assert |t.db.attempts| == |s.db.attempts|;
      forall i | 0 <= i < |s.db.attempts|
        ensures t.db.attempts[i].code == s.db.attempts[i].code
      {
        assert RowMoves(s.db.attempts[i], t.db.attempts[i]);
      }
      SameCodes(s.db.attempts, t.db.attempts);
    }
  }

  lemma {:induction false} SameCodes(a: seq<Attempt>, b: seq<Attempt>)
    requires |a| == |b| && forall i | 0 <= i < |a| :: a[i].code == b[i].code
    ensures NewestCode(a) == NewestCode(b)
  {
    if a != [] {
      SameCodes(a[..|a| - 1], b[..|b| - 1]);
    }
  }

  lemma ReservingIsSound(s: Sys, p: nat, id: string, at: Time, deliverBy: Time)
    requires Inv(s) && Enabled(s, ReserveSlot(p, id, at, deliverBy))
    ensures var status := Reserve(s.db, s.procs[p].version, id, at, deliverBy).1;
            var s' := Apply(s, ReserveSlot(p, id, at, deliverBy));
            && (status == Done ==>
                  JustReserved(s'.db, id, at, deliverBy) && s.db.cycle.version == s.procs[p].version)
            && (status == Conflict ==> s'.db.cycle.version > s.procs[p].version)
            && (status != Done && status != Conflict ==>
              id == "" || IdTaken(s'.db.attempts, id) || |s'.db.attempts| >= 4)
  {
    hide Bank.Inv, TimesInv, FencesInv, BankAgrees, NetInv, GrantsInv, RecordedInv;
    assert ProcOk(s, s.procs[p]);
    if s.procs[p].version == s.db.cycle.version {
      assert HoldsVersion(s.procs[p], s.db.cycle.version);
    }
  }

  lemma NoticeOfRow(s: Sys, i: nat)
    requires Inv(s) && i < |s.db.attempts|
    ensures i < |s.db.outbox| == |s.db.attempts| && s.db.outbox[i].attemptId == s.db.attempts[i].id
  {
    assert AttemptOk(s.db, i);
  }

  lemma RowsHaveNotices(s: Sys)
    requires Inv(s)
    ensures |s.db.attempts| == |s.db.outbox|
  {
  }

  /** In every reachable state the planner gives a pending cycle that has used attempts its mandated
      slot if its newest failure code is in the table, and otherwise none. */
  lemma PendingCyclesGetASlot(s: Sys, actions: seq<Action>, t: Sys, hour: Option<int>, now: Time)
    requires Init(s) && Runs(s, actions, t) && t.db.cycle.state == Pending && t.db.cycle.attemptsUsed > 0
    ensures var used := t.db.cycle.attemptsUsed;
            var code := LastFailureCode(t.db, used);
            && code.Some? && 1 <= used <= 3 && (code.value in RETRIED || code.value.Other?)
            && Next(t.db.cycle.dueDate, used, Classify(code.value).0, hour, now)
               == if code.value in RETRIED
                 then Some(MandatedSlot(t.db.cycle.dueDate, MandatedDays(used).value, hour, now))
                  else None
  {
    hide Init, Runs, Schedulable, LastFailureCode, Next, MandatedSlot;
    Safety.PendingCyclesCanBePlanned(s, actions, t);
    CodesSplit(LastFailureCode(t.db, t.db.cycle.attemptsUsed).value);
    PlansAreMandated(t.db.cycle.dueDate, t.db.cycle.attemptsUsed,
                       Classify(LastFailureCode(t.db, t.db.cycle.attemptsUsed).value).0, hour, now);
  }

  class Relay {
    const cluster: Cluster

    constructor (cluster: Cluster)
      ensures this.cluster == cluster
    {
      this.cluster := cluster;
    }

    /** ProcessOne: cancel and refund after the deadline, otherwise send and record. `clock` is the
        relay's clock when it starts, `sent` whether the sender succeeded, `at` the relay's clock when
        it records the delivery; `met` is the state just before its one write. */
    method ProcessOne(p: nat, i: nat, clock: Time, sent: bool, at: Time) returns (r: RelayResult, ghost met: Sys)
      requires Inv(cluster.sys) && Enabled(cluster.sys, PickNotice(p, i))
      modifies cluster
      ensures Inv(cluster.sys) && Leads(old(cluster.sys), cluster.sys) && p !in cluster.sys.procs
      ensures OthersRan(Apply(old(cluster.sys), PickNotice(p, i)), met, p)
      ensures i < |met.db.attempts| == |met.db.outbox|
      ensures var late := clock > old(cluster.sys).db.outbox[i].deliverBy;
              if late then r == TooLate && Cancelled(met, cluster.sys, i)
              else if !sent then r == SendFailed && cluster.sys.db == met.db
              else if met.db.outbox[i].deliveredAt == None then r == Delivered && RecordedAt(met, cluster.sys, i, at)
              else r == DeliveryFailed && cluster.sys.db == met.db
    {
      hide Inv, Leads, OthersRan, Onward, Cancelled, RecordedAt;
      ghost var from := cluster.sys;
      LeadsToItself(from);
      var late := clock > cluster.sys.db.outbox[i].deliverBy;
      cluster.Do(PickNotice(p, i), from);
      cluster.Interfere(p, from);
      RecordIsOk(cluster.sys, p);
      RowsHaveNotices(cluster.sys);
      met := cluster.sys;
      if late {
        Cancel(p, i, from);
        r := TooLate;
      } else if !sent {
        cluster.Do(Action.Crash(p), from);
        r := SendFailed;
      } else {
        r := Record(p, i, at, from);
      }
    }

    method Cancel(p: nat, i: nat, ghost from: Sys)
      requires Inv(cluster.sys) && Leads(from, cluster.sys) && At(cluster.sys, p) && cluster.sys.procs[p] == Noticing(i)
      modifies cluster
      ensures Inv(cluster.sys) && Leads(from, cluster.sys) && p !in cluster.sys.procs
      ensures Cancelled(old(cluster.sys), cluster.sys, i)
    {
      hide Inv, Leads;
      if Open(cluster.sys.db.attempts[i]) {
        RefundGoesThrough(cluster.sys, i);
      }
      cluster.Do(CancelNotice(p), from);
    }

    method Record(p: nat, i: nat, at: Time, ghost from: Sys) returns (r: RelayResult)
      requires Inv(cluster.sys) && Leads(from, cluster.sys) && At(cluster.sys, p) && cluster.sys.procs[p] == Noticing(i)
      modifies cluster
      ensures Inv(cluster.sys) && Leads(from, cluster.sys) && p !in cluster.sys.procs
      ensures i < |old(cluster.sys).db.outbox|
      ensures if old(cluster.sys).db.outbox[i].deliveredAt == None
              then r == Delivered && RecordedAt(old(cluster.sys), cluster.sys, i, at)
              else r == DeliveryFailed && cluster.sys.db == old(cluster.sys).db
    {
      hide Inv, Leads;
      NoticeOfRow(cluster.sys, i);
      DeliversOne(cluster.sys, i, at);
      var undelivered := cluster.sys.db.outbox[i].deliveredAt == None;
      cluster.Do(Deliver(p, at), from);
      r := if undelivered then Delivered else DeliveryFailed;
    }
  }

  /** The attempt is given back if it was neither fired nor closed; otherwise nothing changes. */
  predicate Cancelled(s: Sys, t: Sys, i: nat)
    requires i < |s.db.attempts|
  {
    var row := s.db.attempts[i];
    if row.firedAt == None && row.outcome == None then
      && t.db.attempts == s.db.attempts[i := row.(outcome := Some(AbandonedStale))]
      && t.db.cycle == s.db.cycle.(attemptsUsed := s.db.cycle.attemptsUsed - 1, state := Pending)
      && t.db.outbox == s.db.outbox && t.db.lease == s.db.lease
    else t.db == s.db
  }

  /** Exactly this notice is recorded as delivered, at this time. */
  predicate RecordedAt(s: Sys, t: Sys, i: nat, at: Time)
    requires i < |s.db.outbox|
  {
    t.db == s.db.(outbox := s.db.outbox[i := s.db.outbox[i].(deliveredAt := Some(at))])
  }

  /** Only one notice is the attempt's. */
  lemma DeliversOne(s: Sys, i: nat, at: Time)
    requires Inv(s) && i < |s.db.attempts|
    ensures i < |s.db.outbox|
    ensures DeliverNotice(s.db, s.db.attempts[i].id, at).0
         == if s.db.outbox[i].deliveredAt == None
            then s.db.(outbox := s.db.outbox[i := s.db.outbox[i].(deliveredAt := Some(at))]) else s.db
  {
    hide Bank.Inv, TimesInv, FencesInv, BankAgrees, NetInv, GrantsInv, ProcsInv, ReadyInv, RecordedInv;
    forall n | 0 <= n < |s.db.outbox|
      ensures s.db.outbox[n].attemptId == s.db.attempts[i].id <==> n == i
    {
      assert AttemptOk(s.db, n);
    }
  }
}
