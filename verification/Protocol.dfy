/** The retry protocol of one mandate cycle as a state machine: the rows in Postgres, the bank,
    the debit requests on the network, and any number of scheduler, worker, reconciler and notice
    relay runs, each a local record of what it has read and where it stands. Every store
    transaction, every bank section and every send is one atomic step; everything else
    interleaves freely. A crash drops a local record. */
module Protocol {
  import opened Domain
  import opened Classification
  import opened Keys
  import opened CycleTables
  import Ledger
  import Bank = DebitHandler

  type Request = Ledger.Request

  /** One run of a process, with the values it carries in memory. Attempts are named by their
      position among the cycle's rows. */
  datatype Proc =
    // FireOne, internal/execute/execute.go:54-134
    | Claimed(i: nat)                                  // handed a due attempt
    | Leased(i: nat, fence: int)                       // lease acquired, fence captured
    | NoticeMissing(i: nat)                            // the notice gate said no
    | Cleared(i: nat, fence: int)                      // the notice gate said yes
    | Loaded(i: nat, fence: int, used: int)            // cycle row read
    | Marked(i: nat, fence: int, used: int)            // fired_at written, debit not yet sent
    | Waiting(i: nat, fence: int, used: int)           // debit sent
    | Recorded(i: nat, used: int, outcome: Outcome, code: Option<FailureCode>) // cycle not yet advanced
    // scheduleTick and ScheduleNext
    | Snapshot(version: int, used: int)                // cycle row of the claim query
    | Coded(version: int, used: int, lastCode: Option<FailureCode>)
    // Resolve, internal/reconcile/reconcile.go:54-106
    | Picked(i: nat)
    | Polling(i: nat, tries: nat)
    | Answered(i: nat, outcome: Outcome)
    | Unanswered(i: nat)
    // ProcessOne, internal/outbox/outbox.go:56-76
    | Noticing(i: nat)

  const WORKER_LEASE: Time := 30 * SECOND
  const RECONCILER_LEASE: Time := 5 * MINUTE
  const MAX_TRIES := 5

  /** Past its slot by more than this, an attempt is abandoned instead of fired. */
  const STALE_AFTER: Time := 10 * MINUTE

  /** One lease period: the fence handed out and the database time it covers. */
  datatype Grant = Grant(fence: int, from: Time, until: Time)

  /** `late` and `grants` are history: the attempts marked fired when they already had an
      outcome, and every lease period so far. No step reads them. */
  datatype Sys = Sys(now: Time, db: Tables, bank: Bank.Bank, net: set<Request>, procs: map<nat, Proc>,
                     late: set<nat>, grants: seq<Grant>)

  datatype Action =
    | Tick(to: Time)                                   // the database clock moves on
    | OtherRequest(r: Request)                         // a debit request of another cycle
    | BankStep(a: Bank.Action)
    | Crash(p: nat)
    | ClaimDue(p: nat, i: nat)
    | AbandonStale(p: nat)
    | Acquire(p: nat, holder: string)
    | CheckNotice(p: nat)
    | AbandonMissing(p: nat)
    | LoadCycle(p: nat)
    | Mark(p: nat)
    | Send(p: nat)
    | RecordTimeout(p: nat)
    | RecordReply(p: nat, h: nat)
    | Advance(p: nat, class_: FailureClass)
    | TakeSnapshot(p: nat)
    | LoadCode(p: nat)
    | ReserveSlot(p: nat, id: string, scheduledFor: Time, deliverBy: Time)
    | PickUnresolved(p: nat, i: nat)
    | Poll(p: nat)
    | Hold(p: nat)
    | Resolve(p: nat)
    | PickNotice(p: nat, i: nat)
    | CancelNotice(p: nat)
    | Deliver(p: nat, at: Time)

  /** The debit request for a fired attempt. */
  function RequestFor(s: Sys, i: nat, fence: int): Request
    requires i < |s.db.attempts|
  {
    Ledger.Request(s.db.cycle.id, s.db.attempts[i].key, fence, s.db.cycle.amountPaise, s.db.cycle.rail)
  }

  /** The position a record names exists; part of the invariant, needed to define steps. */
  predicate InRange(s: Sys, q: Proc) {
    q.Snapshot? || q.Coded? || q.i < |s.db.attempts|
  }

  /** A scheduler finds a plan: the first slot, or a fixed slot for a code the table retries.
      Insufficient funds also waits for the balance trigger, which only delays the step. */
  predicate HasPlan(used: int, lastCode: Option<FailureCode>) {
    || used == 0
    || lastCode == Some(InsufficientFunds)
    || (lastCode.Some? && !Final(Classify(lastCode.value).0) && 1 <= used <= 3)
  }

  predicate At(s: Sys, p: nat) {
    p in s.procs && InRange(s, s.procs[p])
  }

  predicate Enabled(s: Sys, a: Action) {
    match a
    case Tick(to) => s.now <= to
    case OtherRequest(r) => r.cycle != s.db.cycle.id
    case BankStep(b) => Bank.Enabled(s.bank, s.net, b) && Bank.HandlersWellFormed(s.bank)
    case Crash(p) => p in s.procs
    case ClaimDue(p, i) => p !in s.procs && i < |s.db.attempts| && Due(s.db.attempts[i], s.now)
    case AbandonStale(p) => At(s, p) && s.procs[p].Claimed?
    case Acquire(p, holder) => At(s, p) && (s.procs[p].Claimed? || s.procs[p].Picked?)
    case CheckNotice(p) => At(s, p) && s.procs[p].Leased?
    case AbandonMissing(p) => At(s, p) && s.procs[p].NoticeMissing?
    case LoadCycle(p) => At(s, p) && s.procs[p].Cleared?
    case Mark(p) => At(s, p) && s.procs[p].Loaded?
    case Send(p) => At(s, p) && s.procs[p].Marked?
    case RecordTimeout(p) => At(s, p) && (s.procs[p].Marked? || s.procs[p].Waiting?)
    case RecordReply(p, h) =>
      && At(s, p) && s.procs[p].Waiting?
      && h in s.bank.handlers && s.bank.handlers[h].Done? && s.bank.handlers[h].reply.Ok?
      && s.bank.handlers[h].req == RequestFor(s, s.procs[p].i, s.procs[p].fence)
    case Advance(p, class_) =>
      && At(s, p) && s.procs[p].Recorded?
      && (s.procs[p].outcome == Failure && s.procs[p].code.Some? ==> WorkerMayClassify(s.procs[p].code.value, class_))
    case TakeSnapshot(p) => p !in s.procs && Schedulable(s.db)
    case LoadCode(p) => At(s, p) && s.procs[p].Snapshot?
    case ReserveSlot(p, _, _, _) => At(s, p) && s.procs[p].Coded? && HasPlan(s.procs[p].used, s.procs[p].lastCode)
    case PickUnresolved(p, i) => p !in s.procs && i < |s.db.attempts| && NeedsReconciliation(s.db.attempts[i])
    case Poll(p) => At(s, p) && s.procs[p].Polling?
    case Hold(p) => At(s, p) && s.procs[p].Unanswered?
    case Resolve(p) => At(s, p) && s.procs[p].Answered?
    case PickNotice(p, i) =>
      && p !in s.procs && i < |s.db.attempts| && i < |s.db.outbox|
      && s.db.outbox[i].deliveredAt == None && s.db.attempts[i].outcome == None
    case CancelNotice(p) => At(s, p) && s.procs[p].Noticing?
    case Deliver(p, _) => At(s, p) && s.procs[p].Noticing?
  }

  function Become(s: Sys, p: nat, q: Proc): Sys {
    s.(procs := s.procs[p := q])
  }

  function Finish(s: Sys, p: nat): Sys {
    s.(procs := s.procs - {p})
  }

  /** advanceCycle: one unguarded write of the state column. */
  function AdvancedState(q: Proc, class_: FailureClass): Option<State>
    requires q.Recorded?
  {
    if q.outcome == Success then Some(Recovered)
    else if q.outcome != Failure then None
    else if Final(class_) then Some(Escalated)
    else if q.used >= MAX_ATTEMPTS then Some(Abandoned)
    else Some(Pending)
  }

  function AcquireStep(s: Sys, p: nat, holder: string): Sys
    requires p in s.procs && (s.procs[p].Claimed? || s.procs[p].Picked?)
  {
    var q := s.procs[p];
    var ttl := if q.Claimed? then WORKER_LEASE else RECONCILER_LEASE;
    var (db, fence) := AcquireLease(s.db, holder, ttl, s.now);
    match fence
    case None => Finish(s, p)
    case Some(f) =>
      var s' := s.(db := db, grants := s.grants + [Grant(f, s.now, s.now + ttl)]);
      Become(s', p, if q.Claimed? then Leased(q.i, f) else Polling(q.i, 0))
  }

  function MarkStep(s: Sys, p: nat): Sys
    requires At(s, p) && s.procs[p].Loaded?
  {
    var q := s.procs[p];
    var (db, status) := MarkFired(s.db, q.i, q.fence, s.now);
    if status != Done then Finish(s, p)
    else
      var late := if s.db.attempts[q.i].outcome.Some? then s.late + {q.i} else s.late;
      Become(s.(db := db, late := late), p, Marked(q.i, q.fence, q.used))
  }

  function RecordReplyStep(s: Sys, p: nat, h: nat): Sys
    requires Enabled(s, RecordReply(p, h))
  {
    var q, reply := s.procs[p], s.bank.handlers[h].reply;
    var (db, status) := RecordOutcome(s.db, q.i, reply.outcome, reply.code);
    if status != Done then Finish(s, p)
    else Become(s.(db := db), p, Recorded(q.i, q.used, reply.outcome, reply.code))
  }

  function PollStep(s: Sys, p: nat): Sys
    requires At(s, p) && s.procs[p].Polling?
  {
    var q := s.procs[p];
    var key := s.db.attempts[q.i].key;
    if key in s.bank.disk.mem.debits then Become(s, p, Answered(q.i, s.bank.disk.mem.debits[key].outcome))
    else if q.tries + 1 >= MAX_TRIES then Become(s, p, Unanswered(q.i))
    else Become(s, p, Polling(q.i, q.tries + 1))
  }

  function ResolveStep(s: Sys, p: nat): Sys
    requires At(s, p) && s.procs[p].Answered?
  {
    var q := s.procs[p];
    var db := if q.outcome == Success then ResolveDebited(s.db, q.i).0 else ResolveNotDebited(s.db, q.i).0;
    Finish(s.(db := db), p)
  }

  /** The state after a step. */
  function Apply(s: Sys, a: Action): Sys
    requires Enabled(s, a)
  {
    match a
    case Tick(to) => s.(now := to)
    case OtherRequest(r) => s.(net := s.net + {r})
    case BankStep(b) => s.(bank := Bank.Apply(s.bank, s.net, b))
    case Crash(p) => Finish(s, p)
    case ClaimDue(p, i) => Become(s, p, Claimed(i))
    case AbandonStale(p) => Finish(s.(db := Abandon(s.db, s.procs[p].i).0), p)
    case Acquire(p, holder) => AcquireStep(s, p, holder)
    case CheckNotice(p) =>
      var q := s.procs[p];
      var attempt := s.db.attempts[q.i];
      Become(s, p, if NoticeDelivered(s.db, attempt.id, attempt.scheduledFor)
                   then Cleared(q.i, q.fence) else NoticeMissing(q.i))
    case AbandonMissing(p) => Finish(s.(db := Abandon(s.db, s.procs[p].i).0), p)
    case LoadCycle(p) =>
      Become(s, p, Loaded(s.procs[p].i, s.procs[p].fence, s.db.cycle.attemptsUsed))
    case Mark(p) => MarkStep(s, p)
    case Send(p) =>
      var q := s.procs[p];
      Become(s.(net := s.net + {RequestFor(s, q.i, q.fence)}), p, Waiting(q.i, q.fence, q.used))
    case RecordTimeout(p) => Finish(s.(db := RecordOutcome(s.db, s.procs[p].i, Timeout, None).0), p)
    case RecordReply(p, h) => RecordReplyStep(s, p, h)
    case Advance(p, class_) =>
      var state := AdvancedState(s.procs[p], class_);
      Finish(if state.Some? then s.(db := SetState(s.db, state.value)) else s, p)
    case TakeSnapshot(p) => Become(s, p, Snapshot(s.db.cycle.version, s.db.cycle.attemptsUsed))
    case LoadCode(p) =>
      var q := s.procs[p];
      Become(s, p, Coded(q.version, q.used, LastFailureCode(s.db, q.used)))
    case ReserveSlot(p, id, scheduledFor, deliverBy) =>
      Finish(s.(db := Reserve(s.db, s.procs[p].version, id, scheduledFor, deliverBy).0), p)
    case PickUnresolved(p, i) => Become(s, p, Picked(i))
    case Poll(p) => PollStep(s, p)
    case Hold(p) => Finish(s.(db := SetState(s.db, Held)), p)
    case Resolve(p) => ResolveStep(s, p)
    case PickNotice(p, i) => Become(s, p, Noticing(i))
    case CancelNotice(p) => Finish(s.(db := Abandon(s.db, s.procs[p].i).0), p)
    case Deliver(p, at) => Finish(s.(db := DeliverNotice(s.db, s.db.attempts[s.procs[p].i].id, at).0), p)
  }

  /** What production creates: an empty cycle with nothing of it on the network or in the bank's
      indexes. A process that creates a cycle and reserves at once (`create --fire-in`) holds the
      new row's version already. */
  ghost predicate Init(s: Sys) {
    && s.db == Fresh(s.db.cycle.id, s.db.cycle.rail, s.db.cycle.amountPaise, s.db.cycle.dueDate)
    && (forall p | p in s.procs :: s.procs[p] == Coded(0, 0, None))
    && s.late == {} && s.grants == []
    && Bank.Inv(s.bank, s.net)
    && forall r | r in s.net :: r.cycle != s.db.cycle.id
  }

  /** The actions take the system from s to t, each enabled in the state it starts from. */
  ghost predicate Runs(s: Sys, actions: seq<Action>, t: Sys)
    decreases |actions|
  {
    if actions == [] then s == t
    else Enabled(s, actions[0]) && Runs(Apply(s, actions[0]), actions[1..], t)
  }

  /** No mark in the run hits an attempt that already has an outcome. */
  ghost predicate OpenFiring(s: Sys, actions: seq<Action>)
    decreases |actions|
  {
    actions != [] && Enabled(s, actions[0]) ==>
      && !LateMark(s, actions[0])
      && OpenFiring(Apply(s, actions[0]), actions[1..])
  }

  /** The mark that succeeds on an attempt already closed: its guard looks at `fired_at` only. */
  predicate LateMark(s: Sys, a: Action)
    requires Enabled(s, a)
  {
    a.Mark? &&
      var attempt := s.db.attempts[s.procs[a.p].i];
      attempt.firedAt == None && attempt.outcome.Some? && s.procs[a.p].fence > 0
  }
}
