/** Reachable states in which the code promises less than one might expect, each at the end of a run
    the code takes by its own clocks and plans. */
module Witnesses {
  import opened Domain
  import opened Classification
  import opened Keys
  import opened Slots
  import opened CycleTables
  import opened Protocol
  import opened Invariant
  import opened Safety
  import opened Reachable
  import opened LateFire
  import L = Ledger
  import Bank = DebitHandler

  // ---------------------------------------------------------------------------------------
  // Budget left, and no way to use it

  /** A pending cycle all of whose n attempts were given back. */
  ghost predicate Wasted(s: Sys, n: nat) {
    && Reached(s) && s.procs == map[]
    && s.db.cycle.state == Pending && s.db.cycle.attemptsUsed == 0
    && |s.db.attempts| == |s.db.outbox| == n
    && forall i | 0 <= i < n :: s.db.attempts[i].outcome == Some(AbandonedStale) && |s.db.attempts[i].id| == i + 1
  }

  function LongId(n: nat): (id: string)
    ensures |id| == n
  {
    seq(n, i => 'a')
  }

  /** The n-th attempt has been reserved and its notice is queued. */
  ghost predicate Pushed(s: Sys, n: nat, deliverBy: Time) {
    && Reached(s) && s.procs == map[]
    && s.db.cycle.attemptsUsed == 1 && |s.db.attempts| == |s.db.outbox| == n + 1
    && (forall i | 0 <= i < n :: s.db.attempts[i].outcome == Some(AbandonedStale))
    && (forall i | 0 <= i <= n :: |s.db.attempts[i].id| == i + 1)
    && s.db.attempts[n].outcome == None && s.db.attempts[n].firedAt == None
    && s.db.outbox[n].deliveredAt == None && s.db.outbox[n].deliverBy == deliverBy && s.now <= deliverBy
  }

  lemma Snapshot(s: Sys, n: nat) returns (s': Sys)
    requires Wasted(s, n)
    ensures Reached(s') && s' == s.(procs := map[0 := Coded(s.db.cycle.version, 0, None)])
  {
    hide Reached;
    s' := Then(s, TakeSnapshot(0));
    s' := Then(s', LoadCode(0));
    assert s'.procs == map[0 := Coded(s.db.cycle.version, 0, None)];
  }

  lemma Push(s: Sys, n: nat) returns (s': Sys, deliverBy: Time)
    requires Wasted(s, n) && n < MAX_ATTEMPTS
    ensures Pushed(s', n, deliverBy)
  {
    hide Reached, First;
    var at := First(s.db.cycle.dueDate, None, s.now);
    deliverBy := at - NOTICE_LEAD;
    PlansMeetEveryRule(s.db.cycle.dueDate, 0, RetryNow, None, s.now);
    s' := Snapshot(s, n);
    s' := Then(s', ReserveSlot(0, LongId(n + 1), at, deliverBy));
    assert s'.procs == map[];
    assert s'.db.attempts == s.db.attempts + [NewAttempt(s.db, LongId(n + 1), at)];
  }

  /** The relay finds the notice undelivered after its deadline, and cancels. */
  lemma GiveBack(s: Sys, n: nat, deliverBy: Time) returns (s': Sys)
    requires Pushed(s, n, deliverBy)
    ensures Wasted(s', n + 1)
  {
    hide Reached;
    s' := Then(s, Tick(deliverBy + 1));
    s' := Then(s', PickNotice(0, n));
    assert s'.procs == map[0 := Noticing(n)];
    s' := Then(s', CancelNotice(0));
    assert s'.procs == map[];
  }

  lemma {:induction false} WastedIsReached(n: nat) returns (s: Sys)
    requires n <= MAX_ATTEMPTS
    ensures Wasted(s, n)
  {
    if n == 0 {
      s := Start();
      StartIsReached();
    } else {
      s := WastedIsReached(n - 1);
      var pushed, deliverBy := Push(s, n - 1);
      s := GiveBack(pushed, n - 1, deliverBy);
    }
  }

  /** A reachable pending cycle with its whole budget left and four rows: the scheduler claims it,
      and every reservation is refused. */
  lemma BudgetLeftButNoRow() returns (run: seq<Action>, s: Sys)
    ensures Runs(Start(), run, s) && LifelikeRun(Start(), run)
    ensures Schedulable(s.db) && s.db.cycle.attemptsUsed == 0 && |s.db.attempts| == MAX_ATTEMPTS
    ensures forall id, at, due :: Reserve(s.db, s.db.cycle.version, id, at, due) == (s.db, Invalid)
  {
    s := WastedIsReached(MAX_ATTEMPTS);
    run := ReachedByRun(s);
  }

  // ---------------------------------------------------------------------------------------
  // A pending cycle that is never planned

  const STRANGE := Other("CARD_EXPIRED")

  /** The first attempt fired on time, its debit sent. */
  function Sent(): Sys {
    Stalled().(db := Stalled().db.(cycle := CycleRow(1, 1, InFlight),
                                   attempts := [FirstRow().(firedAt := Some(FIRST_SLOT), fence := Some(1))]),
               net := {FirstRequest()},
               procs := map[1 := Waiting(0, 1, 1)])
  }

  lemma SentIsReached()
    ensures Reached(Sent())
  {
    hide Reached;
    FirstWorkerStalls();
    var s := Then(Stalled(), Mark(1));
    assert s.procs == map[1 := Marked(0, 1, 1)];
    assert s.db.attempts == Sent().db.attempts;
    s := Then(s, Send(1));
    assert s.procs == map[1 := Waiting(0, 1, 1)];
    assert s.net == {FirstRequest()};
  }

  lemma BankRefuses() returns (s: Sys)
    ensures Reached(s) && s == Sent().(bank := s.bank)
    ensures 0 in s.bank.handlers
              && s.bank.handlers[0] == Bank.Done(FirstRequest(), Bank.Ok(Failure, Some(STRANGE), false))
  {
    RequestsAreWellFormed();
    SentIsReached();
    s := BankMisses(Sent(), 0, FirstRequest());
    s := BankFails(s, FirstRequest());
  }

  lemma BankFails(s: Sys, r: Request) returns (s': Sys)
    requires Reached(s) && Bank.HandlersWellFormed(s.bank) && 0 in s.bank.handlers
               && s.bank.handlers[0] == Bank.Missed(r)
    requires r.key !in s.bank.disk.mem.debits
    ensures Reached(s') && s' == s.(bank := s'.bank)
    ensures 0 in s'.bank.handlers && s'.bank.handlers[0] == Bank.Done(r, Bank.Ok(Failure, Some(STRANGE), false))
  {
    hide Reached, Bank.WellFormed;
    s' := BankThen(s, Bank.Decide(0, Failure, Some(STRANGE), 0));
    s' := BankThen(s', Bank.CommitEntry(0, true));
    s' := BankThen(s', Bank.Answer(0));
  }

  /** A reachable pending cycle whose newest failure code is outside the table: the worker returned
      it to pending on the adviser's word, and no scheduler ever finds a plan for it. */
  lemma PendingButNeverPlanned() returns (run: seq<Action>, s: Sys)
    ensures Runs(Start(), run, s) && LifelikeRun(Start(), run)
    ensures Schedulable(s.db) && s.db.cycle.attemptsUsed == 1
    ensures LastFailureCode(s.db, 1) == Some(STRANGE) && !Classify(STRANGE).1 && !HasPlan(1, Some(STRANGE))
  {
    s := BankRefuses();
    s := StrangeFailureAdvances(s);
    run := ReachedByRun(s);
  }

  lemma StrangeFailureAdvances(s: Sys) returns (s': Sys)
    requires Reached(s) && s == Sent().(bank := s.bank)
    requires 0 in s.bank.handlers
               && s.bank.handlers[0] == Bank.Done(FirstRequest(), Bank.Ok(Failure, Some(STRANGE), false))
    ensures Reached(s') && Schedulable(s'.db) && s'.db.cycle.attemptsUsed == 1
              && LastFailureCode(s'.db, 1) == Some(STRANGE)
  {
    hide Reached;
    s' := StrangeFailureIsRecorded(s);
    s' := Then(s', Advance(1, RetryLater));
  }

  lemma StrangeFailureIsRecorded(s: Sys) returns (s': Sys)
    requires Reached(s) && s == Sent().(bank := s.bank)
    requires 0 in s.bank.handlers
               && s.bank.handlers[0] == Bank.Done(FirstRequest(), Bank.Ok(Failure, Some(STRANGE), false))
    ensures Reached(s') && s'.db.cycle == s.db.cycle && s'.procs == map[1 := Recorded(0, 1, Failure, Some(STRANGE))]
    ensures s'.db.attempts == [Sent().db.attempts[0].(outcome := Some(Failure), code := Some(STRANGE))]
  {
    hide Reached, Bank.WellFormed;
    s' := Then(s, RecordReply(1, 0));
    assert s'.procs == map[1 := Recorded(0, 1, Failure, Some(STRANGE))];
  }

  // ---------------------------------------------------------------------------------------
  // Recovered, then held

  /** The debit's answer was lost. */
  function TimedOut(): Sys {
    Sent().(db := Sent().db.(cycle := CycleRow(1, 1, Unknown),
                             attempts := [Sent().db.attempts[0].(outcome := Some(Timeout))]),
            procs := map[])
  }

  const FIRST_LOOK: Time := FIRST_SLOT + 31 * SECOND
  const SECOND_LOOK: Time := FIRST_LOOK + 6 * MINUTE

  /** A reconciler has asked in vain and stalls before it holds the cycle. */
  function AskedInVain(): Sys {
    TimedOut().(now := FIRST_LOOK,
                db := TimedOut().db.(lease := Lease(Some("r1"), 2, FIRST_LOOK + RECONCILER_LEASE)),
                procs := map[2 := Unanswered(0)],
                grants := [Period(1, FIRST_SLOT), Grant(2, FIRST_LOOK, FIRST_LOOK + RECONCILER_LEASE)])
  }

  lemma AnswerIsLost()
    ensures Reached(TimedOut())
  {
    hide Reached;
    SentIsReached();
    var s := Then(Sent(), RecordTimeout(1));
    assert s.procs == map[];
    assert s.db.attempts == TimedOut().db.attempts;
  }

  lemma FirstReconcilerLeases() returns (s: Sys)
    ensures Reached(s) && s == AskedInVain().(procs := map[2 := Polling(0, 0)])
  {
    hide Reached;
    AnswerIsLost();
    s := Then(TimedOut(), Tick(FIRST_LOOK));
    s := Then(s, PickUnresolved(2, 0));
    s := Then(s, Acquire(2, "r1"));
    assert s.procs == map[2 := Polling(0, 0)];
    assert s.grants == AskedInVain().grants;
  }

  lemma {:induction false} AsksInVain(n: nat) returns (s: Sys)
    requires n <= MAX_TRIES
    ensures Reached(s)
    ensures s == AskedInVain().(procs := map[2 := if n < MAX_TRIES then Polling(0, n) else Unanswered(0)])
  {
    hide Reached;
    if n == 0 {
      s := FirstReconcilerLeases();
    } else {
      var before := AsksInVain(n - 1);
      s := Then(before, Poll(2));
      assert s.procs == map[2 := if n < MAX_TRIES then Polling(0, n) else Unanswered(0)];
    }
  }

  /** Then the bank debits, and a second reconciler looks. */
  lemma DebitedAfterAll() returns (s: Sys)
    ensures Reached(s) && s == AskedInVain().(bank := s.bank)
    ensures s.bank.disk.mem.debits.Keys == {FirstRequest().key}
    ensures s.bank.disk.mem.debits[FirstRequest().key].outcome == Success
  {
    RequestsAreWellFormed();
    s := AsksInVain(MAX_TRIES);
    s := BankDebits(s, 0, FirstRequest());
  }

  lemma SecondReconcilerLeases(s: Sys) returns (s': Sys)
    requires Reached(s) && s == AskedInVain().(bank := s.bank)
    ensures Reached(s') && s'.bank == s.bank && s'.db.attempts == s.db.attempts
    ensures s'.procs == map[2 := Unanswered(0), 3 := Polling(0, 0)]
  {
    hide Reached;
    s' := Then(s, Tick(SECOND_LOOK));
    s' := Then(s', PickUnresolved(3, 0));
    s' := Then(s', Acquire(3, "r2"));
    assert s'.procs == map[2 := Unanswered(0), 3 := Polling(0, 0)];
  }

  /** A reachable cycle that is recovered, its one attempt debited, which the next step of a late
      reconciler labels held. */
  lemma RecoveredThenHeld() returns (run: seq<Action>, s: Sys)
    ensures Runs(Start(), run, s) && LifelikeRun(Start(), run)
    ensures s.db.cycle.state == Recovered && Finished(s.db) && s.db.attempts[0].outcome == Some(Success)
    ensures Enabled(s, Hold(2)) && Apply(s, Hold(2)).db.cycle.state == Held
  {
    s := DebitedAfterAll();
    s := SecondReconcilerLeases(s);
    s := SecondReconcilerRecovers(s);
    run := ReachedByRun(s);
  }

  lemma SecondReconcilerRecovers(s: Sys) returns (s': Sys)
    requires Reached(s) && s.procs == map[2 := Unanswered(0), 3 := Polling(0, 0)]
    requires s.db.attempts == TimedOut().db.attempts && s.db.attempts[0].key in s.bank.disk.mem.debits
    requires s.bank.disk.mem.debits[s.db.attempts[0].key].outcome == Success
    ensures Reached(s') && s'.procs == map[2 := Unanswered(0)] && s'.db.cycle.state == Recovered
    ensures |s'.db.attempts| == 1 && s'.db.attempts[0].outcome == Some(Success)
  {
    hide Reached;
    s' := Then(s, Poll(3));
    assert s'.procs == map[2 := Unanswered(0), 3 := Answered(0, Success)];
    s' := Then(s', Protocol.Action.Resolve(3));
    assert s'.procs == map[2 := Unanswered(0)];
  }
}
