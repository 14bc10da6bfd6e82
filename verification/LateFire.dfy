/** A concrete run in which one cycle is debited twice. A worker that has passed the staleness
    check, the lease and the notice gate stalls; more than ten minutes later its attempt is abandoned
    and refunded by another worker, a second attempt is planned, noticed and about to fire; then the
    first worker wakes, and the mark, guarded on `fired_at` only, lets it through before the second
    worker's fence has reached the bank. */
module LateFire {
  import opened Domain
  import opened Keys
  import opened Slots
  import opened CycleTables
  import opened Protocol
  import opened Invariant
  import opened Preservation
  import opened Safety
  import opened Reachable
  import L = Ledger
  import Bank = DebitHandler

  /** The slots planned at 0 and when the first attempt has been abandoned. */
  const FIRST_SLOT: Time := 24 * HOUR + 15 * MINUTE
  const ABANDONED_AT: Time := FIRST_SLOT + STALE_AFTER + SECOND
  const SECOND_SLOT: Time := ABANDONED_AT + 24 * HOUR + 15 * MINUTE

  /** The cycle row after so many reservations, holding one slot. */
  function CycleRow(version: int, used: int, state: State): Cycle {
    Cycle(CYCLE, UpiAutopay, 100, 0, used, state, version)
  }

  function NewRow(id: string, n: nat, at: Time): Attempt {
    Attempt(id, CYCLE, n, NewIdempotencyKey(CYCLE, n), at, None, None, None, None)
  }

  function FirstRow(): Attempt { NewRow("a", 1, FIRST_SLOT) }

  function SecondRow(): Attempt { NewRow("b", 2, SECOND_SLOT) }

  function Abandoned(): Attempt { FirstRow().(outcome := Some(AbandonedStale)) }

  /** A notice with the planner's deadline. */
  function Queued(id: string, slot: Time): Notice {
    Notice(CYCLE, id, slot - NOTICE_LEAD, None)
  }

  function FirstNotice(): Notice { Queued("a", FIRST_SLOT).(deliveredAt := Some(0)) }

  function SecondNotice(): Notice { Queued("b", SECOND_SLOT).(deliveredAt := Some(ABANDONED_AT)) }

  function Period(n: nat, at: Time): Grant {
    Grant(n, at, at + WORKER_LEASE)
  }

  // The states between the phases of the run

  /** The first attempt reserved, its notice not yet delivered. */
  function Undelivered(): Sys {
    Start().(db := Tables(CycleRow(1, 1, Scheduled), [FirstRow()], Lease(None, 0, 0), [Queued("a", FIRST_SLOT)]))
  }

  /** The first attempt reserved and its notice delivered in time. */
  function Reserved(): Sys {
    Start().(db := Tables(CycleRow(1, 1, Scheduled), [FirstRow()], Lease(None, 0, 0), [FirstNotice()]))
  }

  /** Worker 1 has passed every check before the mark. */
  function Stalled(): Sys {
    Reserved().(now := FIRST_SLOT,
                db := Reserved().db.(lease := Lease(Some("w1"), 1, FIRST_SLOT + WORKER_LEASE)),
                procs := map[1 := Loaded(0, 1, 1)],
                grants := [Period(1, FIRST_SLOT)])
  }

  /** Its attempt has been abandoned as stale by another worker. */
  function Refunded(): Sys {
    Stalled().(now := ABANDONED_AT,
               db := Tables(CycleRow(1, 0, Pending), [Abandoned()], Stalled().db.lease, [FirstNotice()]))
  }

  /** A second attempt has been reserved and its notice delivered. */
  function Replaced(): Sys {
    Stalled().(now := ABANDONED_AT,
               db := Tables(CycleRow(2, 1, Scheduled), [Abandoned(), SecondRow()], Stalled().db.lease,
                            [FirstNotice(), SecondNotice()]))
  }

  /** Worker 4 has passed every check for the second attempt. */
  function BothReady(): Sys {
    Replaced().(now := SECOND_SLOT,
                db := Replaced().db.(lease := Lease(Some("w2"), 2, SECOND_SLOT + WORKER_LEASE)),
                procs := map[1 := Loaded(0, 1, 1), 4 := Loaded(1, 2, 1)],
                grants := [Period(1, FIRST_SLOT), Period(2, SECOND_SLOT)])
  }

  function FirstRequest(): Request { L.Request(CYCLE, NewIdempotencyKey(CYCLE, 1), 1, 100, UpiAutopay) }

  function SecondRequest(): Request { L.Request(CYCLE, NewIdempotencyKey(CYCLE, 2), 2, 100, UpiAutopay) }

  /** Worker 1 woke up, marked the abandoned attempt and sent its debit. */
  function LateSent(): Sys {
    BothReady().(db := BothReady().db.(cycle := CycleRow(2, 1, InFlight),
                                       attempts := [Abandoned().(firedAt := Some(SECOND_SLOT), fence := Some(1)),
                                                    SecondRow()]),
                 net := {FirstRequest()},
                 late := {0},
                 procs := map[1 := Waiting(0, 1, 1), 4 := Loaded(1, 2, 1)])
  }

  /** Both slots are the planner's. */
  lemma SlotsArePlanned()
    ensures First(0, None, 0) == FIRST_SLOT && First(0, None, ABANDONED_AT) == SECOND_SLOT
    ensures DeadlineFits(FIRST_SLOT - NOTICE_LEAD, FIRST_SLOT) && DeadlineFits(SECOND_SLOT - NOTICE_LEAD, SECOND_SLOT)
  {
    DateReadsBack(1, 5 * HOUR + 45 * MINUTE);
    DateReadsBack(2, 6 * HOUR + 10 * MINUTE + SECOND);
  }

  lemma SnapshotFirst()
    ensures Reached(Start().(procs := map[0 := Coded(0, 0, None)]))
  {
    var s := Start();
    StartIsReached();
    s := Then(s, TakeSnapshot(0));
    s := Then(s, LoadCode(0));
    assert s.procs == map[0 := Coded(0, 0, None)];
  }

  lemma ReserveFirst()
    ensures Reached(Undelivered())
  {
    SnapshotFirst();
    SlotsArePlanned();
    var s := Then(Start().(procs := map[0 := Coded(0, 0, None)]),
                  ReserveSlot(0, "a", FIRST_SLOT, FIRST_SLOT - NOTICE_LEAD));
    assert s.db.attempts == [FirstRow()] && s.procs == map[];
    assert s.db.outbox == [Queued("a", FIRST_SLOT)];
  }

  lemma DeliverFirst()
    ensures Reached(Reserved())
  {
    var s: Sys := Undelivered();
    ReserveFirst();
    s := Then(s, PickNotice(0, 0));
    s := Then(s, Deliver(0, 0));
    assert s.db.outbox == [FirstNotice()] && s.procs == map[];
  }

  lemma FirstWorkerLeases()
    ensures Reached(Stalled().(procs := map[1 := Leased(0, 1)]))
  {
    var s: Sys := Reserved();
    DeliverFirst();
    s := Then(s, Tick(FIRST_SLOT));
    s := Then(s, ClaimDue(1, 0));
    s := Then(s, Acquire(1, "w1"));
    assert s.procs == map[1 := Leased(0, 1)] && s.grants == [Period(1, FIRST_SLOT)];
  }

  lemma FirstWorkerStalls()
    ensures Reached(Stalled())
  {
    var s: Sys := Stalled().(procs := map[1 := Leased(0, 1)]);
    FirstWorkerLeases();
    assert NoticeDelivered(s.db, "a", FIRST_SLOT) by {
      assert s.db.outbox[0].attemptId == "a" && s.db.outbox[0].deliveredAt == Some(0);
    }
    s := Then(s, CheckNotice(1));
    assert s.procs == map[1 := Cleared(0, 1)];
    s := Then(s, LoadCycle(1));
    assert s.procs == map[1 := Loaded(0, 1, 1)];
  }

  lemma FirstAttemptIsAbandoned()
    ensures Reached(Refunded())
  {
    var s: Sys := Stalled();
    FirstWorkerStalls();
    s := Then(s, Tick(ABANDONED_AT));
    s := Then(s, ClaimDue(2, 0));
    s := Then(s, AbandonStale(2));
    assert s.procs == map[1 := Loaded(0, 1, 1)] && s.db.attempts == [Abandoned()];
  }

  lemma SnapshotSecond()
    ensures Reached(Refunded().(procs := map[1 := Loaded(0, 1, 1), 3 := Coded(1, 0, None)]))
  {
    FirstAttemptIsAbandoned();
    var s := Then(Refunded(), TakeSnapshot(3));
    s := Then(s, LoadCode(3));
    assert s.procs == map[1 := Loaded(0, 1, 1), 3 := Coded(1, 0, None)];
  }

  lemma ReserveSecond()
    ensures Reached(Replaced().(db := Replaced().db.(outbox := [FirstNotice(), Queued("b", SECOND_SLOT)])))
  {
    SnapshotSecond();
    SlotsArePlanned();
    var s := Then(Refunded().(procs := map[1 := Loaded(0, 1, 1), 3 := Coded(1, 0, None)]),
                  ReserveSlot(3, "b", SECOND_SLOT, SECOND_SLOT - NOTICE_LEAD));
    assert s.procs == map[1 := Loaded(0, 1, 1)] && s.db.attempts == [Abandoned(), SecondRow()];
    assert s.db.outbox == [FirstNotice(), Queued("b", SECOND_SLOT)];
  }

  lemma PickSecondNotice()
    ensures Reached(Replaced().(db := Replaced().db.(outbox := [FirstNotice(), Queued("b", SECOND_SLOT)]),
                                procs := map[1 := Loaded(0, 1, 1), 3 := Noticing(1)]))
  {
    ReserveSecond();
    var s := Then(Replaced().(db := Replaced().db.(outbox := [FirstNotice(), Queued("b", SECOND_SLOT)])),
                  PickNotice(3, 1));
    assert s.procs == map[1 := Loaded(0, 1, 1), 3 := Noticing(1)];
  }

  lemma SecondNoticeMarked()
    ensures DeliverNotice(Replaced().db.(outbox := [FirstNotice(), Queued("b", SECOND_SLOT)]), "b", ABANDONED_AT).0
              == Replaced().db
  {
    assert [FirstNotice(), Queued("b", SECOND_SLOT)][1] == Queued("b", SECOND_SLOT);
    var before := Replaced().db.(outbox := [FirstNotice(), Queued("b", SECOND_SLOT)]);
    assert DeliverNotice(before, "b", ABANDONED_AT).0.outbox
           == [FirstNotice(), SecondNotice()];
  }

  lemma DeliverSecond()
    ensures Reached(Replaced())
  {
    PickSecondNotice();
    var s := Then(Replaced().(db := Replaced().db.(outbox := [FirstNotice(), Queued("b", SECOND_SLOT)]),
                              procs := map[1 := Loaded(0, 1, 1), 3 := Noticing(1)]), Deliver(3, ABANDONED_AT));
    SecondNoticeMarked();
    assert s.procs == map[1 := Loaded(0, 1, 1)];
  }

  lemma SecondWorkerClaims()
    ensures Reached(Replaced().(now := SECOND_SLOT, procs := map[1 := Loaded(0, 1, 1), 4 := Claimed(1)]))
  {
    DeliverSecond();
    var s := Then(Replaced(), Tick(SECOND_SLOT));
    s := Then(s, ClaimDue(4, 1));
    assert s.procs == map[1 := Loaded(0, 1, 1), 4 := Claimed(1)];
  }

  lemma SecondWorkerLeases()
    ensures Reached(BothReady().(procs := map[1 := Loaded(0, 1, 1), 4 := Leased(1, 2)]))
  {
    SecondWorkerClaims();
    var s := Then(Replaced().(now := SECOND_SLOT, procs := map[1 := Loaded(0, 1, 1), 4 := Claimed(1)]),
                  Acquire(4, "w2"));
    assert s.procs == map[1 := Loaded(0, 1, 1), 4 := Leased(1, 2)];
    assert s.grants == [Period(1, FIRST_SLOT), Period(2, SECOND_SLOT)];
  }

  lemma SecondGateOpens()
    ensures NoticeDelivered(BothReady().db, "b", SECOND_SLOT)
  {
    assert BothReady().db.outbox[1] == SecondNotice();
  }

  lemma SecondWorkerIsCleared()
    ensures Reached(BothReady().(procs := map[1 := Loaded(0, 1, 1), 4 := Cleared(1, 2)]))
  {
    hide Reached, NoticeDelivered;
    var s := BothReady().(procs := map[1 := Loaded(0, 1, 1), 4 := Leased(1, 2)]);
    SecondWorkerLeases();
    SecondGateOpens();
    assert s.db.attempts[1] == SecondRow();
    s := Then(s, CheckNotice(4));
    assert s.procs == map[1 := Loaded(0, 1, 1), 4 := Cleared(1, 2)];
  }

  lemma SecondWorkerGetsReady()
    ensures Reached(BothReady())
  {
    SecondWorkerIsCleared();
    var s := Then(BothReady().(procs := map[1 := Loaded(0, 1, 1), 4 := Cleared(1, 2)]), LoadCycle(4));
    assert s.procs == map[1 := Loaded(0, 1, 1), 4 := Loaded(1, 2, 1)];
  }

  lemma FirstWorkerFiresLate()
    ensures Reached(LateSent())
  {
    var s: Sys := BothReady();
    SecondWorkerGetsReady();
    s := Then(s, Mark(1));
    assert s.db.attempts == LateSent().db.attempts;
    assert s.procs == map[1 := Marked(0, 1, 1), 4 := Loaded(1, 2, 1)];
    assert s.late == {0};
    s := Then(s, Send(1));
    assert s.procs == map[1 := Waiting(0, 1, 1), 4 := Loaded(1, 2, 1)];
    assert s.net == {FirstRequest()};
  }

  /** The bank's entry for a request it decides to debit. */
  function Entry(r: Request): L.Debit
    requires Bank.WellFormed(r)
  {
    Bank.NewEntry(r, Success, None, 0)
  }

  /** The bank's disk after debits for the two requests in turn. */
  function DiskAfter(second: bool): L.Disk
    requires Bank.WellFormed(FirstRequest()) && Bank.WellFormed(SecondRequest())
  {
    var d := L.Append(L.Append(QUIET_BANK.disk, L.FenceEntry(CYCLE, 1)), L.DebitEntry(Entry(FirstRequest())));
    if second then L.Append(L.Append(d, L.FenceEntry(CYCLE, 2)), L.DebitEntry(Entry(SecondRequest()))) else d
  }

  lemma RequestsAreWellFormed()
    ensures Bank.WellFormed(FirstRequest()) && Bank.WellFormed(SecondRequest())
    ensures FirstRequest().key != SecondRequest().key
  {
    AttemptNumberRoundTrip(CYCLE, 1);
    AttemptNumberRoundTrip(CYCLE, 2);
  }

  /** The bank up to the decision on one request with a fence above its mark and a new key. */
  function DecidedBank(b: Bank.Bank, h: nat, r: Request): Bank.Bank
    requires Bank.WellFormed(r)
  {
    Bank.Bank(L.Append(b.disk, L.FenceEntry(r.cycle, r.fence)), b.handlers[h := Bank.Decided(r, Entry(r))])
  }

  function DebitedBank(b: Bank.Bank, h: nat, r: Request): Bank.Bank
    requires Bank.WellFormed(r)
  {
    var d := DecidedBank(b, h, r);
    Bank.Bank(L.Append(d.disk, L.DebitEntry(Entry(r))), b.handlers[h := Bank.Committed(r, Entry(r))])
  }

  /** Accepting, admitting and looking up. */
  lemma BankMisses(s: Sys, h: nat, r: Request) returns (s': Sys)
    requires Reached(s) && Bank.HandlersWellFormed(s.bank)
    requires h !in s.bank.handlers && r in s.net && Bank.WellFormed(r)
    requires r.fence > L.Highest(s.bank.disk.mem, r.cycle) && r.key !in s.bank.disk.mem.debits
    ensures Reached(s')
    ensures s' == s.(bank := Bank.Bank(L.Append(s.bank.disk, L.FenceEntry(r.cycle, r.fence)),
                                       s.bank.handlers[h := Bank.Missed(r)]))
  {
    hide Reached, Bank.WellFormed;
    s' := BankThen(s, Bank.Accept(h, r));
    s' := BankThen(s', Bank.Admit(h, true));
    s' := BankThen(s', Bank.LookUp(h));
    assert s'.bank.handlers == s.bank.handlers[h := Bank.Missed(r)];
  }

  /** The bank serves the request and debits. */
  lemma BankDebits(s: Sys, h: nat, r: Request) returns (s': Sys)
    requires Reached(s) && Bank.HandlersWellFormed(s.bank)
    requires h !in s.bank.handlers && r in s.net && Bank.WellFormed(r)
    requires r.fence > L.Highest(s.bank.disk.mem, r.cycle) && r.key !in s.bank.disk.mem.debits
    ensures Reached(s')
    ensures s' == s.(bank := DebitedBank(s.bank, h, r))
  {
    hide Reached, Bank.WellFormed;
    s' := BankMisses(s, h, r);
    s' := BankThen(s', Bank.Decide(h, Success, None, 0));
    s' := BankThen(s', Bank.CommitEntry(h, true));
    assert s'.bank.handlers == s.bank.handlers[h := Bank.Committed(r, Entry(r))];
  }

  lemma FirstDebit() returns (s: Sys)
    requires Bank.WellFormed(FirstRequest()) && Bank.WellFormed(SecondRequest())
    ensures Reached(s)
    ensures s == LateSent().(bank := DebitedBank(QUIET_BANK, 0, FirstRequest()))
    ensures s.bank.disk == DiskAfter(false)
  {
    s := LateSent();
    FirstWorkerFiresLate();
    s := BankDebits(s, 0, FirstRequest());
  }

  lemma SecondWorkerFires() returns (s: Sys)
    requires Bank.WellFormed(FirstRequest()) && Bank.WellFormed(SecondRequest())
    ensures Reached(s) && SecondRequest() in s.net && s.late == {0}
    ensures s.bank == DebitedBank(QUIET_BANK, 0, FirstRequest())
  {
    s := FirstDebit();
    s := Then(s, Mark(4));
    s := Then(s, Send(4));
  }

  lemma BothDebited() returns (s: Sys)
    ensures Reached(s) && s.late == {0} && |s.bank.disk.log| == 4
    ensures DebitedCycle(s.bank.disk.log[1], CYCLE) && DebitedCycle(s.bank.disk.log[3], CYCLE)
    ensures s.bank.disk.log[1].debit.amountPaise == s.bank.disk.log[3].debit.amountPaise == 100
  {
    RequestsAreWellFormed();
    s := SecondWorkerFires();
    s := BankDebits(s, 1, SecondRequest());
    assert s.bank.disk == DiskAfter(true);
  }

  /** The hypothesis of the single-debit theorem is needed: this run, every step of which the code
      takes by its own clocks and plans, debits the cycle twice. */
  lemma OneLateMarkTwoDebits() returns (run: seq<Action>, s: Sys)
    ensures Init(Start()) && Runs(Start(), run, s) && LifelikeRun(Start(), run)
    ensures s.late == {0} && |s.bank.disk.log| == 4
    ensures DebitedCycle(s.bank.disk.log[1], CYCLE) && DebitedCycle(s.bank.disk.log[3], CYCLE)
    ensures s.bank.disk.log[1].debit.amountPaise == s.bank.disk.log[3].debit.amountPaise == 100
  {
    StartIsInitial();
    s := BothDebited();
    run := ReachedByRun(s);
  }
}
