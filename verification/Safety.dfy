/** What the repository promises of a cycle, for every run of the protocol: any number of
    processes, any interleaving, stalls, crashes, lost, late and duplicated debit requests. */
module Safety {
  import opened Domain
  import opened Classification
  import opened Keys
  import opened CycleTables
  import opened Protocol
  import opened Invariant
  import opened Preservation
  import opened History
  import L = Ledger
  import Bank = DebitHandler

  // ---------------------------------------------------------------------------------------
  // One debit

  /** No cycle has two attempts recorded SUCCESS. */
  lemma AtMostOneSuccessRow(s: Sys, actions: seq<Action>, t: Sys, i: nat, j: nat)
    requires Init(s) && Runs(s, actions, t)
    requires i < j < |t.db.attempts|
    ensures !(t.db.attempts[i].outcome == Some(Success) && t.db.attempts[j].outcome == Some(Success))
  {
    ReachableInv(s, actions, t);
    assert RetryOk(t.db.attempts[i]);
  }

  /** The bank holds a successful debit under the attempt's key. */
  predicate MoneyMoved(s: Sys, i: nat) {
    && i < |s.db.attempts|
    && s.db.attempts[i].key in s.bank.disk.mem.debits
    && s.bank.disk.mem.debits[s.db.attempts[i].key].outcome == Success
  }

  /** A log entry that took money from this cycle. */
  predicate DebitedCycle(e: L.Entry, cycle: string) {
    e.DebitEntry? && e.debit.cycle == cycle && e.debit.outcome == Success
  }

  /** An entry under an attempt's key means that the attempt was fired. */
  lemma EntryMeansFired(s: Sys, i: nat)
    requires Inv(s) && i < |s.db.attempts| && s.db.attempts[i].key in s.bank.disk.mem.debits
    ensures Fired(s, i) && s.bank.disk.mem.debits[s.db.attempts[i].key].cycle == s.db.cycle.id
  {
    assert AttemptOk(s.db, i);
    var r := EntryIsOwn(s.bank.disk.mem, s.net, s.db.cycle.id, i + 1);
    var k := KeyOwner(s, r);
    assert AttemptOk(s.db, k);
    KeysAreInjective(s.db.cycle.id, i + 1, s.db.cycle.id, k + 1);
  }

  /** The entry under a cycle's key answers a request of that cycle. */
  lemma EntryIsOwn(m: L.Mem, net: set<Request>, c: string, seqNo: int) returns (r: Request)
    requires Bank.EntriesOk(m, net) && 1 <= seqNo <= MAX_ATTEMPTS && NewIdempotencyKey(c, seqNo) in m.debits
    ensures r in net && r.cycle == c && r.key == NewIdempotencyKey(c, seqNo)
    ensures m.debits[NewIdempotencyKey(c, seqNo)].cycle == c
  {
    var d := m.debits[NewIdempotencyKey(c, seqNo)];
    r := Bank.RequestOf(d);
    assert Bank.EntryOk(d);
    AttemptNumberRoundTrip(c, seqNo);
    KeyHasOneOwner(c, r.cycle, r.key);
  }

  lemma KeyOwner(s: Sys, r: Request) returns (k: nat)
    requires Inv(s) && r in s.net && r.cycle == s.db.cycle.id
    ensures Fired(s, k) && r.key == s.db.attempts[k].key
  {
    assert SentFor(s, r);
    k :| Fired(s, k) && r == RequestFor(s, k, s.db.attempts[k].fence.value);
  }

  /** If two attempts of a cycle moved money, the older one was marked fired after it had already
      been abandoned. */
  lemma TwoDebitsNeedALateMark(s: Sys, i: nat, j: nat)
    requires Inv(s) && i < j && MoneyMoved(s, i) && MoneyMoved(s, j)
    ensures i in s.late
  {
    EntryMeansFired(s, i);
    assert AgreesWithBank(s, i) && RetryOk(s.db.attempts[i]);
  }

  /** Every successful log entry of the cycle belongs to one of its attempts. */
  lemma LogEntryHasAttempt(s: Sys, e: L.Entry) returns (i: nat)
    requires Inv(s) && e in s.bank.disk.log && DebitedCycle(e, s.db.cycle.id)
    ensures MoneyMoved(s, i) && s.db.attempts[i].key == e.debit.key
  {
    L.IndexIsTheLog(s.bank.disk.log);
    assert L.DebitEntry(e.debit) == e;
    i := KeyOwner(s, Bank.RequestOf(e.debit));
  }

  /** Two successful debits of a cycle at distinct log positions: the older attempt was marked late,
      and its money moved. */
  lemma TwoLogEntriesNeedALateMark(s: Sys, a: nat, b: nat) returns (i: nat)
    requires Inv(s) && a < b < |s.bank.disk.log|
    requires DebitedCycle(s.bank.disk.log[a], s.db.cycle.id) && DebitedCycle(s.bank.disk.log[b], s.db.cycle.id)
    ensures i in s.late && MoneyMoved(s, i)
  {
    KeysDiffer(s.bank.disk.log, a, b);
    i := TwoKeysNeedALateMark(s, s.bank.disk.log[a], s.bank.disk.log[b]);
  }

  lemma TwoKeysNeedALateMark(s: Sys, d: L.Entry, e: L.Entry) returns (i: nat)
    requires Inv(s) && d in s.bank.disk.log && e in s.bank.disk.log
    requires DebitedCycle(d, s.db.cycle.id) && DebitedCycle(e, s.db.cycle.id) && d.debit.key != e.debit.key
    ensures i in s.late && MoneyMoved(s, i)
  {
    hide Inv;
    i := LogEntryHasAttempt(s, d);
    var j := LogEntryHasAttempt(s, e);
    if i < j {
      TwoDebitsNeedALateMark(s, i, j);
    } else {
      TwoDebitsNeedALateMark(s, j, i);
      i := j;
    }
  }

  lemma KeysDiffer(log: seq<L.Entry>, a: nat, b: nat)
    requires L.OneEntryPerKey(log) && a < b < |log| && log[a].DebitEntry? && log[b].DebitEntry?
    ensures log[a].debit.key != log[b].debit.key
  {
  }

  lemma {:induction false} OpenFiringHasNoLateMarks(s: Sys, actions: seq<Action>, t: Sys)
    requires Inv(s) && Runs(s, actions, t) && OpenFiring(s, actions)
    ensures t.late == s.late
    decreases |actions|
  {
    if actions != [] {
      var next := Apply(s, actions[0]);
      assert next.late == s.late by { OnTimeStepsKeepLate(s, actions[0]); }
      StepKeepsInv(s, actions[0]);
      OpenFiringHasNoLateMarks(next, actions[1..], t);
    }
  }

  lemma OnTimeStepsKeepLate(s: Sys, a: Action)
    requires Enabled(s, a) && !LateMark(s, a)
    ensures Apply(s, a).late == s.late
  {
  }

  /** The central promise: as long as no mark hits an attempt that already has an outcome, the
      bank's log holds at most one successful debit of the cycle. */
  lemma AtMostOneDebit(s: Sys, actions: seq<Action>, t: Sys, a: nat, b: nat)
    requires Init(s) && Runs(s, actions, t) && OpenFiring(s, actions)
    requires a < b < |t.bank.disk.log|
    ensures !(DebitedCycle(t.bank.disk.log[a], t.db.cycle.id) && DebitedCycle(t.bank.disk.log[b], t.db.cycle.id))
  {
    ReachableInv(s, actions, t);
    InitHasInv(s);
    OpenFiringHasNoLateMarks(s, actions, t);
    if DebitedCycle(t.bank.disk.log[a], t.db.cycle.id) && DebitedCycle(t.bank.disk.log[b], t.db.cycle.id) {
      var i := TwoLogEntriesNeedALateMark(t, a, b);
    }
  }

  /** Without any hypothesis on the run: all attempts that moved money, except the newest of them,
      were marked late, so there is at most one debit more than there are late marks. */
  lemma DebitsAreAtMostOneMoreThanLateMarks(s: Sys, actions: seq<Action>, t: Sys)
    requires Init(s) && Runs(s, actions, t)
    ensures |set i: nat | i < |t.db.attempts| && MoneyMoved(t, i)| <= |t.late| + 1
  {
    ReachableInv(s, actions, t);
    MovedAreLate(t);
  }

  lemma MovedAreLate(s: Sys)
    requires Inv(s)
    ensures |set i: nat | i < |s.db.attempts| && MoneyMoved(s, i)| <= |s.late| + 1
  {
    var moved := set i: nat | i < |s.db.attempts| && MoneyMoved(s, i);
    if x :| x in moved {
      assert MoneyMoved(s, x);
      var m := Newest(s, |s.db.attempts|);
      AllButOneLate(s, moved, m);
      SubsetSize(moved - {m}, s.late);
    }
  }

  lemma AllButOneLate(s: Sys, moved: set<nat>, m: nat)
    requires Inv(s) && MoneyMoved(s, m)
    requires forall i | i in moved :: MoneyMoved(s, i) && i <= m
    ensures moved - {m} <= s.late
  {
    forall i | i in moved - {m}
      ensures i in s.late
    {
      TwoDebitsNeedALateMark(s, i, m);
    }
  }

  /** The newest attempt below n that moved money. */
  lemma {:induction false} Newest(s: Sys, n: nat) returns (m: nat)
    requires n <= |s.db.attempts| && exists i: nat :: i < n && MoneyMoved(s, i)
    ensures m < n && MoneyMoved(s, m) && forall i: nat | m < i < n :: !MoneyMoved(s, i)
  {
    if MoneyMoved(s, n - 1) {
      m := n - 1;
    } else {
      m := Newest(s, n - 1);
    }
  }

  /** Every refund is settled: an abandoned attempt was never fired, or the bank has already refused
      it for good. An unsettled refund need not lose money: what the bank's fence makes of it is
      the subject of module LateMarks. */
  predicate RefundsSettled(s: Sys) {
    forall i | 0 <= i < |s.db.attempts| && s.db.attempts[i].outcome == Some(AbandonedStale) ::
      || s.db.attempts[i].firedAt == None
      || (s.db.attempts[i].key in s.bank.disk.mem.debits
          && s.bank.disk.mem.debits[s.db.attempts[i].key].outcome != Success)
  }

  /** A mark that goes through keeps every refund settled if and only if the attempt has no outcome
      yet, which its guard does not ask. */
  lemma MarkKeepsRefundsSettled(s: Sys, p: nat)
    requires Inv(s) && RefundsSettled(s) && Enabled(s, Mark(p))
    requires s.db.attempts[s.procs[p].i].firedAt == None
    ensures RefundsSettled(Apply(s, Mark(p))) <==> s.db.attempts[s.procs[p].i].outcome == None
  {
    var i := s.procs[p].i;
    assert ProcOk(s, s.procs[p]) && AttemptOk(s.db, i);
    var s' := MarkStep(s, p);
    assert s'.db.attempts == s.db.attempts[i := s'.db.attempts[i]];
    if s.db.attempts[i].key in s.bank.disk.mem.debits {
      EntryMeansFired(s, i);
    }
  }

  // ---------------------------------------------------------------------------------------
  // Agreement with the bank

  /** An outcome once recorded agrees with the bank's entry now and after any further run; a
      refunded attempt that was not marked late never turns into a debit. */
  lemma OutcomesAgreeForever(s: Sys, past: seq<Action>, t: Sys, future: seq<Action>, u: Sys, i: nat)
    requires Init(s) && Runs(s, past, t) && Runs(t, future, u)
    requires i < |t.db.attempts| && !Open(t.db.attempts[i])
    ensures i < |u.db.attempts| && RowMoves(t.db.attempts[i], u.db.attempts[i]) && OutcomeIsTrue(u, i)
  {
    ReachableInv(s, past, t);
    RunKeepsInv(t, future, u);
    RunIsOnward(t, future, u);
    assert RowMoves(t.db.attempts[i], u.db.attempts[i]);
    OutcomeAgrees(u, i);
  }

  /** The outcome recorded for an attempt is the bank's, as far as the bank has decided. */
  ghost predicate OutcomeIsTrue(s: Sys, i: nat)
    requires i < |s.db.attempts| && !Open(s.db.attempts[i])
  {
    var debits, key := s.bank.disk.mem.debits, s.db.attempts[i].key;
    match s.db.attempts[i].outcome.value
    case Success => key in debits && debits[key].outcome == Success
    case Failure => key in debits && debits[key].outcome == Failure && debits[key].code == s.db.attempts[i].code
    case AbandonedStale => i !in s.late && key in debits ==> debits[key].outcome == Failure
    case Timeout => false
  }

  lemma OutcomeAgrees(s: Sys, i: nat)
    requires Inv(s) && i < |s.db.attempts| && !Open(s.db.attempts[i])
    ensures OutcomeIsTrue(s, i)
  {
    BankDecides(s.bank.disk.mem, s.net, s.db.attempts[i].key);
    if s.db.attempts[i].key in s.bank.disk.mem.debits {
      EntryMeansFired(s, i);
    }
    assert AgreesWithBank(s, i);
    RecordedIsTrue(s, i);
  }

  lemma RecordedIsTrue(s: Sys, i: nat)
    requires i < |s.db.attempts| && !Open(s.db.attempts[i]) && AgreesWithBank(s, i)
    requires var debits, key := s.bank.disk.mem.debits, s.db.attempts[i].key;
             key in debits ==> Fired(s, i) && (debits[key].outcome == Success || debits[key].outcome == Failure)
    ensures OutcomeIsTrue(s, i)
  {
    assert s.db.attempts[i].outcome != Some(Timeout);
  }

  lemma BankDecides(m: L.Mem, net: set<Request>, key: string)
    requires Bank.EntriesOk(m, net)
    ensures key in m.debits ==> m.debits[key].outcome == Success || m.debits[key].outcome == Failure
  {
  }

  /** The reconciler gives budget back only on a permanent non-success of the bank, and records a
      recovery only on a success. */
  lemma ResolutionsAreTrue(s: Sys, p: nat, i: nat, outcome: Outcome, future: seq<Action>, u: Sys)
    requires Inv(s) && p in s.procs && s.procs[p] == Answered(i, outcome) && Runs(s, future, u)
    ensures i < |s.db.attempts| && Enabled(s, Protocol.Action.Resolve(p))
    ensures s.db.attempts[i].key in u.bank.disk.mem.debits && (outcome == Success <==> MoneyMoved(u, i))
  {
    hide Inv, Runs, CoreInv;
    AnswerIsTheEntry(s, p, i, outcome);
    RunIsOnward(s, future, u);
    assert RowMoves(s.db.attempts[i], u.db.attempts[i]);
  }

  lemma AnswerIsTheEntry(s: Sys, p: nat, i: nat, outcome: Outcome)
    requires Inv(s) && p in s.procs && s.procs[p] == Answered(i, outcome)
    ensures i < |s.db.attempts| && s.db.attempts[i].key in s.bank.disk.mem.debits
    ensures s.bank.disk.mem.debits[s.db.attempts[i].key].outcome == outcome
  {
    hide CoreInv, ReadyInv, RecordedInv;
    assert ProcOk(s, s.procs[p]);
  }

  // ---------------------------------------------------------------------------------------
  // Who may reserve

  /** At most one attempt is open, and it is the newest. */
  lemma AtMostOneOpen(s: Sys, actions: seq<Action>, t: Sys, i: nat)
    requires Init(s) && Runs(s, actions, t)
    requires i < |t.db.attempts| && Open(t.db.attempts[i])
    ensures i == |t.db.attempts| - 1
    ensures t.db.cycle.state != Pending
    ensures forall p | p in t.procs :: !HoldsVersion(t.procs[p], t.db.cycle.version)
  {
    ReachableInv(s, actions, t);
    assert !RetryOk(t.db.attempts[i]);
    assert !Ready(t);
  }

  /** A reservation that goes through finds every earlier attempt closed and retryable, the count
      it read still true and budget left, although it checks only version and budget. */
  lemma ReservationsAreSound(s: Sys, actions: seq<Action>, t: Sys, p: nat, id: string, at: Time, due: Time)
    requires Init(s) && Runs(s, actions, t) && Enabled(t, ReserveSlot(p, id, at, due))
    requires t.procs[p].version == t.db.cycle.version
    ensures forall i | 0 <= i < |t.db.attempts| :: RetryOk(t.db.attempts[i])
    ensures t.procs[p].used == t.db.cycle.attemptsUsed < MAX_ATTEMPTS
  {
    ReachableInv(s, actions, t);
    assert ProcOk(t, t.procs[p]);
    assert HoldsVersion(t.procs[p], t.db.cycle.version);
  }

  /** The attempt succeeded, or failed with a code the table maps to terminal or manual review. */
  predicate Ending(a: Attempt) {
    a.outcome == Some(Success) || (a.outcome == Some(Failure) && a.code.Some? && Stops(a.code.value))
  }

  /** The newest attempt ended the cycle. */
  predicate Finished(t: Tables) {
    t.attempts != [] && Ending(t.attempts[|t.attempts| - 1])
  }

  /** Once any attempt has ended the cycle, no later step of any run reserves another, whatever
      is written to the state column meanwhile and whoever crashes. */
  lemma {:induction false} FinishedIsFinal(s: Sys, actions: seq<Action>, t: Sys)
    requires Inv(s) && Runs(s, actions, t) && Finished(s.db)
    ensures Finished(t.db) && |t.db.attempts| == |s.db.attempts|
    ensures !Schedulable(t.db)
    decreases |actions|
  {
    hide Bank.Inv, NetInv, BankAgrees, FencesInv, TimesInv, GrantsInv, ProcsInv, RecordedInv;
    assert !RetryOk(s.db.attempts[|s.db.attempts| - 1]);
    assert !Ready(s);
    if actions != [] {
      var a := actions[0];
      var next := Apply(s, a);
      StepRowsMove(s, a);
      FinishedStep(s, a);
      assert RowMoves(s.db.attempts[|s.db.attempts| - 1], next.db.attempts[|s.db.attempts| - 1]);
      StepKeepsInv(s, a);
      FinishedIsFinal(next, actions[1..], t);
    }
  }

  lemma FinishedStep(s: Sys, a: Action)
    requires Inv(s) && Enabled(s, a) && !Ready(s)
    ensures |Apply(s, a).db.attempts| == |s.db.attempts|
  {
    if a.ReserveSlot? {
      assert !HoldsVersion(s.procs[a.p], s.db.cycle.version);
    } else if ChangedAt(s, a).Some? {
      StepChangesOneRow(s, a, ChangedAt(s, a).value);
    } else {
      StepKeepsRows(s, a);
    }
  }

  /** The label `recovered` of a cycle whose newest attempt succeeded is not final; exactly two steps
      overwrite it: a late reconciler's hold, and a late mark of an abandoned attempt. */
  lemma RecoveredIsOverwrittenIff(s: Sys, a: Action)
    requires Inv(s) && Enabled(s, a) && s.db.cycle.state == Recovered
    requires s.db.attempts != [] && s.db.attempts[|s.db.attempts| - 1].outcome == Some(Success)
    ensures Apply(s, a).db.cycle.state != Recovered <==> a.Hold? || LateMark(s, a)
  {
    NothingOpenAfterSuccess(s, a);
    OnlyTwoStepsOverwrite(s, a);
  }

  /** What the other steps would need in order to write the state column. */
  lemma NothingOpenAfterSuccess(s: Sys, a: Action)
    requires Inv(s) && Enabled(s, a)
    requires s.db.attempts != [] && s.db.attempts[|s.db.attempts| - 1].outcome == Some(Success)
    ensures AllClosed(s.db)
    ensures a.Advance? ==> s.procs[a.p].outcome == Success
    ensures a.ReserveSlot? ==> s.procs[a.p].version != s.db.cycle.version
    ensures a.Mark? ==> s.procs[a.p].fence > 0
  {
    hide Bank.Inv, NetInv, BankAgrees, FencesInv, TimesInv, GrantsInv;
    var n := |s.db.attempts| - 1;
    assert !RetryOk(s.db.attempts[n]);
    assert !Ready(s);
    assert forall i | 0 <= i < n :: RetryOk(s.db.attempts[i]);
    if a.Advance? || a.Mark? {
      assert ProcOk(s, s.procs[a.p]);
    } else if a.ReserveSlot? {
      assert !HoldsVersion(s.procs[a.p], s.db.cycle.version);
    }
  }

  lemma OnlyTwoStepsOverwrite(s: Sys, a: Action)
    requires Enabled(s, a) && s.db.cycle.state == Recovered && AllClosed(s.db)
    requires a.Advance? ==> s.procs[a.p].outcome == Success
    requires a.ReserveSlot? ==> s.procs[a.p].version != s.db.cycle.version
    requires a.Mark? ==> s.procs[a.p].fence > 0
    ensures Apply(s, a).db.cycle.state != Recovered <==> a.Hold? || LateMark(s, a)
  {
  }

  /** Stated on any attempt, not only the newest: an attempt that ended the cycle is the newest. */
  lemma EndingAttemptIsNewest(s: Sys, past: seq<Action>, t: Sys, future: seq<Action>, u: Sys, i: nat)
    requires Init(s) && Runs(s, past, t) && Runs(t, future, u)
    requires i < |t.db.attempts| && Ending(t.db.attempts[i])
    ensures i == |u.db.attempts| - 1
  {
    ReachableInv(s, past, t);
    EndingIsLast(t.db, i);
    FinishedIsFinal(t, future, u);
  }

  lemma EndingIsLast(t: Tables, i: nat)
    requires RowsInv(t) && i < |t.attempts| && Ending(t.attempts[i])
    ensures Finished(t) && i == |t.attempts| - 1
  {
    assert !RetryOk(t.attempts[i]);
  }

  /** What a reconciler picks up: in every reachable state exactly the attempts that were fired and are
      not closed, timed out or orphaned. */
  lemma UnresolvedIsFiredAndOpen(s: Sys, actions: seq<Action>, t: Sys, i: nat)
    requires Init(s) && Runs(s, actions, t) && i < |t.db.attempts|
    ensures var row := t.db.attempts[i];
            NeedsReconciliation(row) <==> row.firedAt.Some? && (row.outcome == None || row.outcome == Some(Timeout))
  {
    hide Bank.Inv, TimesInv, FencesInv, BankAgrees, NetInv, GrantsInv, ProcsInv, ReadyInv, RecordedInv;
    ReachableInv(s, actions, t);
    assert AttemptOk(t.db, i);
  }

  // ---------------------------------------------------------------------------------------
  // Budget, sequence numbers, requests

  /** The budget counter equals the attempts that hold a slot and lies in 0..4; sequence numbers
      and keys are exactly those of positions 1..n with n at most 4. */
  lemma BudgetIsExact(s: Sys, actions: seq<Action>, t: Sys)
    requires Init(s) && Runs(s, actions, t)
    ensures var rows := t.db.attempts;
            t.db.cycle.attemptsUsed == |set i | 0 <= i < |rows| && rows[i].outcome != Some(AbandonedStale)|
    ensures 0 <= t.db.cycle.attemptsUsed <= |t.db.attempts| <= 4
    ensures forall i | 0 <= i < |t.db.attempts| ::
              t.db.attempts[i].seqNo == i + 1 && t.db.attempts[i].key == NewIdempotencyKey(t.db.cycle.id, i + 1)
  {
    ReachableInv(s, actions, t);
    SlotsHeldCounts(t.db.attempts);
    SlotsHeldBounds(t.db.attempts);
    forall i | 0 <= i < |t.db.attempts|
      ensures t.db.attempts[i].seqNo == i + 1 && t.db.attempts[i].key == NewIdempotencyKey(t.db.cycle.id, i + 1)
    {
      assert AttemptOk(t.db, i);
    }
  }

  /** The refund guard `attempts_used > 0` never fails where a refund is due, and an attempt
      refunded once is never refunded again. */
  lemma RefundsHappenOnce(s: Sys, past: seq<Action>, t: Sys, future: seq<Action>, u: Sys, i: nat)
    requires Init(s) && Runs(s, past, t) && Runs(t, future, u) && i < |t.db.attempts|
    ensures Abandon(t.db, i).1 == Done <==> t.db.attempts[i].outcome == None && t.db.attempts[i].firedAt == None
    ensures ResolveNotDebited(t.db, i).1 == Done <==> Resolvable(t.db.attempts[i])
    ensures t.db.attempts[i].outcome == Some(AbandonedStale) ==>
              i < |u.db.attempts| && Abandon(u.db, i) == (u.db, Conflict)
                && ResolveNotDebited(u.db, i) == (u.db, Conflict)
  {
    ReachableInv(s, past, t);
    RunIsOnward(t, future, u);
    SlotsHeldBounds(t.db.attempts);
    assert RowMoves(t.db.attempts[i], u.db.attempts[i]);
  }

  /** A refunded slot can be used again exactly while fewer than four attempts were ever made:
      with a current snapshot, a plan and a fresh id, the reservation succeeds if and only if
      |attempts| < 4. */
  lemma SlotReusableIff(s: Sys, p: nat, id: string, at: Time, due: Time)
    requires Inv(s) && Enabled(s, ReserveSlot(p, id, at, due))
    requires s.procs[p].version == s.db.cycle.version && id != "" && !IdTaken(s.db.attempts, id)
    ensures Reserve(s.db, s.procs[p].version, id, at, due).1 == Done <==> |s.db.attempts| < 4
    ensures Reserve(s.db, s.procs[p].version, id, at, due).1 == Invalid <==> |s.db.attempts| == 4
  {
    assert HoldsVersion(s.procs[p], s.db.cycle.version);
    assert Ready(s);
  }

  /** A cycle issues at most four distinct debit requests, one per attempt, however long it runs:
      each attempt is marked fired once, with one fence. */
  lemma AtMostFourRequests(s: Sys, actions: seq<Action>, t: Sys)
    requires Init(s) && Runs(s, actions, t)
    ensures |set r | r in t.net && r.cycle == t.db.cycle.id| <= 4
  {
    ReachableInv(s, actions, t);
    var requests := set r | r in t.net && r.cycle == t.db.cycle.id;
    forall r | r in requests
      ensures r in RequestsUpTo(t, |t.db.attempts|)
    {
      assert SentFor(t, r);
      var i: nat :| Fired(t, i) && r == RequestFor(t, i, t.db.attempts[i].fence.value);
      RequestCounted(t, |t.db.attempts|, i);
    }
    RequestsUpToSize(t, |t.db.attempts|);
    SubsetSize(requests, RequestsUpTo(t, |t.db.attempts|));
  }

  function RequestsUpTo(s: Sys, n: nat): set<Request>
    requires n <= |s.db.attempts|
  {
    if n == 0 then {}
    else RequestsUpTo(s, n - 1)
         + (if s.db.attempts[n - 1].fence.Some? then {RequestFor(s, n - 1, s.db.attempts[n - 1].fence.value)} else {})
  }

  lemma {:induction false} RequestsUpToSize(s: Sys, n: nat)
    requires n <= |s.db.attempts|
    ensures |RequestsUpTo(s, n)| <= n
  {
    if n > 0 {
      RequestsUpToSize(s, n - 1);
    }
  }

  lemma {:induction false} RequestCounted(s: Sys, n: nat, i: nat)
    requires i < n <= |s.db.attempts| && Fired(s, i)
    ensures RequestFor(s, i, s.db.attempts[i].fence.value) in RequestsUpTo(s, n)
  {
    if i < n - 1 {
      RequestCounted(s, n - 1, i);
    }
  }

  lemma {:induction false} SubsetSize<T>(a: set<T>, b: set<T>)
    requires a <= b
    ensures |a| <= |b|
  {
    if a != {} {
      var x :| x in a;
      SubsetSize(a - {x}, b - {x});
    }
  }

  /** A mark is never repeated or moved: time and fence stay for good. */
  lemma MarkedOnce(s: Sys, past: seq<Action>, t: Sys, future: seq<Action>, u: Sys, i: nat, fence: int, now: Time)
    requires Init(s) && Runs(s, past, t) && Runs(t, future, u)
    requires Fired(t, i)
    ensures Fired(u, i) && u.db.attempts[i].firedAt == t.db.attempts[i].firedAt
              && u.db.attempts[i].fence == t.db.attempts[i].fence
    ensures MarkFired(u.db, i, fence, now).0 == u.db
  {
    ReachableInv(s, past, t);
    RunIsOnward(t, future, u);
    assert RowMoves(t.db.attempts[i], u.db.attempts[i]);
  }

  // ---------------------------------------------------------------------------------------
  // A pending cycle can be planned

  /** A pending cycle has budget left, and if it has used some, a failure code is on record; the
      scheduler finds a plan if and only if that code is in the table. */
  lemma PendingCyclesCanBePlanned(s: Sys, actions: seq<Action>, t: Sys)
    requires Init(s) && Runs(s, actions, t) && t.db.cycle.state == Pending
    ensures Schedulable(t.db)
    ensures 0 <= t.db.cycle.attemptsUsed < MAX_ATTEMPTS
    ensures t.db.cycle.attemptsUsed > 0 ==> LastFailureCode(t.db, t.db.cycle.attemptsUsed).Some?
    ensures var used := t.db.cycle.attemptsUsed;
            var lastCode := LastFailureCode(t.db, used);
            HasPlan(used, lastCode) <==> used == 0 || Classify(lastCode.value).1
  {
    hide Bank.Inv, TimesInv, FencesInv, BankAgrees, NetInv, GrantsInv, ProcsInv, RecordedInv;
    ReachableInv(s, actions, t);
    assert Ready(t);
    var used := t.db.cycle.attemptsUsed;
    if used > 0 {
      assert t.db.attempts[..|t.db.attempts|] == t.db.attempts;
      NewestCodeIsRetryable(t.db, |t.db.attempts|);
    }
  }

  /** Among closed retryable attempts that hold a slot there is a newest failure code, and it is
      one the table does not stop at. */
  lemma {:induction false} NewestCodeIsRetryable(t: Tables, n: nat)
    requires RowsInv(t) && n <= |t.attempts|
    requires forall i | 0 <= i < n :: RetryOk(t.attempts[i])
    requires SlotsHeld(t.attempts[..n]) > 0
    ensures NewestCode(t.attempts[..n]).Some? && !Stops(NewestCode(t.attempts[..n]).value)
  {
    var rows := t.attempts[..n];
    assert n > 0 && AttemptOk(t, n - 1);
    assert rows[..n - 1] == t.attempts[..n - 1];
    if t.attempts[n - 1].code == None {
      NewestCodeIsRetryable(t, n - 1);
    }
  }

  // ---------------------------------------------------------------------------------------
  // Leases and fences

  /** Lease periods of one cycle never overlap on the database clock, and each fence is handed
      out once, in increasing order. */
  lemma LeasesNeverOverlap(s: Sys, actions: seq<Action>, t: Sys, k: nat, l: nat)
    requires Init(s) && Runs(s, actions, t) && k < l < |t.grants|
    ensures t.grants[k].until < t.grants[l].from
    ensures t.grants[k].fence < t.grants[l].fence
  {
    ReachableInv(s, actions, t);
  }

  /** Fences of fired attempts strictly increase with the sequence number, late marks aside. */
  lemma FencesGrow(s: Sys, actions: seq<Action>, t: Sys, i: nat, j: nat)
    requires Init(s) && Runs(s, actions, t)
    requires i < j && Fired(t, i) && Fired(t, j) && i !in t.late
    ensures t.db.attempts[i].fence.value < t.db.attempts[j].fence.value
  {
    ReachableInv(s, actions, t);
  }

  /** So the newest fired attempt's request is never below the bank's mark and is admitted. */
  lemma CurrentDebitIsNotStale(s: Sys, actions: seq<Action>, t: Sys, i: nat, h: nat)
    requires Init(s) && Runs(s, actions, t) && t.late == {}
    requires Fired(t, i) && i == |t.db.attempts| - 1
    requires h in t.bank.handlers && t.bank.handlers[h].Received?
    requires t.bank.handlers[h].req == RequestFor(t, i, t.db.attempts[i].fence.value)
    ensures L.Highest(t.bank.disk.mem, t.db.cycle.id) <= t.db.attempts[i].fence.value
    ensures Bank.HandlersWellFormed(t.bank)
    ensures Bank.Apply(t.bank, t.net, Bank.Admit(h, true)).handlers[h] == Bank.Admitted(t.bank.handlers[h].req)
  {
    ReachableInv(s, actions, t);
    assert AttemptOk(t.db, i);
    MarkIsAFiredFence(t, i);
    Bank.StaleExactlyBelowTheMark(t.bank, t.net, h, true);
  }

  lemma MarkIsAFiredFence(s: Sys, i: nat)
    requires Inv(s) && s.late == {} && Fired(s, i) && i == |s.db.attempts| - 1
    ensures L.Highest(s.bank.disk.mem, s.db.cycle.id) <= s.db.attempts[i].fence.value
  {
    var c := s.db.cycle.id;
    assert AttemptOk(s.db, i);
    if c in s.bank.disk.mem.fences {
      var f := s.bank.disk.mem.fences[c];
      assert Bank.Heard(s.net, c, f);
      var r :| r in s.net && r.cycle == c && r.fence == f;
      assert SentFor(s, r);
      var k: nat :| Fired(s, k) && r == RequestFor(s, k, s.db.attempts[k].fence.value);
      assert k < i ==> s.db.attempts[k].fence.value < s.db.attempts[i].fence.value;
    }
  }

  /** Once the newest attempt's request has been admitted, a late duplicate of an older attempt's
      request is refused as stale, then and ever after. */
  lemma OldDebitsAreStale(s: Sys, past: seq<Action>, t: Sys, future: seq<Action>, u: Sys, i: nat, j: nat, h: nat)
    requires Init(s) && Runs(s, past, t) && Runs(t, future, u)
    requires i < j && Fired(t, i) && Fired(t, j) && i !in t.late
    requires t.db.attempts[j].fence.value <= L.Highest(t.bank.disk.mem, t.db.cycle.id)
    requires h in u.bank.handlers && u.bank.handlers[h].Received?
    requires u.bank.handlers[h].req == RequestFor(t, i, t.db.attempts[i].fence.value)
    ensures Bank.HandlersWellFormed(u.bank)
    ensures forall writeOk ::
              Bank.Apply(u.bank, u.net, Bank.Admit(h, writeOk)).handlers[h]
              == Bank.Done(u.bank.handlers[h].req, Bank.StaleFence)
  {
    ReachableInv(s, past, t);
    RunIsOnward(t, future, u);
    RunKeepsInv(t, future, u);
    forall writeOk
      ensures Bank.Apply(u.bank, u.net, Bank.Admit(h, writeOk)).handlers[h]
              == Bank.Done(u.bank.handlers[h].req, Bank.StaleFence)
    {
      Bank.StaleExactlyBelowTheMark(u.bank, u.net, h, writeOk);
    }
  }

  // ---------------------------------------------------------------------------------------
  // Notice

  /** Every fired attempt has exactly one notice row, recorded as delivered at least 24 hours
      before the recorded firing time. */
  lemma FiredMeansNoticed(s: Sys, actions: seq<Action>, t: Sys, i: nat)
    requires Init(s) && Runs(s, actions, t) && Fired(t, i)
    ensures i < |t.db.outbox| && t.db.outbox[i].deliveredAt.Some?
    ensures t.db.outbox[i].deliveredAt.value <= t.db.attempts[i].firedAt.value - 24 * HOUR
    ensures forall n | 0 <= n < |t.db.outbox| :: t.db.outbox[n].attemptId == t.db.attempts[i].id <==> n == i
  {
    ReachableInv(s, actions, t);
    assert AttemptOk(t.db, i) && NoticeInTime(t.db, i);
    forall n | 0 <= n < |t.db.outbox|
      ensures t.db.outbox[n].attemptId == t.db.attempts[i].id <==> n == i
    {
      assert AttemptOk(t.db, n);
    }
  }

  // ---------------------------------------------------------------------------------------
  // Asking the bank

  /** A question to the bank is answered from its permanent entry whenever there is one; without one
      the reconciler asks again, and gives up after the fifth question. */
  lemma PollsFiveTimes(s: Sys, p: nat, i: nat, tries: nat)
    requires Inv(s) && p in s.procs && s.procs[p] == Polling(i, tries)
    ensures Enabled(s, Poll(p)) && p in Apply(s, Poll(p)).procs
    ensures var key, debits, after := s.db.attempts[i].key, s.bank.disk.mem.debits, Apply(s, Poll(p)).procs[p];
            after == if key in debits then Answered(i, debits[key].outcome)
                     else if tries >= 4 then Unanswered(i) else Polling(i, tries + 1)
  {
    hide CoreInv, ReadyInv, RecordedInv;
    assert ProcOk(s, s.procs[p]);
  }

  /** The notice gate lets a worker through if and only if the attempt's notice was delivered at least
      24 hours before its slot, the 24th hour included. */
  lemma GateOpensIff(s: Sys, p: nat, i: nat, fence: int)
    requires Inv(s) && p in s.procs && s.procs[p] == Leased(i, fence)
    ensures Enabled(s, CheckNotice(p)) && p in Apply(s, CheckNotice(p)).procs && i < |s.db.outbox|
    ensures var delivered := s.db.outbox[i].deliveredAt;
            Apply(s, CheckNotice(p)).procs[p]
            == if delivered.Some? && delivered.value <= s.db.attempts[i].scheduledFor - 24 * HOUR
               then Cleared(i, fence) else NoticeMissing(i)
  {
    hide Bank.Inv, TimesInv, FencesInv, BankAgrees, NetInv, GrantsInv, ReadyInv, RecordedInv;
    assert ProcOk(s, s.procs[p]) && AttemptOk(s.db, i);
    if NoticeDelivered(s.db, s.db.attempts[i].id, s.db.attempts[i].scheduledFor) {
      DeliveredMeansInTime(s, i);
    }
  }
}
