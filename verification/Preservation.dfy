/** Every step of the protocol keeps the invariant, action by action. */
module Preservation {
  import opened Domain
  import opened Classification
  import opened Keys
  import opened CycleTables
  import opened Protocol
  import opened Invariant
  import L = Ledger
  import Bank = DebitHandler

  /** The records other than p's are those of before, or fewer. */
  predicate OthersStay(s: Sys, s': Sys, p: nat) {
    forall r | r in s'.procs && r != p :: r in s.procs && s'.procs[r] == s.procs[r]
  }

  /** A step that leaves the right to reserve where it was, or takes it away. */
  lemma Quiet(s: Sys, s': Sys, p: nat)
    requires Inv(s) && Moves(s, s') && OthersStay(s, s', p)
    requires s'.db.cycle.version == s.db.cycle.version && s'.db.cycle.attemptsUsed == s.db.cycle.attemptsUsed
    requires |s'.db.attempts| == |s.db.attempts|
    requires s'.db.cycle.state == s.db.cycle.state || s'.db.cycle.state != Pending
    requires p in s'.procs ==> !FailureRecorded(s'.procs[p])
    requires p in s'.procs && HoldsVersion(s'.procs[p], s.db.cycle.version) ==> Ready(s)
    ensures ReadyInv(s') && RecordedInv(s')
  {
    assert Ready(s') ==> Ready(s);
  }

  lemma ProcsMove(s: Sys, s': Sys, p: nat)
    requires Inv(s) && Moves(s, s') && OthersStay(s, s', p)
    requires p in s'.procs ==> ProcOk(s', s'.procs[p])
    ensures ProcsInv(s')
  {
    forall r | r in s'.procs && r != p
      ensures ProcOk(s', s'.procs[r])
    {
      ProcOkIsStable(s, s', s.procs[r]);
    }
  }

  /** A step that only reads: rows, bank and network are untouched. */
  lemma LocalStep(s: Sys, s': Sys, p: nat)
    requires Inv(s) && OthersStay(s, s', p)
    requires s' == s.(procs := s'.procs)
    requires p in s'.procs ==> ProcOk(s', s'.procs[p]) && !FailureRecorded(s'.procs[p])
    requires p in s'.procs && HoldsVersion(s'.procs[p], s.db.cycle.version) ==> Ready(s)
    ensures Inv(s')
  {
    CoreOnly(s, s');
    StayingMoves(s, s');
    ProcsMove(s, s', p);
    Quiet(s, s', p);
  }

  lemma CoreOnly(s: Sys, s': Sys)
    requires CoreInv(s) && s' == s.(procs := s'.procs)
    ensures CoreInv(s')
  {
    SameAttempts(s, s');
  }

  /** What the invariant says of attempts, bank and network depends on nothing else. */
  lemma SameAttempts(s: Sys, s': Sys)
    requires CoreInv(s) && s'.db.attempts == s.db.attempts && s'.late == s.late
    requires s'.bank == s.bank && s'.net == s.net
    requires s'.db.cycle == s.db.cycle.(state := s'.db.cycle.state)
    ensures FencesInv(s') && BankAgrees(s') && NetInv(s')
  {
    assert forall k: nat :: Fired(s', k) <==> Fired(s, k);
    forall k | 0 <= k < |s'.db.attempts|
      ensures AgreesWithBank(s', k)
    {
      assert AgreesWithBank(s, k);
    }
    forall r | r in s'.net && r.cycle == s'.db.cycle.id
      ensures SentFor(s', r)
    {
      assert SentFor(s, r);
      var k: nat :| Fired(s, k) && r == RequestFor(s, k, s.db.attempts[k].fence.value);
      assert r == RequestFor(s', k, s'.db.attempts[k].fence.value);
    }
  }

  lemma StayingMoves(s: Sys, s': Sys)
    requires s' == s.(procs := s'.procs)
    ensures Moves(s, s')
  {
  }

  lemma StepClaimDue(s: Sys, p: nat, i: nat)
    requires Inv(s) && Enabled(s, ClaimDue(p, i))
    ensures Inv(Apply(s, ClaimDue(p, i)))
  {
    LocalStep(s, Apply(s, ClaimDue(p, i)), p);
  }

  lemma StepCrash(s: Sys, p: nat)
    requires Inv(s) && Enabled(s, Crash(p))
    ensures Inv(Apply(s, Crash(p)))
  {
    LocalStep(s, Apply(s, Crash(p)), p);
  }

  lemma StepCheckNotice(s: Sys, p: nat)
    requires Inv(s) && Enabled(s, CheckNotice(p))
    ensures Inv(Apply(s, CheckNotice(p)))
  {
    var s' := Apply(s, CheckNotice(p));
    var i := s.procs[p].i;
    assert ProcOk(s, s.procs[p]);
    assert LeaseOk(s', i, s.procs[p].fence);
    var attempt := s.db.attempts[i];
    if NoticeDelivered(s.db, attempt.id, attempt.scheduledFor) {
      DeliveredMeansInTime(s, i);
      assert ProcOk(s', Cleared(i, s.procs[p].fence));
    }
    LocalStep(s, s', p);
  }

  /** The notice the gate finds is the attempt's own: notices and attempts correspond one to one. */
  lemma DeliveredMeansInTime(s: Sys, i: nat)
    requires RowsInv(s.db) && i < |s.db.attempts|
    requires NoticeDelivered(s.db, s.db.attempts[i].id, s.db.attempts[i].scheduledFor)
    ensures NoticeInTime(s.db, i)
  {
    var n :| 0 <= n < |s.db.outbox| && s.db.outbox[n].attemptId == s.db.attempts[i].id
             && s.db.outbox[n].deliveredAt.Some?
             && s.db.outbox[n].deliveredAt.value <= s.db.attempts[i].scheduledFor - NOTICE_LEAD;
    assert AttemptOk(s.db, n);
    assert n == i;
  }

  lemma StepLoadCycle(s: Sys, p: nat)
    requires Inv(s) && Enabled(s, LoadCycle(p))
    ensures Inv(Apply(s, LoadCycle(p)))
  {
    var s' := Apply(s, LoadCycle(p));
    assert ProcOk(s, s.procs[p]);
    assert LeaseOk(s', s.procs[p].i, s.procs[p].fence);
    LocalStep(s, s', p);
  }

  lemma StepTakeSnapshot(s: Sys, p: nat)
    requires Inv(s) && Enabled(s, TakeSnapshot(p))
    ensures Inv(Apply(s, TakeSnapshot(p)))
  {
    LocalStep(s, Apply(s, TakeSnapshot(p)), p);
  }

  lemma StepLoadCode(s: Sys, p: nat)
    requires Inv(s) && Enabled(s, LoadCode(p))
    ensures Inv(Apply(s, LoadCode(p)))
  {
    assert ProcOk(s, s.procs[p]);
    LocalStep(s, Apply(s, LoadCode(p)), p);
  }

  lemma StepPickUnresolved(s: Sys, p: nat, i: nat)
    requires Inv(s) && Enabled(s, PickUnresolved(p, i))
    ensures Inv(Apply(s, PickUnresolved(p, i)))
  {
    assert AttemptOk(s.db, i);
    LocalStep(s, Apply(s, PickUnresolved(p, i)), p);
  }

  lemma StepPoll(s: Sys, p: nat)
    requires Inv(s) && Enabled(s, Poll(p))
    ensures Inv(Apply(s, Poll(p)))
  {
    var s' := PollStep(s, p);
    PolledIsOk(s, p);
    LocalStep(s, s', p);
  }

  lemma PolledIsOk(s: Sys, p: nat)
    requires ProcsInv(s) && At(s, p) && s.procs[p].Polling?
    ensures var s' := PollStep(s, p);
            ProcOk(s', s'.procs[p]) && !FailureRecorded(s'.procs[p]) && !s'.procs[p].Snapshot? && !s'.procs[p].Coded?
  {
    assert ProcOk(s, s.procs[p]);
  }

  lemma StepPickNotice(s: Sys, p: nat, i: nat)
    requires Inv(s) && Enabled(s, PickNotice(p, i))
    ensures Inv(Apply(s, PickNotice(p, i)))
  {
    LocalStep(s, Apply(s, PickNotice(p, i)), p);
  }

  // ---------------------------------------------------------------------------------------
  // Clock, network and bank

  lemma StepTick(s: Sys, to: Time)
    requires Inv(s) && Enabled(s, Tick(to))
    ensures Inv(Apply(s, Tick(to)))
  {
    var s' := Apply(s, Tick(to));
    CoreRest(s, s');
    forall p | p in s'.procs ensures ProcOk(s', s'.procs[p]) { ProcOkIsStable(s, s', s.procs[p]); }
    assert Ready(s') ==> Ready(s);
  }

  /** Rows untouched, clock, bank and network moved on: the row-and-bank part of the invariant. */
  lemma CoreRest(s: Sys, s': Sys)
    requires CoreInv(s) && Moves(s, s') && s'.db == s.db && s'.late == s.late && s'.grants == s.grants
    requires Bank.Inv(s'.bank, s'.net)
    requires forall r | r in s'.net && r !in s.net && r.cycle == s.db.cycle.id :: SentFor(s', r)
    ensures CoreInv(s')
  {
    forall r | r in s'.net && r.cycle == s'.db.cycle.id
      ensures SentFor(s', r)
    {
      if r in s.net {
        assert SentFor(s, r);
        var i: nat :| Fired(s, i) && r == RequestFor(s, i, s.db.attempts[i].fence.value);
        assert Fired(s', i) && r == RequestFor(s', i, s'.db.attempts[i].fence.value);
      }
    }
    forall i | 0 <= i < |s'.db.attempts|
      ensures AgreesWithBank(s', i)
    {
      assert AgreesWithBank(s, i);
    }
    FencesRest(s, s');
  }

  lemma FencesRest(s: Sys, s': Sys)
    requires FencesInv(s) && s'.db == s.db && s'.late == s.late
    ensures FencesInv(s')
  {
    forall i: nat, j: nat | i < j && Fired(s', i) && Fired(s', j) && i !in s'.late
      ensures s'.db.attempts[i].fence.value < s'.db.attempts[j].fence.value
    {
      assert Fired(s, i) && Fired(s, j);
    }
    forall i | i in s'.late
      ensures Fired(s', i) && s'.db.attempts[i].outcome == Some(AbandonedStale)
    {
      assert Fired(s, i);
    }
  }

  lemma StepOtherRequest(s: Sys, r: Request)
    requires Inv(s) && Enabled(s, OtherRequest(r))
    ensures Inv(Apply(s, OtherRequest(r)))
  {
    hide RowsInv, TimesInv, FencesInv, BankAgrees, GrantsInv;
    var s' := Apply(s, OtherRequest(r));
    Bank.NetworkMayGrow(s.bank, s.net, s'.net);
    CoreRest(s, s');
    forall p | p in s'.procs ensures ProcOk(s', s'.procs[p]) { ProcOkIsStable(s, s', s.procs[p]); }
    assert Ready(s') ==> Ready(s);
  }

  lemma StepBank(s: Sys, b: Bank.Action)
    requires Inv(s) && Enabled(s, BankStep(b))
    ensures Inv(Apply(s, BankStep(b)))
  {
    hide Bank.Inv, Bank.Enabled, Bank.Apply, L.RunOp, L.Sound;
    var s' := Apply(s, BankStep(b));
    Bank.StepKeepsInv(s.bank, s.net, b);
    Bank.StepRunsItsDiskOp(s.bank, s.net, b);
    CoreRest(s, s');
    forall p | p in s'.procs ensures ProcOk(s', s'.procs[p]) { ProcOkIsStable(s, s', s.procs[p]); }
    assert Ready(s') ==> Ready(s);
  }

  lemma StepSend(s: Sys, p: nat)
    requires Inv(s) && Enabled(s, Send(p))
    ensures Inv(Apply(s, Send(p)))
  {
    hide Bank.Inv, RowsInv, TimesInv, FencesInv, BankAgrees, NetInv, GrantsInv, ReadyInv, RecordedInv;
    var s' := Apply(s, Send(p));
    var q := s.procs[p];
    assert ProcOk(s, q);
    Bank.NetworkMayGrow(s.bank, s.net, s'.net);
    assert Fired(s', q.i);
    assert SentFor(s', RequestFor(s, q.i, q.fence));
    CoreRest(s, s');
    ProcsMove(s, s', p);
    Quiet(s, s', p);
  }

  // ---------------------------------------------------------------------------------------
  // Giving budget back

  lemma AbandonKeepsInv(s: Sys, p: nat, i: nat)
    requires Inv(s) && p in s.procs && i < |s.db.attempts|
    ensures Inv(Finish(s.(db := Abandon(s.db, i).0), p))
  {
    var s' := Finish(s.(db := Abandon(s.db, i).0), p);
    if Abandon(s.db, i).1 != Done {
      LocalStep(s, s', p);
    } else {
      RefundCore(s, s', i);
      ProcsMove(s, s', p);
      RefundReady(s, s', p, i);
    }
  }

  /** An open attempt is the newest one. */
  lemma OpenIsNewest(t: Tables, i: nat)
    requires RowsInv(t) && i < |t.attempts| && Open(t.attempts[i])
    ensures i == |t.attempts| - 1
  {
  }

  lemma RefundRows(t: Tables, i: nat)
    requires RowsInv(t) && i < |t.attempts| && Open(t.attempts[i])
    ensures Refund(t, i).1 == Done && RowsInv(Refund(t, i).0) && DbMoves(t, Refund(t, i).0)
    ensures AllClosed(Refund(t, i).0)
  {
    RefundKeepsRows(t, i);
    RefundMoves(t, i);
  }

  lemma RefundMoves(t: Tables, i: nat)
    requires RowsInv(t) && i < |t.attempts| && Open(t.attempts[i]) && Refund(t, i).1 == Done
    ensures DbMoves(t, Refund(t, i).0) && AllClosed(Refund(t, i).0)
  {
    OpenIsNewest(t, i);
  }

  lemma RefundKeepsRows(t: Tables, i: nat)
    requires RowsInv(t) && i < |t.attempts| && Open(t.attempts[i])
    ensures Refund(t, i).1 == Done && RowsInv(Refund(t, i).0)
  {
    OpenIsNewest(t, i);
    SlotsHeldBounds(t.attempts);
    SlotsHeldUpdate(t.attempts, i, t.attempts[i].(outcome := Some(AbandonedStale)));
    var t' := Refund(t, i).0;
    forall k | 0 <= k < |t'.attempts|
      ensures AttemptOk(t', k)
    {
      assert AttemptOk(t, k);
    }
  }

  lemma RefundCore(s: Sys, s': Sys, i: nat)
    requires Inv(s) && i < |s.db.attempts| && Open(s.db.attempts[i])
    requires s' == s.(db := Refund(s.db, i).0, procs := s'.procs)
    requires s.db.attempts[i].firedAt.Some? ==>
               var key := s.db.attempts[i].key;
               key in s.bank.disk.mem.debits && s.bank.disk.mem.debits[key].outcome != Success
    ensures CoreInv(s') && Moves(s, s')
  {
    RefundRows(s.db, i);
    RowUpdateCore(s, s', i);
  }

  /** One row changed outcome or was fired: what the change must satisfy for rows and bank. */
  lemma RowUpdateCore(s: Sys, s': Sys, i: nat)
    requires CoreInv(s) && i < |s.db.attempts|
    requires RowsInv(s'.db) && DbMoves(s.db, s'.db)
    requires s' == s.(db := s'.db, late := s'.late, procs := s'.procs) && s.late <= s'.late
    requires s'.db.lease == s.db.lease && s'.db.outbox == s.db.outbox
    requires |s'.db.attempts| == |s.db.attempts|
    requires forall k | 0 <= k < |s.db.attempts| && k != i :: s'.db.attempts[k] == s.db.attempts[k]
    requires AgreesWithBank(s', i)
    requires forall k | k in s'.late :: k in s.late || k == i
    requires Fired(s', i) && i in s'.late ==> s'.db.attempts[i].outcome == Some(AbandonedStale)
    requires i in s'.late ==> Fired(s', i)
    requires Fired(s', i) && !Fired(s, i) ==>
               && s.db.attempts[i].scheduledFor <= s'.db.attempts[i].firedAt.value <= s.now
               && NoticeInTime(s.db, i)
               && AboveEarlierFences(s, i, s'.db.attempts[i].fence.value)
               && (i in s'.late || i == |s.db.attempts| - 1)
    ensures CoreInv(s') && Moves(s, s')
  {
    hide Bank.Inv, NetInv;
    MovedNet(s, s');
    forall k | 0 <= k < |s'.db.attempts|
      ensures AgreesWithBank(s', k)
    {
      assert AgreesWithBank(s, k);
    }
    forall k | 0 <= k < |s'.db.attempts| && s'.db.attempts[k].firedAt.Some?
      ensures s'.db.attempts[k].scheduledFor <= s'.db.attempts[k].firedAt.value <= s'.now && NoticeInTime(s'.db, k)
    {
      assert AttemptOk(s'.db, k) && AttemptOk(s.db, k);
      assert RowMoves(s.db.attempts[k], s'.db.attempts[k]);
    }
    UpdatedFences(s, s', i);
    forall k: nat | k < |s.db.attempts| - 1 && !Fired(s, k) && Fired(s', k)
      ensures k in s'.late
    {
    }
  }

  /** Requests stay those of fired attempts. */
  lemma MovedNet(s: Sys, s': Sys)
    requires NetInv(s) && DbMoves(s.db, s'.db) && s'.net == s.net
    ensures NetInv(s')
  {
    forall r | r in s'.net && r.cycle == s'.db.cycle.id
      ensures SentFor(s', r)
    {
      assert SentFor(s, r);
      var k: nat :| Fired(s, k) && r == RequestFor(s, k, s.db.attempts[k].fence.value);
      assert RowMoves(s.db.attempts[k], s'.db.attempts[k]);
      assert Fired(s', k) && r == RequestFor(s', k, s'.db.attempts[k].fence.value);
    }
  }

  lemma UpdatedFences(s: Sys, s': Sys, i: nat)
    requires FencesInv(s) && RowsInv(s.db) && i < |s.db.attempts| == |s'.db.attempts|
    requires s.late <= s'.late
    requires forall k | 0 <= k < |s.db.attempts| && k != i :: s'.db.attempts[k] == s.db.attempts[k]
    requires RowMoves(s.db.attempts[i], s'.db.attempts[i])
    requires forall k | k in s'.late :: k in s.late || k == i
    requires Fired(s', i) && i in s'.late ==> s'.db.attempts[i].outcome == Some(AbandonedStale)
    requires i in s'.late ==> Fired(s', i)
    requires Fired(s', i) && !Fired(s, i) ==>
               AboveEarlierFences(s, i, s'.db.attempts[i].fence.value) && (i in s'.late || i == |s.db.attempts| - 1)
    ensures FencesInv(s')
  {
    forall k | k in s'.late
      ensures Fired(s', k) && s'.db.attempts[k].outcome == Some(AbandonedStale)
    {
      if k != i {
        assert Fired(s, k);
      }
    }
    forall k: nat, l: nat | k < l && Fired(s', k) && Fired(s', l) && k !in s'.late
      ensures s'.db.attempts[k].fence.value < s'.db.attempts[l].fence.value
    {
      if k != i {
        assert Fired(s, k);
      }
      if l != i {
        assert Fired(s, l);
      }
    }
  }

  lemma RefundReady(s: Sys, s': Sys, p: nat, i: nat)
    requires Inv(s) && i < |s.db.attempts| && Open(s.db.attempts[i])
    requires s' == s.(db := Refund(s.db, i).0, procs := s'.procs) && OthersStay(s, s', p) && p !in s'.procs
    ensures ReadyInv(s') && RecordedInv(s')
  {
    OpenIsNewest(s.db, i);
    SlotsHeldBounds(s.db.attempts);
    forall r | r in s'.procs
      ensures !FailureRecorded(s'.procs[r])
    {
      assert ProcOk(s, s.procs[r]);
    }
  }

  lemma StepResolve(s: Sys, p: nat)
    requires Inv(s) && Enabled(s, Protocol.Action.Resolve(p))
    ensures Inv(Apply(s, Protocol.Action.Resolve(p)))
  {
    hide Bank.Inv, RowsInv, TimesInv, FencesInv, BankAgrees, NetInv, GrantsInv, RecordedInv;
    var s' := Apply(s, Protocol.Action.Resolve(p));
    var q := s.procs[p];
    assert ProcOk(s, q);
    if !Resolvable(s.db.attempts[q.i]) {
      LocalStep(s, s', p);
    } else if q.outcome == Success {
      DebitedCore(s, s', p);
      ProcsMove(s, s', p);
      Quiet(s, s', p);
    } else {
      RefundCore(s, s', q.i);
      ProcsMove(s, s', p);
      RefundReady(s, s', p, q.i);
    }
  }

  lemma DebitedCore(s: Sys, s': Sys, p: nat)
    requires Inv(s) && At(s, p) && s.procs[p].Answered? && s.procs[p].outcome == Success
    requires Resolvable(s.db.attempts[s.procs[p].i])
    requires s' == s.(db := ResolveDebited(s.db, s.procs[p].i).0, procs := s'.procs)
    ensures CoreInv(s') && Moves(s, s')
  {
    var i := s.procs[p].i;
    assert ProcOk(s, s.procs[p]);
    assert AttemptOk(s.db, i);
    OutcomeRows(s.db, s'.db, i);
    RecordedCore(s, s', i);
  }

  /** A known outcome written on an open fired attempt agrees with the bank. */
  lemma RecordedCore(s: Sys, s': Sys, i: nat)
    requires CoreInv(s) && i < |s.db.attempts| && Resolvable(s.db.attempts[i])
    requires RowsInv(s'.db) && DbMoves(s.db, s'.db)
    requires s' == s.(db := s'.db, procs := s'.procs)
    requires s'.db.lease == s.db.lease && s'.db.outbox == s.db.outbox
    requires |s'.db.attempts| == |s.db.attempts|
    requires s'.db.attempts == s.db.attempts[i := s'.db.attempts[i]]
    requires s'.db.attempts[i].outcome != Some(AbandonedStale)
    requires AgreesWithBank(s', i)
    ensures CoreInv(s') && Moves(s, s')
  {
    assert AttemptOk(s.db, i);
    assert Fired(s, i);
    assert i !in s.late;
    RowUpdateCore(s, s', i);
  }

  /** Writing a new outcome other than ABANDONED_STALE on an open fired attempt. */
  lemma OutcomeRows(t: Tables, t': Tables, i: nat)
    requires RowsInv(t) && i < |t.attempts| && Resolvable(t.attempts[i])
    requires |t'.attempts| == |t.attempts|
    requires t'.attempts == t.attempts[i := t.attempts[i].(outcome := t'.attempts[i].outcome,
               code := t'.attempts[i].code)]
    requires t' == t.(attempts := t'.attempts, cycle := t.cycle.(state := t'.cycle.state))
    requires t'.attempts[i].outcome.Some? && t'.attempts[i].outcome != Some(AbandonedStale)
    requires t'.attempts[i].code.Some? <==> t'.attempts[i].outcome == Some(Failure)
    ensures RowsInv(t') && DbMoves(t, t')
  {
    OpenIsNewest(t, i);
    SlotsHeldUpdate(t.attempts, i, t'.attempts[i]);
    forall k | 0 <= k < |t'.attempts|
      ensures AttemptOk(t', k)
    {
      assert AttemptOk(t, k);
    }
  }

  lemma StepRecordTimeout(s: Sys, p: nat)
    requires Inv(s) && Enabled(s, RecordTimeout(p))
    ensures Inv(Apply(s, RecordTimeout(p)))
  {
    hide Bank.Inv, TimesInv, FencesInv, BankAgrees, NetInv, GrantsInv, ReadyInv, RecordedInv;
    var s' := Apply(s, RecordTimeout(p));
    var q := s.procs[p];
    assert ProcOk(s, q);
    if s.db.attempts[q.i].outcome.Some? {
      LocalStep(s, s', p);
    } else {
      OutcomeRows(s.db, s'.db, q.i);
      RecordedCore(s, s', q.i);
      ProcsMove(s, s', p);
      Quiet(s, s', p);
    }
  }

  lemma StepRecordReply(s: Sys, p: nat, h: nat)
    requires Inv(s) && Enabled(s, RecordReply(p, h))
    ensures Inv(Apply(s, RecordReply(p, h)))
  {
    var q, reply := s.procs[p], s.bank.handlers[h].reply;
    if RecordOutcome(s.db, q.i, reply.outcome, reply.code).1 != Done {
      LocalStep(s, RecordReplyStep(s, p, h), p);
    } else {
      ReplyIsBacked(s, p, h);
      RecordReplyDone(s, RecordReplyStep(s, p, h), p, reply.outcome, reply.code);
    }
  }

  lemma RecordReplyDone(s: Sys, s': Sys, p: nat, outcome: Outcome, code: Option<FailureCode>)
    requires Inv(s) && At(s, p) && s.procs[p].Waiting? && Bank.Decision(outcome, code)
    requires var key := s.db.attempts[s.procs[p].i].key;
             && key in s.bank.disk.mem.debits
             && s.bank.disk.mem.debits[key].outcome == outcome
             && s.bank.disk.mem.debits[key].code == code
    requires RecordOutcome(s.db, s.procs[p].i, outcome, code).1 == Done
    requires s' == Become(s.(db := RecordOutcome(s.db, s.procs[p].i, outcome, code).0), p,
                          Recorded(s.procs[p].i, s.procs[p].used, outcome, code))
    ensures Inv(s')
  {
    RecordReplyRows(s, s', p, outcome, code);
    RecordReplyShape(s, s', p, outcome, code);
    ProcsMove(s, s', p);
    assert ProcOk(s, s.procs[p]);
    RecordedReady(s, s', p);
  }

  lemma RecordReplyShape(s: Sys, s': Sys, p: nat, outcome: Outcome, code: Option<FailureCode>)
    requires At(s, p) && s.procs[p].Waiting? && Bank.Decision(outcome, code)
    requires RecordOutcome(s.db, s.procs[p].i, outcome, code).1 == Done
    requires s' == Become(s.(db := RecordOutcome(s.db, s.procs[p].i, outcome, code).0), p,
                          Recorded(s.procs[p].i, s.procs[p].used, outcome, code))
    ensures OthersStay(s, s', p)
    ensures |s.db.attempts| == |s'.db.attempts| && s'.db.cycle == s.db.cycle
    ensures s.db.attempts[s.procs[p].i].outcome == None
  {
  }

  lemma RecordReplyRows(s: Sys, s': Sys, p: nat, outcome: Outcome, code: Option<FailureCode>)
    requires Inv(s) && At(s, p) && s.procs[p].Waiting? && Bank.Decision(outcome, code)
    requires var key := s.db.attempts[s.procs[p].i].key;
             && key in s.bank.disk.mem.debits
             && s.bank.disk.mem.debits[key].outcome == outcome
             && s.bank.disk.mem.debits[key].code == code
    requires RecordOutcome(s.db, s.procs[p].i, outcome, code).1 == Done
    requires s' == Become(s.(db := RecordOutcome(s.db, s.procs[p].i, outcome, code).0), p,
                          Recorded(s.procs[p].i, s.procs[p].used, outcome, code))
    ensures CoreInv(s') && Moves(s, s')
    ensures s.procs[p].i == |s.db.attempts| - 1
    ensures ProcOk(s', s'.procs[p])
  {
    var i := s.procs[p].i;
    assert ProcOk(s, s.procs[p]);
    OpenIsNewest(s.db, i);
    OutcomeRows(s.db, s'.db, i);
    RecordedCore(s, s', i);
  }

  lemma ReplyIsBacked(s: Sys, p: nat, h: nat)
    requires Inv(s) && Enabled(s, RecordReply(p, h))
    ensures var key := s.db.attempts[s.procs[p].i].key;
            var reply := s.bank.handlers[h].reply;
            && key in s.bank.disk.mem.debits
            && s.bank.disk.mem.debits[key].outcome == reply.outcome
            && s.bank.disk.mem.debits[key].code == reply.code
            && Bank.Decision(reply.outcome, reply.code)
  {
    assert Bank.HandlerOk(s.bank.disk.mem, s.net, s.bank.handlers[h]);
    assert Bank.EntryOk(s.bank.disk.mem.debits[s.db.attempts[s.procs[p].i].key]);
  }

  /** Recording an outcome closes the newest attempt while nobody may reserve. */
  lemma RecordedReady(s: Sys, s': Sys, p: nat)
    requires Inv(s) && p in s.procs && s.procs[p].Waiting? && OthersStay(s, s', p)
    requires ProcOk(s, s.procs[p]) && s.db.attempts[s.procs[p].i].outcome == None
    requires s.procs[p].i == |s.db.attempts| - 1
    requires |s'.db.attempts| == |s.db.attempts| && s'.db.cycle == s.db.cycle
    requires p in s'.procs && s'.procs[p].Recorded? && s'.procs[p].i == s.procs[p].i
               && s'.procs[p].used == s.procs[p].used
    ensures ReadyInv(s') && RecordedInv(s')
  {
    assert !Ready(s) by {
      assert !RetryOk(s.db.attempts[s.procs[p].i]);
    }
    assert Ready(s') ==> Ready(s);
    forall r | r in s'.procs && r != p
      ensures !FailureRecorded(s'.procs[r])
    {
      assert ProcOk(s, s.procs[r]);
    }
  }

  // ---------------------------------------------------------------------------------------
  // State column only

  /** Writing the state column changes nothing else. */
  lemma StateCore(s: Sys, s': Sys, state: State)
    requires Inv(s) && s' == s.(db := SetState(s.db, state), procs := s'.procs)
    ensures CoreInv(s') && Moves(s, s')
  {
    forall k | 0 <= k < |s'.db.attempts|
      ensures AttemptOk(s'.db, k)
    {
      assert AttemptOk(s.db, k);
    }
    SameAttempts(s, s');
  }

  lemma StepHold(s: Sys, p: nat)
    requires Inv(s) && Enabled(s, Hold(p))
    ensures Inv(Apply(s, Hold(p)))
  {
    var s' := Apply(s, Hold(p));
    StateCore(s, s', Held);
    ProcsMove(s, s', p);
    Quiet(s, s', p);
  }

  lemma StepAdvance(s: Sys, p: nat, class_: FailureClass)
    requires Inv(s) && Enabled(s, Advance(p, class_))
    ensures Inv(Apply(s, Advance(p, class_)))
  {
    var s' := Apply(s, Advance(p, class_));
    var state := AdvancedState(s.procs[p], class_);
    if state == None {
      LocalStep(s, s', p);
    } else {
      StateCore(s, s', state.value);
      ProcsMove(s, s', p);
      if state.value != Pending {
        Quiet(s, s', p);
      } else {
        ReturnedReady(s, s', p, class_);
      }
    }
  }

  /** A worker returns the cycle to pending only after a failure it may retry, with budget left. */
  lemma ReturnedReady(s: Sys, s': Sys, p: nat, class_: FailureClass)
    requires Inv(s) && Enabled(s, Advance(p, class_)) && s' == Apply(s, Advance(p, class_))
    requires AdvancedState(s.procs[p], class_) == Some(Pending)
    ensures ReadyInv(s') && RecordedInv(s')
  {
    hide Bank.Inv, TimesInv, FencesInv, BankAgrees, NetInv, GrantsInv;
    var q := s.procs[p];
    assert ProcOk(s, q) && FailureRecorded(q);
    assert AttemptOk(s.db, q.i);
    forall r | r in s'.procs
      ensures !FailureRecorded(s'.procs[r])
    {
      assert r != p;
    }
  }

  // ---------------------------------------------------------------------------------------
  // Lease, mark, reservation, delivery

  /** Nothing but the lease row changed, and its fence did not fall. */
  lemma LeaseCore(s: Sys, s': Sys)
    requires CoreInv(s) && GrantsInv(s') && s.db.lease.fence <= s'.db.lease.fence
    requires s' == s.(db := s.db.(lease := s'.db.lease), grants := s'.grants, procs := s'.procs)
    ensures CoreInv(s') && Moves(s, s')
  {
    forall k | 0 <= k < |s'.db.attempts|
      ensures AttemptOk(s'.db, k)
    {
      assert AttemptOk(s.db, k);
    }
    SameAttempts(s, s');
  }

  /** The next lease period starts after the last one has expired. */
  lemma NextGrant(s: Sys, s': Sys, holder: string, ttl: Time)
    requires GrantsInv(s) && ttl > 0 && s.db.lease.expiresAt < s.now
    requires s'.now == s.now && s'.db.lease == Lease(Some(holder), s.db.lease.fence + 1, s.now + ttl)
    requires s'.grants == s.grants + [Grant(s.db.lease.fence + 1, s.now, s.now + ttl)]
    ensures GrantsInv(s')
  {
  }

  lemma GrantCore(s: Sys, p: nat, holder: string)
    requires CoreInv(s) && Enabled(s, Acquire(p, holder)) && s.db.lease.expiresAt < s.now
    ensures CoreInv(AcquireStep(s, p, holder)) && Moves(s, AcquireStep(s, p, holder))
    ensures AcquireStep(s, p, holder).db.lease.fence == s.db.lease.fence + 1 > 0
  {
    hide Bank.Inv, RowsInv, TimesInv, FencesInv, BankAgrees, NetInv;
    var s' := AcquireStep(s, p, holder);
    NextGrant(s, s', holder, if s.procs[p].Claimed? then WORKER_LEASE else RECONCILER_LEASE);
    LeaseCore(s, s');
  }

  lemma StepAcquire(s: Sys, p: nat, holder: string)
    requires Inv(s) && Enabled(s, Acquire(p, holder))
    ensures Inv(Apply(s, Acquire(p, holder)))
  {
    hide Bank.Inv, RowsInv, TimesInv, FencesInv, BankAgrees, NetInv, GrantsInv, ReadyInv, RecordedInv;
    var s' := AcquireStep(s, p, holder);
    var q := s.procs[p];
    if s.db.lease.expiresAt < s.now {
      GrantCore(s, p, holder);
      assert ProcOk(s, q);
      AboveAll(s, s', q.i, s.db.lease.fence + 1);
      ProcsMove(s, s', p);
      Quiet(s, s', p);
    } else {
      LocalStep(s, s', p);
    }
  }

  /** A lease handed out carries a fence above that of every fired attempt, marked late or not. */
  lemma NewFenceIsHighest(s: Sys, p: nat, holder: string)
    requires Inv(s) && Enabled(s, Acquire(p, holder)) && s.db.lease.expiresAt < s.now
    ensures var s' := Apply(s, Acquire(p, holder));
            && s'.db.lease.fence == s.db.lease.fence + 1
            && s'.db.lease.expiresAt == s.now + (if s.procs[p].Claimed? then 30 * SECOND else 5 * MINUTE)
            && (s.procs[p].Claimed? ==> p in s'.procs && s'.procs[p] == Leased(s.procs[p].i, s'.db.lease.fence))
            && forall j: nat | Fired(s', j) :: s'.db.attempts[j].fence.value < s'.db.lease.fence
  {
    hide Bank.Inv, TimesInv, FencesInv, BankAgrees, NetInv, ReadyInv, RecordedInv;
    var s' := AcquireStep(s, p, holder);
    forall j: nat | Fired(s', j)
      ensures s'.db.attempts[j].fence.value < s'.db.lease.fence
    {
      assert AttemptOk(s.db, j);
    }
  }

  /** A fence just handed out exceeds that of every earlier attempt. */
  lemma AboveAll(s: Sys, s': Sys, i: nat, fence: int)
    requires RowsInv(s.db) && i < |s.db.attempts| && fence == s.db.lease.fence + 1
    requires s'.db.attempts == s.db.attempts
    ensures AboveEarlierFences(s', i, fence)
  {
    forall j: nat | j < i && Fired(s', j) && j !in s'.late
      ensures s'.db.attempts[j].fence.value < fence
    {
      assert AttemptOk(s.db, j);
    }
  }

  lemma StepMark(s: Sys, p: nat)
    requires Inv(s) && Enabled(s, Mark(p))
    ensures Inv(Apply(s, Mark(p)))
  {
    hide Bank.Inv, RowsInv, TimesInv, FencesInv, BankAgrees, NetInv, GrantsInv, ReadyInv, RecordedInv;
    var s' := MarkStep(s, p);
    var q := s.procs[p];
    assert ProcOk(s, q);
    if s.db.attempts[q.i].firedAt.Some? {
      LocalStep(s, s', p);
    } else {
      MarkCore(s, s', p);
      ProcsMove(s, s', p);
      Quiet(s, s', p);
    }
  }

  lemma MarkCore(s: Sys, s': Sys, p: nat)
    requires Inv(s) && At(s, p) && s.procs[p].Loaded? && s' == MarkStep(s, p)
    requires s.db.attempts[s.procs[p].i].firedAt == None
    ensures CoreInv(s') && Moves(s, s')
    ensures p in s'.procs && s'.procs[p].Marked? && ProcOk(s', s'.procs[p])
    ensures s'.db.cycle == s.db.cycle.(state := InFlight) && |s'.db.attempts| == |s.db.attempts|
  {
    var q := s.procs[p];
    assert ProcOk(s, q);
    MarkRows(s.db, q.i, q.fence, s.now);
    assert AttemptOk(s.db, q.i);
    RowUpdateCore(s, s', q.i);
  }

  lemma MarkRows(t: Tables, i: nat, fence: int, now: Time)
    requires RowsInv(t) && i < |t.attempts| && t.attempts[i].firedAt == None && 1 <= fence <= t.lease.fence
    ensures RowsInv(MarkFired(t, i, fence, now).0) && DbMoves(t, MarkFired(t, i, fence, now).0)
  {
    MarkKeepsRows(t, i, fence, now);
    MarkMoves(t, i, fence, now);
  }

  lemma MarkMoves(t: Tables, i: nat, fence: int, now: Time)
    requires i < |t.attempts| && t.attempts[i].firedAt == None && t.attempts[i].fence == None
    ensures DbMoves(t, MarkFired(t, i, fence, now).0)
  {
  }

  lemma MarkKeepsRows(t: Tables, i: nat, fence: int, now: Time)
    requires RowsInv(t) && i < |t.attempts| && t.attempts[i].firedAt == None && 1 <= fence <= t.lease.fence
    ensures t.attempts[i].fence == None && RowsInv(MarkFired(t, i, fence, now).0)
  {
    assert AttemptOk(t, i);
    var t' := MarkFired(t, i, fence, now).0;
    SlotsHeldUpdate(t.attempts, i, t'.attempts[i]);
    forall k | 0 <= k < |t'.attempts|
      ensures AttemptOk(t', k)
    {
      assert AttemptOk(t, k);
    }
  }

  lemma StepReserve(s: Sys, p: nat, id: string, scheduledFor: Time, deliverBy: Time)
    requires Inv(s) && Enabled(s, ReserveSlot(p, id, scheduledFor, deliverBy))
    ensures Inv(Apply(s, ReserveSlot(p, id, scheduledFor, deliverBy)))
  {
    hide Bank.Inv, TimesInv, FencesInv, BankAgrees, NetInv, GrantsInv, RecordedInv;
    var s' := Apply(s, ReserveSlot(p, id, scheduledFor, deliverBy));
    var version := s.procs[p].version;
    assert ProcOk(s, s.procs[p]);
    if Reserve(s.db, version, id, scheduledFor, deliverBy).1 != Done {
      LocalStep(s, s', p);
    } else {
      assert HoldsVersion(s.procs[p], s.db.cycle.version) && Ready(s);
      ReserveRows(s.db, version, id, scheduledFor, deliverBy);
      ReserveCore(s, s');
      ProcsMove(s, s', p);
      NobodyReady(s, s', p);
    }
  }

  lemma ReserveRows(t: Tables, version: int, id: string, scheduledFor: Time, deliverBy: Time)
    requires RowsInv(t) && Reserve(t, version, id, scheduledFor, deliverBy).1 == Done
    requires forall i | 0 <= i < |t.attempts| :: RetryOk(t.attempts[i])
    ensures RowsInv(Reserve(t, version, id, scheduledFor, deliverBy).0)
    ensures DbMoves(t, Reserve(t, version, id, scheduledFor, deliverBy).0)
  {
    ReserveKeepsRows(t, version, id, scheduledFor, deliverBy);
    ReserveMoves(t, version, id, scheduledFor, deliverBy);
  }

  lemma ReserveKeepsRows(t: Tables, version: int, id: string, scheduledFor: Time, deliverBy: Time)
    requires RowsInv(t) && Reserve(t, version, id, scheduledFor, deliverBy).1 == Done
    requires forall i | 0 <= i < |t.attempts| :: RetryOk(t.attempts[i])
    ensures RowsInv(Reserve(t, version, id, scheduledFor, deliverBy).0)
  {
    var t' := Reserve(t, version, id, scheduledFor, deliverBy).0;
    SlotsHeldAppend(t.attempts, NewAttempt(t, id, scheduledFor));
    forall k | 0 <= k < |t'.attempts|
      ensures AttemptOk(t', k)
    {
      assert k < |t.attempts| ==> AttemptOk(t, k);
    }
  }

  lemma ReserveMoves(t: Tables, version: int, id: string, scheduledFor: Time, deliverBy: Time)
    requires Reserve(t, version, id, scheduledFor, deliverBy).1 == Done
    requires forall i | 0 <= i < |t.attempts| :: RetryOk(t.attempts[i])
    ensures DbMoves(t, Reserve(t, version, id, scheduledFor, deliverBy).0)
  {
  }

  /** A new unfired attempt at the end does not disturb rows or bank. */
  lemma ReserveCore(s: Sys, s': Sys)
    requires CoreInv(s) && RowsInv(s'.db) && DbMoves(s.db, s'.db)
    requires s' == s.(db := s'.db, procs := s'.procs)
    requires s'.db.lease == s.db.lease
    requires |s'.db.attempts| == |s.db.attempts| + 1
    requires s'.db.attempts[..|s.db.attempts|] == s.db.attempts
    requires s'.db.outbox[..|s.db.outbox|] == s.db.outbox
    requires s'.db.attempts[|s.db.attempts|].firedAt == None && s'.db.attempts[|s.db.attempts|].outcome == None
    ensures CoreInv(s') && Moves(s, s')
  {
    hide Bank.Inv;
    var n := |s.db.attempts|;
    assert forall k | 0 <= k < n ::
             s'.db.attempts[k] == s'.db.attempts[..n][k] && s'.db.outbox[k] == s'.db.outbox[..n][k];
    forall k: nat | Fired(s', k)
      ensures Fired(s, k)
    {
    }
    forall k | 0 <= k < |s'.db.attempts|
      ensures AgreesWithBank(s', k)
    {
      assert k < n ==> AgreesWithBank(s, k);
    }
    forall r | r in s'.net && r.cycle == s'.db.cycle.id
      ensures SentFor(s', r)
    {
      assert SentFor(s, r);
      var k: nat :| Fired(s, k) && r == RequestFor(s, k, s.db.attempts[k].fence.value);
      assert Fired(s', k) && r == RequestFor(s', k, s'.db.attempts[k].fence.value);
    }
  }

  /** After a reservation every snapshot is out of date and the cycle is not pending. */
  lemma NobodyReady(s: Sys, s': Sys, p: nat)
    requires Inv(s) && Ready(s) && OthersStay(s, s', p) && p !in s'.procs
    requires s'.db.cycle.version == s.db.cycle.version + 1 && s'.db.cycle.state != Pending
    ensures ReadyInv(s') && RecordedInv(s')
  {
    forall r | r in s'.procs
      ensures !HoldsVersion(s'.procs[r], s'.db.cycle.version) && !FailureRecorded(s'.procs[r])
    {
      assert ProcOk(s, s.procs[r]);
    }
  }

  lemma StepDeliver(s: Sys, p: nat, at: Time)
    requires Inv(s) && Enabled(s, Deliver(p, at))
    ensures Inv(Apply(s, Deliver(p, at)))
  {
    var s' := Apply(s, Deliver(p, at));
    DeliverCore(s, s', s.db.attempts[s.procs[p].i].id, at);
    ProcsMove(s, s', p);
    Quiet(s, s', p);
  }

  lemma DeliverCore(s: Sys, s': Sys, id: string, at: Time)
    requires CoreInv(s) && s' == s.(db := DeliverNotice(s.db, id, at).0, procs := s'.procs)
    ensures CoreInv(s') && Moves(s, s')
  {
    DeliverRows(s.db, id, at);
    SameAttempts(s, s');
  }

  lemma DeliverRows(t: Tables, id: string, at: Time)
    requires RowsInv(t)
    ensures var t' := DeliverNotice(t, id, at).0;
            && RowsInv(t') && DbMoves(t, t')
            && t' == t.(outbox := t'.outbox)
  {
    var t' := DeliverNotice(t, id, at).0;
    forall k | 0 <= k < |t'.attempts|
      ensures AttemptOk(t', k)
    {
      assert AttemptOk(t, k);
    }
  }

  // ---------------------------------------------------------------------------------------

  predicate WorkerAction(a: Action) {
    || a.ClaimDue? || a.AbandonStale? || a.Acquire? || a.CheckNotice? || a.AbandonMissing? || a.LoadCycle?
    || a.Mark? || a.Send? || a.RecordTimeout? || a.RecordReply? || a.Advance?
  }

  lemma WorkerStepKeepsInv(s: Sys, a: Action)
    requires Inv(s) && Enabled(s, a) && WorkerAction(a)
    ensures Inv(Apply(s, a))
  {
    hide Inv;
    match a
    case ClaimDue(p, i) => StepClaimDue(s, p, i);
    case AbandonStale(p) => AbandonKeepsInv(s, p, s.procs[p].i);
    case Acquire(p, holder) => StepAcquire(s, p, holder);
    case CheckNotice(p) => StepCheckNotice(s, p);
    case AbandonMissing(p) => AbandonKeepsInv(s, p, s.procs[p].i);
    case LoadCycle(p) => StepLoadCycle(s, p);
    case Mark(p) => StepMark(s, p);
    case Send(p) => StepSend(s, p);
    case RecordTimeout(p) => StepRecordTimeout(s, p);
    case RecordReply(p, h) => StepRecordReply(s, p, h);
    case Advance(p, class_) => StepAdvance(s, p, class_);
  }

  predicate EnvironmentAction(a: Action) {
    a.Tick? || a.OtherRequest? || a.BankStep? || a.Crash?
  }

  lemma EnvironmentStepKeepsInv(s: Sys, a: Action)
    requires Inv(s) && Enabled(s, a) && EnvironmentAction(a)
    ensures Inv(Apply(s, a))
  {
    hide Inv;
    match a
    case Tick(to) => StepTick(s, to);
    case OtherRequest(r) => StepOtherRequest(s, r);
    case BankStep(b) => StepBank(s, b);
    case Crash(p) => StepCrash(s, p);
  }

  lemma OtherStepKeepsInv(s: Sys, a: Action)
    requires Inv(s) && Enabled(s, a) && !WorkerAction(a) && !EnvironmentAction(a)
    ensures Inv(Apply(s, a))
  {
    hide Inv;
    match a
    case TakeSnapshot(p) => StepTakeSnapshot(s, p);
    case LoadCode(p) => StepLoadCode(s, p);
    case ReserveSlot(p, id, scheduledFor, deliverBy) => StepReserve(s, p, id, scheduledFor, deliverBy);
    case PickUnresolved(p, i) => StepPickUnresolved(s, p, i);
    case Poll(p) => StepPoll(s, p);
    case Hold(p) => StepHold(s, p);
    case Resolve(p) => StepResolve(s, p);
    case PickNotice(p, i) => StepPickNotice(s, p, i);
    case CancelNotice(p) => AbandonKeepsInv(s, p, s.procs[p].i);
    case Deliver(p, at) => StepDeliver(s, p, at);
  }

  /** Every step keeps the invariant. */
  lemma StepKeepsInv(s: Sys, a: Action)
    requires Inv(s) && Enabled(s, a)
    ensures Inv(Apply(s, a))
  {
    if WorkerAction(a) {
      WorkerStepKeepsInv(s, a);
    } else if EnvironmentAction(a) {
      EnvironmentStepKeepsInv(s, a);
    } else {
      OtherStepKeepsInv(s, a);
    }
  }

  lemma InitHasInv(s: Sys)
    requires Init(s)
    ensures Inv(s)
  {
  }

  /** The invariant holds in every state any run can reach. */
  lemma {:induction false} RunKeepsInv(s: Sys, actions: seq<Action>, t: Sys)
    requires Inv(s) && Runs(s, actions, t)
    ensures Inv(t)
    decreases |actions|
  {
    if actions != [] {
      StepKeepsInv(s, actions[0]);
      RunKeepsInv(Apply(s, actions[0]), actions[1..], t);
    }
  }

  lemma ReachableInv(s: Sys, actions: seq<Action>, t: Sys)
    requires Init(s) && Runs(s, actions, t)
    ensures Inv(t)
  {
    InitHasInv(s);
    RunKeepsInv(s, actions, t);
  }

  lemma {:induction false} RunsAppend(s: Sys, actions: seq<Action>, t: Sys, a: Action)
    requires Runs(s, actions, t) && Enabled(t, a)
    ensures Runs(s, actions + [a], Apply(t, a))
    decreases |actions|
  {
    if actions == [] {
      assert actions + [a] == [a];
      assert Runs(Apply(t, a), [], Apply(t, a));
      assert [a][1..] == [];
    } else {
      RunsAppend(Apply(s, actions[0]), actions[1..], t, a);
      assert (actions + [a])[1..] == actions[1..] + [a];
    }
  }

  lemma {:induction false} RunsConcat(s: Sys, first: seq<Action>, t: Sys, second: seq<Action>, u: Sys)
    requires Runs(s, first, t) && Runs(t, second, u)
    ensures Runs(s, first + second, u)
    decreases |first|
  {
    if first == [] {
      assert first + second == second;
    } else {
      RunsConcat(Apply(s, first[0]), first[1..], t, second, u);
      assert (first + second)[1..] == first[1..] + second;
    }
  }
}
