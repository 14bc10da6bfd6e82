/** FireOne and Resolve as the sequential code their authors wrote, run against a deployment in
    which everybody else goes on between any two of their calls. Each of their calls is one step
    of the protocol, so the sequential code only produces runs of the state machine. */
module Deployment {
  import opened Domain
  import opened Classification
  import opened CycleTables
  import opened Protocol
  import opened Invariant
  import opened Preservation
  import opened History
  import Bank = DebitHandler

  /** execute.Result and reconcile.Result; `Failed` is a returned error. */
  datatype Result =
    | NotMyTurn
    | Stale
    | NoticeNotDelivered
    | FiredResult
    | ResultRecovered
    | ResultPending
    | ResultHeld
    | Failed

  /** The process an action belongs to. */
  function Actor(a: Action): Option<nat> {
    match a
    case Tick(_) => None
    case OtherRequest(_) => None
    case BankStep(_) => None
    case _ => Some(a.p)
  }

  /** Some run leads from s to t. */
  ghost predicate Leads(s: Sys, t: Sys) {
    exists actions: seq<Action> :: Runs(s, actions, t)
  }

  /** Others took any number of steps; p took none. */
  ghost predicate OthersRan(s: Sys, t: Sys, p: nat) {
    exists actions: seq<Action> :: Runs(s, actions, t) && forall k | 0 <= k < |actions| :: Actor(actions[k]) != Some(p)
  }

  lemma StepKeepsOthers(s: Sys, a: Action, p: nat)
    requires Enabled(s, a) && Actor(a) != Some(p)
    ensures p in Apply(s, a).procs <==> p in s.procs
    ensures p in s.procs ==> Apply(s, a).procs[p] == s.procs[p]
  {
    hide Bank.Apply, Bank.Enabled;
  }

  lemma StepLeadsOn(from: Sys, s: Sys, a: Action)
    requires Leads(from, s) && Enabled(s, a)
    ensures Leads(from, Apply(s, a))
  {
    var before: seq<Action> :| Runs(from, before, s);
    RunsAppend(from, before, s, a);
  }

  lemma NothingHappened(s: Sys, p: nat)
    ensures OthersRan(s, s, p)
  {
    assert Runs(s, [], s);
  }

  lemma AnotherStep(s: Sys, t: Sys, p: nat, a: Action)
    requires OthersRan(s, t, p) && Enabled(t, a) && Actor(a) != Some(p)
    ensures OthersRan(s, Apply(t, a), p)
  {
    var actions: seq<Action> :| Runs(s, actions, t) && forall k | 0 <= k < |actions| :: Actor(actions[k]) != Some(p);
    RunsAppend(s, actions, t, a);
    assert Runs(s, actions + [a], Apply(t, a));
  }

  lemma OnwardToItself(s: Sys)
    ensures Onward(s, s)
  {
  }

  /** The attempt is closed as abandoned. */
  predicate AbandonedNow(s: Sys, i: nat) {
    i < |s.db.attempts| && s.db.attempts[i].outcome == Some(AbandonedStale)
  }

  /** An answer of the bank to this process's own request. */
  predicate Reaches(s: Sys, p: nat, h: nat)
    requires At(s, p) && s.procs[p].Waiting?
  {
    && h in s.bank.handlers && s.bank.handlers[h].Done? && s.bank.handlers[h].reply.Ok?
    && s.bank.handlers[h].req == RequestFor(s, s.procs[p].i, s.procs[p].fence)
  }

  /** The bank has answered this process's own request with an outcome: the handler's request is the
      one for its attempt, under its fence. */
  ghost predicate ReplyIsHere(s: Sys, p: nat, reply: Option<nat>)
    requires At(s, p) && s.procs[p].Waiting?
  {
    && reply.Some? && reply.value in s.bank.handlers && s.bank.handlers[reply.value].Done?
    && s.bank.handlers[reply.value].reply.Ok?
    && var req, q := s.bank.handlers[reply.value].req, s.procs[p];
       && req.cycle == s.db.cycle.id && req.key == s.db.attempts[q.i].key && req.fence == q.fence
       && req.amountPaise == s.db.cycle.amountPaise && req.rail == s.db.cycle.rail
  }

  /** The label a cycle gets for an outcome: recovered for a success; for a failure escalated if the
      table ends the cycle at the code or the adviser does at a code outside it, else abandoned if
      the cycle row read held four attempts, else pending. */
  ghost predicate LabelFits(outcome: Outcome, code: Option<FailureCode>, class_: FailureClass, used: int,
                            state: State) {
    match outcome
    case Success => state == Recovered
    case Failure =>
      && code.Some?
      && var ends := code.value in ENDED || (code.value.Other? && class_ in {Terminal, ManualReview});
         state == if ends then Escalated else if used >= 4 then Abandoned else Pending
    case _ => false
  }

  /** How a debit ends for the worker, told from the state when its wait ends: recorded if and only
      if the attempt has no outcome yet; the bank's outcome and code if its reply is here, TIMEOUT
      if not. A closed attempt is an error that changes nothing. */
  ghost predicate Settled(ended: Sys, after: Sys, p: nat, reply: Option<nat>, class_: FailureClass, r: Result)
    requires At(ended, p) && ended.procs[p].Waiting?
  {
    var i := ended.procs[p].i;
    var row := ended.db.attempts[i];
    && i < |after.db.attempts|
    && r == (if row.outcome == None then FiredResult else Failed)
    && (r == Failed ==> after.db == ended.db)
    && (r == FiredResult ==>
          if ReplyIsHere(ended, p, reply) then
            var said := ended.bank.handlers[reply.value].reply;
            && after.db.attempts[i].outcome == Some(said.outcome) && after.db.attempts[i].code == said.code
            && LabelFits(said.outcome, said.code, class_, ended.procs[p].used, after.db.cycle.state)
          else
            && after.db.attempts[i] == row.(outcome := Some(Timeout), code := None)
            && after.db.cycle.state == Unknown)
  }

  /** A worker that got past the gate: `tried` is the state just before its mark, `ended` that when
      its wait for the bank ended. It fails at the mark if and only if the attempt was already
      fired; otherwise its request went out and the debit was settled. */
  ghost predicate Fires(from: Sys, after: Sys, tried: Sys, ended: Option<Sys>, p: nat, i: nat,
                        reply: Option<nat>, class_: FailureClass, r: Result)
  {
    && Leads(from, tried) && At(tried, p) && tried.procs[p].Loaded? && tried.procs[p].i == i
    && if tried.db.attempts[i].firedAt.Some? then r == Failed && ended == None && after.db == tried.db
       else
         && ended.Some? && Leads(from, ended.value) && At(ended.value, p)
         && ended.value.procs[p] == Waiting(i, tried.procs[p].fence, tried.procs[p].used)
         && RequestFor(ended.value, i, tried.procs[p].fence) in ended.value.net
         && Settled(ended.value, after, p, reply, class_, r)
  }

  /** Somebody else has fired the attempt or closed it. */
  predicate RowGone(s: Sys, i: nat) {
    i < |s.db.attempts| && (s.db.attempts[i].firedAt.Some? || s.db.attempts[i].outcome.Some?)
  }

  predicate LeaseHeld(s: Sys) {
    s.now <= s.db.lease.expiresAt
  }

  /** The bank has an entry under the attempt's key. */
  predicate HasEntry(s: Sys, i: nat) {
    i < |s.db.attempts| && s.db.attempts[i].key in s.bank.disk.mem.debits
  }

  /** The reply of the bank to a worker's request can be recorded. */
  lemma ReplyIsRecordable(s: Sys, p: nat, h: nat)
    requires Inv(s) && Enabled(s, RecordReply(p, h))
    ensures var reply := s.bank.handlers[h].reply;
            ValidOutcome(reply.outcome, reply.code) && (reply.outcome == Success || reply.outcome == Failure)
    ensures Fired(s, s.procs[p].i)
  {
    assert ProcOk(s, s.procs[p]);
    ReplyIsBacked(s, p, h);
  }

  lemma LeadsToItself(s: Sys)
    ensures Leads(s, s)
  {
    assert Runs(s, [], s);
  }

  /** A process may rely on its record. */
  lemma RecordIsOk(s: Sys, p: nat)
    requires Inv(s) && p in s.procs
    ensures At(s, p) && ProcOk(s, s.procs[p])
  {
  }

  lemma RefundGoesThrough(s: Sys, i: nat)
    requires Inv(s) && i < |s.db.attempts| && Open(s.db.attempts[i])
    ensures Refund(s.db, i).1 == Done
  {
    RefundRows(s.db, i);
  }

  lemma FiredIsNoticed(s: Sys, i: nat)
    requires Inv(s)
    ensures Fired(s, i) ==> NoticeInTime(s.db, i)
  {
  }

  class Cluster {
    var sys: Sys

    constructor (s: Sys)
      ensures sys == s
    {
      sys := s;
    }

    /** One call of the running process: one atomic step. */
    method Do(a: Action, ghost from: Sys)
      requires Inv(sys) && Leads(from, sys) && Enabled(sys, a)
      modifies this
      ensures sys == Apply(old(sys), a)
      ensures Inv(sys) && Leads(from, sys)
    {
      StepKeepsInv(sys, a);
      StepLeadsOn(from, sys, a);
      sys := Apply(sys, a);
    }

    /** Between two calls: the others run on, by any number of steps of their own choosing. */
    method Interfere(p: nat, ghost from: Sys)
      requires Inv(sys) && Leads(from, sys)
      modifies this
      ensures OthersRan(old(sys), sys, p)
      ensures Inv(sys) && Leads(from, sys)
      ensures p in sys.procs <==> p in old(sys).procs
      ensures p in sys.procs ==> sys.procs[p] == old(sys).procs[p]
      ensures Onward(old(sys), sys)
    {
      hide Inv, Leads, OthersRan, Onward;
      ghost var was := sys;
      NothingHappened(sys, p);
      OnwardToItself(sys);
      var steps: seq<Action> := *;
      for k := 0 to |steps|
        invariant OthersRan(was, sys, p) && Inv(sys) && Leads(from, sys) && Onward(was, sys)
        invariant p in sys.procs <==> p in was.procs
        invariant p in sys.procs ==> sys.procs[p] == was.procs[p]
      {
        if Enabled(sys, steps[k]) && Actor(steps[k]) != Some(p) {
          AnotherStep(was, sys, p, steps[k]);
          StepKeepsOthers(sys, steps[k], p);
          StepIsOnward(sys, steps[k]);
          OnwardTrans(was, sys, Apply(sys, steps[k]));
          Do(steps[k], from);
        }
      }
    }

    /** AbandonAttempt from one of its three callers. */
    method AbandonBy(p: nat, a: Action, ghost from: Sys) returns (done: bool)
      requires Inv(sys) && Leads(from, sys) && Enabled(sys, a)
      requires a == AbandonStale(p) || a == AbandonMissing(p)
      modifies this
      ensures Inv(sys) && Leads(from, sys) && p !in sys.procs
      ensures done <==> var row := old(sys).db.attempts[old(sys).procs[p].i]; row.outcome == None && row.firedAt == None
      ensures done ==> AbandonedNow(sys, old(sys).procs[p].i)
      ensures !done ==> sys.db == old(sys).db && RowGone(sys, old(sys).procs[p].i)
    {
      hide Inv, Leads;
      var i := sys.procs[p].i;
      var status := Abandon(sys.db, i).1;
      if Open(sys.db.attempts[i]) {
        RefundGoesThrough(sys, i);
      }
      Do(a, from);
      done := status == Done;
    }

    /** FireOne: staleness, lease, notice gate, cycle, mark, debit, record, advance. `clock` is the
        worker's own clock when it starts, `reply` the handler whose answer it waits for, `class_`
        the adviser's class for a code outside the table. */
    method FireOne(p: nat, i: nat, holder: string, clock: Time, reply: Option<nat>, class_: FailureClass)
      returns (r: Result, ghost tried: Option<Sys>, ghost ended: Option<Sys>)
      requires Inv(sys) && Enabled(sys, ClaimDue(p, i))
      modifies this
      ensures Inv(sys) && Leads(old(sys), sys) && p !in sys.procs
      ensures r in {NotMyTurn, Stale, NoticeNotDelivered, FiredResult, Failed}
      ensures r == Stale || r == NoticeNotDelivered ==> AbandonedNow(sys, i)
      ensures var stale := clock - old(sys).db.attempts[i].scheduledFor > 10 * MINUTE;
              && (stale ==> r == Stale || (r == NotMyTurn && RowGone(sys, i)))
              && (!stale ==> r != Stale && (r == NotMyTurn ==> LeaseHeld(sys) || RowGone(sys, i)))
      ensures r == FiredResult ==> Fired(sys, i) && NoticeInTime(sys.db, i) && sys.db.attempts[i].outcome.Some?
      ensures tried.Some? <==> r == FiredResult || r == Failed
      ensures tried.Some? ==> Fires(old(sys), sys, tried.value, ended, p, i, reply, class_, r)
    {
      hide Inv, Leads, Onward, Fires, AbandonedNow, NoticeInTime, OthersRan;
      ghost var from := sys;
      LeadsToItself(from);
      tried, ended := None, None;
      var stale := clock - sys.db.attempts[i].scheduledFor > STALE_AFTER;
      Do(ClaimDue(p, i), from);
      Interfere(p, from);
      RecordIsOk(sys, p);
      if stale {
        var done := AbandonBy(p, AbandonStale(p), from);
        r := if done then Stale else NotMyTurn;
        return;
      }
      Do(Acquire(p, holder), from);
      if p !in sys.procs {
        r := NotMyTurn;
        return;
      }
      r, tried, ended := FireLeased(p, i, reply, class_, from);
    }

    /** FireOne from the notice gate on, with the lease. */
    method FireLeased(p: nat, i: nat, reply: Option<nat>, class_: FailureClass, ghost from: Sys)
      returns (r: Result, ghost tried: Option<Sys>, ghost ended: Option<Sys>)
      requires Inv(sys) && Leads(from, sys) && p in sys.procs && sys.procs[p].Leased? && sys.procs[p].i == i
      modifies this
      ensures Inv(sys) && Leads(from, sys) && p !in sys.procs
      ensures r in {NotMyTurn, NoticeNotDelivered, FiredResult, Failed}
      ensures r == NoticeNotDelivered ==> AbandonedNow(sys, i)
      ensures r == NotMyTurn ==> RowGone(sys, i)
      ensures r == FiredResult ==> Fired(sys, i) && NoticeInTime(sys.db, i) && sys.db.attempts[i].outcome.Some?
      ensures tried.Some? <==> r == FiredResult || r == Failed
      ensures tried.Some? ==> Fires(from, sys, tried.value, ended, p, i, reply, class_, r)
    {
      hide Inv, Leads, Settled, AbandonedNow;
      tried, ended := None, None;
      var delivered := Gate(p, i, from);
      if !delivered {
        var done := AbandonBy(p, AbandonMissing(p), from);
        r := if done then NoticeNotDelivered else NotMyTurn;
        return;
      }
      var marked;
      ghost var before;
      marked, before := LoadAndMark(p, i, from);
      tried := Some(before);
      if !marked {
        r := Failed;
        return;
      }
      ghost var at;
      r, at := Debit(p, i, reply, class_, from);
      ended := Some(at);
    }

    /** The notice gate, and time passing after its answer. */
    method Gate(p: nat, i: nat, ghost from: Sys) returns (delivered: bool)
      requires Inv(sys) && Leads(from, sys) && p in sys.procs && sys.procs[p].Leased? && sys.procs[p].i == i
      modifies this
      ensures Inv(sys) && Leads(from, sys) && At(sys, p)
      ensures if delivered then sys.procs[p].Cleared? && sys.procs[p].i == i else sys.procs[p] == NoticeMissing(i)
    {
      hide Inv, Leads, Onward;
      Interfere(p, from);
      RecordIsOk(sys, p);
      Do(CheckNotice(p), from);
      delivered := sys.procs[p].Cleared?;
      Interfere(p, from);
      RecordIsOk(sys, p);
    }

    /** Reading the cycle, then the mark, refused exactly for an attempt already fired. */
    method LoadAndMark(p: nat, i: nat, ghost from: Sys) returns (marked: bool, ghost tried: Sys)
      requires Inv(sys) && Leads(from, sys) && At(sys, p) && sys.procs[p].Cleared? && sys.procs[p].i == i
      modifies this
      ensures Inv(sys) && Leads(from, sys) && Leads(from, tried)
      ensures At(tried, p) && tried.procs[p].Loaded? && tried.procs[p].i == i
      ensures tried.procs[p].fence == old(sys).procs[p].fence && tried.procs[p].used == old(sys).db.cycle.attemptsUsed
      ensures marked <==> tried.db.attempts[i].firedAt == None
      ensures marked ==> p in sys.procs && sys.procs[p] == Marked(i, tried.procs[p].fence, tried.procs[p].used)
      ensures !marked ==> p !in sys.procs && sys.db == tried.db
    {
      hide Inv, Leads, Onward;
      Do(LoadCycle(p), from);
      Interfere(p, from);
      RecordIsOk(sys, p);
      tried := sys;
      Do(Mark(p), from);
      marked := p in sys.procs;
    }

    /** The debit call and what follows it. Without an answer the outcome is TIMEOUT, which is
        also what a refusal by the bank is recorded as. */
    method Debit(p: nat, i: nat, reply: Option<nat>, class_: FailureClass, ghost from: Sys)
      returns (r: Result, ghost ended: Sys)
      requires Inv(sys) && Leads(from, sys) && p in sys.procs && sys.procs[p].Marked? && sys.procs[p].i == i
      modifies this
      ensures Inv(sys) && Leads(from, sys) && p !in sys.procs
      ensures r == FiredResult ==> Fired(sys, i) && NoticeInTime(sys.db, i) && sys.db.attempts[i].outcome.Some?
      ensures Leads(from, ended) && At(ended, p)
      ensures ended.procs[p] == Waiting(i, old(sys).procs[p].fence, old(sys).procs[p].used)
      ensures RequestFor(ended, i, old(sys).procs[p].fence) in ended.net
      ensures r == FiredResult || r == Failed
      ensures Settled(ended, sys, p, reply, class_, r)
    {
      hide Inv, Leads, Settled;
      SendDebit(p, i, from);
      ended := sys;
      if reply == None || !Reaches(sys, p, reply.value) {
        r := GiveUpWaiting(p, i, reply, class_, from);
      } else {
        r := TakeReply(p, i, reply.value, class_, from);
      }
    }

    method SendDebit(p: nat, i: nat, ghost from: Sys)
      requires Inv(sys) && Leads(from, sys) && p in sys.procs && sys.procs[p].Marked? && sys.procs[p].i == i
      modifies this
      ensures Inv(sys) && Leads(from, sys) && At(sys, p)
      ensures sys.procs[p] == Waiting(i, old(sys).procs[p].fence, old(sys).procs[p].used)
      ensures RequestFor(sys, i, old(sys).procs[p].fence) in sys.net
    {
      hide Inv, Leads, Onward;
      Interfere(p, from);
      RecordIsOk(sys, p);
      Do(Send(p), from);
      ghost var sent := sys;
      Interfere(p, from);
      RecordIsOk(sys, p);
      RequestStays(sent, sys, i, sys.procs[p].fence);
    }

    method GiveUpWaiting(p: nat, i: nat, ghost reply: Option<nat>, ghost class_: FailureClass, ghost from: Sys)
      returns (r: Result)
      requires Inv(sys) && Leads(from, sys) && At(sys, p) && sys.procs[p].Waiting? && sys.procs[p].i == i
      requires reply == None || !Reaches(sys, p, reply.value)
      modifies this
      ensures Inv(sys) && Leads(from, sys) && p !in sys.procs
      ensures r == FiredResult ==>
                Fired(sys, i) && NoticeInTime(sys.db, i) && sys.db.attempts[i].outcome == Some(Timeout)
      ensures r == FiredResult || r == Failed
      ensures Settled(old(sys), sys, p, reply, class_, r)
    {
      hide Inv, Leads;
      RecordIsOk(sys, p);
      var status := RecordOutcome(sys.db, i, Timeout, None).1;
      Do(RecordTimeout(p), from);
      FiredIsNoticed(sys, i);
      r := if status == Done then FiredResult else Failed;
    }

    method TakeReply(p: nat, i: nat, h: nat, class_: FailureClass, ghost from: Sys) returns (r: Result)
      requires Inv(sys) && Leads(from, sys) && At(sys, p) && sys.procs[p].Waiting? && sys.procs[p].i == i
      requires Reaches(sys, p, h)
      modifies this
      ensures Inv(sys) && Leads(from, sys) && p !in sys.procs
      ensures r == FiredResult ==> Fired(sys, i) && NoticeInTime(sys.db, i) && sys.db.attempts[i].outcome.Some?
      ensures r == FiredResult || r == Failed
      ensures Settled(old(sys), sys, p, Some(h), class_, r)
    {
      hide Inv, Leads, Onward;
      ReplyIsRecordable(sys, p, h);
      Do(RecordReply(p, h), from);
      if p !in sys.procs {
        return Failed;
      }
      Interfere(p, from);
      RecordIsOk(sys, p);
      AdvanceCycle(p, i, class_, from);
      r := FiredResult;
    }

    /** advanceCycle: the table's class for a mapped code, the adviser's for any other. */
    method AdvanceCycle(p: nat, i: nat, class_: FailureClass, ghost from: Sys)
      requires Inv(sys) && Leads(from, sys) && At(sys, p) && sys.procs[p].Recorded? && sys.procs[p].i == i
      modifies this
      ensures Inv(sys) && Leads(from, sys) && p !in sys.procs
      ensures Fired(sys, i) && NoticeInTime(sys.db, i)
      ensures var q := old(sys).procs[p];
              && sys.db.attempts[i].outcome == Some(q.outcome) && sys.db.attempts[i].code == q.code
              && LabelFits(q.outcome, q.code, class_, q.used, sys.db.cycle.state)
    {
      hide Inv, Leads;
      RecordIsOk(sys, p);
      RecordedIsFired(sys, i);
      var code := sys.procs[p].code;
      if code.Some? {
        CodesSplit(code.value);
      }
      var class' := if code.Some? && Classify(code.value).1 then Classify(code.value).0 else class_;
      Do(Advance(p, class'), from);
    }

    /** Resolve: lease, up to five questions to the bank, then one of three endings. `broken` is the
        question, if any, whose answer never arrives: the run then ends in an error. */
    method Reconcile(p: nat, i: nat, holder: string, broken: Option<nat>) returns (r: Result)
      requires Inv(sys) && Enabled(sys, PickUnresolved(p, i))
      modifies this
      ensures Inv(sys) && Leads(old(sys), sys) && p !in sys.procs
      ensures r in {NotMyTurn, ResultRecovered, ResultPending, ResultHeld, Failed}
      ensures r == NotMyTurn ==> LeaseHeld(sys)
      ensures r == ResultRecovered ==>
                && i < |sys.db.attempts| && sys.db.attempts[i].outcome == Some(Success)
                && sys.db.cycle.state == Recovered
                && HasEntry(sys, i) && sys.bank.disk.mem.debits[sys.db.attempts[i].key].outcome == Success
      ensures r == ResultPending ==>
                && AbandonedNow(sys, i) && sys.db.cycle.state == Pending
                && HasEntry(sys, i) && sys.bank.disk.mem.debits[sys.db.attempts[i].key].outcome != Success
      ensures r == ResultHeld ==> sys.db.cycle.state == Held && !HasEntry(old(sys), i)
      ensures r == Failed ==>
                || (i < |sys.db.attempts| && !Resolvable(sys.db.attempts[i]))
                || (broken.Some? && broken.value < 5 && (broken.value > 0 ==> !HasEntry(old(sys), i)))
    {
      hide Inv, Leads, Onward;
      ghost var from := sys;
      LeadsToItself(from);
      Do(PickUnresolved(p, i), from);
      var leased := LeaseForReconciling(p, i, holder, from);
      if !leased {
        return NotMyTurn;
      }
      var found := AskBank(p, i, broken, from);
      if p !in sys.procs {
        return Failed;
      }
      if found {
        r := Conclude(p, i, from);
      } else {
        HoldForAHuman(p, from);
        r := ResultHeld;
      }
    }

    method LeaseForReconciling(p: nat, i: nat, holder: string, ghost from: Sys) returns (leased: bool)
      requires Inv(sys) && Leads(from, sys) && p in sys.procs && sys.procs[p] == Picked(i)
      modifies this
      ensures Inv(sys) && Leads(from, sys)
      ensures if leased then p in sys.procs && sys.procs[p] == Polling(i, 0) else p !in sys.procs && LeaseHeld(sys)
      ensures HasEntry(old(sys), i) ==> HasEntry(sys, i)
    {
      hide Inv, Leads, Onward;
      ghost var was := sys;
      Interfere(p, from);
      RecordIsOk(sys, p);
      if HasEntry(was, i) {
        EntryStays(was, sys, i);
      }
      Do(Acquire(p, holder), from);
      leased := p in sys.procs;
    }

    method HoldForAHuman(p: nat, ghost from: Sys)
      requires Inv(sys) && Leads(from, sys) && At(sys, p) && sys.procs[p].Unanswered?
      modifies this
      ensures Inv(sys) && Leads(from, sys) && p !in sys.procs && sys.db.cycle.state == Held
    {
      hide Inv, Leads;
      Do(Hold(p), from);
    }

    /** The status loop: stop at the first answer, give up after five questions. An entry that was
        there before the first question is found, unless a question breaks before it is asked. */
    method AskBank(p: nat, i: nat, broken: Option<nat>, ghost from: Sys) returns (found: bool)
      requires Inv(sys) && Leads(from, sys) && p in sys.procs && sys.procs[p] == Polling(i, 0)
      modifies this
      ensures Inv(sys) && Leads(from, sys)
      ensures p in sys.procs ==>
                && At(sys, p)
                && if found then sys.procs[p].Answered? && sys.procs[p].i == i
                   else sys.procs[p] == Unanswered(i) && !HasEntry(old(sys), i)
      ensures p !in sys.procs ==>
                !found && broken.Some? && broken.value < 5 && (broken.value > 0 ==> !HasEntry(old(sys), i))
    {
      hide Inv, Leads, Onward;
      ghost var was := sys;
      var try := 0;
      found := false;
      while try < MAX_TRIES && !found
        invariant Inv(sys) && Leads(from, sys) && p in sys.procs
        invariant 0 <= try <= MAX_TRIES
        invariant found ==> sys.procs[p].Answered? && sys.procs[p].i == i
        invariant !found && try < MAX_TRIES ==> sys.procs[p] == Polling(i, try)
        invariant !found && try == MAX_TRIES ==> sys.procs[p] == Unanswered(i)
        invariant HasEntry(was, i) ==> HasEntry(sys, i)
        invariant !found && try > 0 ==> !HasEntry(was, i)
        decreases MAX_TRIES - try
      {
        if broken == Some(try) {
          Do(Action.Crash(p), from);
          return false;
        }
        found := AskOnce(p, i, try, from);
        try := try + 1;
      }
      Interfere(p, from);
      RecordIsOk(sys, p);
    }

    method AskOnce(p: nat, i: nat, try: nat, ghost from: Sys) returns (found: bool)
      requires Inv(sys) && Leads(from, sys) && p in sys.procs && sys.procs[p] == Polling(i, try)
      modifies this
      ensures Inv(sys) && Leads(from, sys) && p in sys.procs
      ensures found <==> HasEntry(sys, i)
      ensures HasEntry(old(sys), i) ==> HasEntry(sys, i)
      ensures found ==> sys.procs[p].Answered? && sys.procs[p].i == i
      ensures !found ==> sys.procs[p] == if try + 1 >= MAX_TRIES then Unanswered(i) else Polling(i, try + 1)
    {
      hide Inv, Leads, Onward;
      ghost var was := sys;
      Interfere(p, from);
      RecordIsOk(sys, p);
      if HasEntry(was, i) {
        EntryStays(was, sys, i);
      }
      Do(Poll(p), from);
      found := sys.procs[p].Answered?;
    }

    /** The ending: an attempt still open is resolved by the bank's answer, one resolved meanwhile is
        an error that changes nothing. */
    method Conclude(p: nat, i: nat, ghost from: Sys) returns (r: Result)
      requires Inv(sys) && Leads(from, sys) && p in sys.procs && sys.procs[p].Answered? && sys.procs[p].i == i
      modifies this
      ensures Inv(sys) && Leads(from, sys) && p !in sys.procs
      ensures At(old(sys), p) && HasEntry(sys, i)
      ensures var row := old(sys).db.attempts[i];
              var open := row.firedAt.Some? && (row.outcome == None || row.outcome == Some(Timeout));
              var moved := sys.bank.disk.mem.debits[sys.db.attempts[i].key].outcome == Success;
              && r in {ResultRecovered, ResultPending, Failed}
              && (r == Failed <==> !open)
              && (r == ResultRecovered <==> open && moved)
              && (r == ResultPending <==> open && !moved)
      ensures r == Failed ==> sys.db == old(sys).db
      ensures r == ResultRecovered ==> sys.db.attempts[i].outcome == Some(Success) && sys.db.cycle.state == Recovered
      ensures r == ResultPending ==>
                && AbandonedNow(sys, i) && sys.db.cycle.state == Pending
                && sys.db.cycle.attemptsUsed == old(sys).db.cycle.attemptsUsed - 1
    {
      hide Inv, Leads;
      RecordIsOk(sys, p);
      var resolvable := Resolvable(sys.db.attempts[i]);
      var moved := sys.procs[p].outcome == Success;
      if resolvable {
        RefundGoesThrough(sys, i);
      }
      Do(Protocol.Action.Resolve(p), from);
      r := if !resolvable then Failed else if moved then ResultRecovered else ResultPending;
    }
  }

  /** A request once sent stays on the network, and stays the attempt's request. */
  lemma RequestStays(s: Sys, t: Sys, i: nat, fence: int)
    requires Onward(s, t) && i < |s.db.attempts| && RequestFor(s, i, fence) in s.net
    ensures i < |t.db.attempts| && RequestFor(t, i, fence) in t.net
  {
    assert RowMoves(s.db.attempts[i], t.db.attempts[i]);
  }

  lemma EntryStays(s: Sys, t: Sys, i: nat)
    requires Onward(s, t) && HasEntry(s, i)
    ensures HasEntry(t, i)
  {
    assert RowMoves(s.db.attempts[i], t.db.attempts[i]);
  }

  /** An attempt with a recorded outcome was fired, on time and with notice. */
  lemma RecordedIsFired(s: Sys, i: nat)
    requires Inv(s) && i < |s.db.attempts|
    requires s.db.attempts[i].outcome == Some(Success) || s.db.attempts[i].outcome == Some(Failure)
    ensures Fired(s, i) && NoticeInTime(s.db, i)
              && (s.db.attempts[i].code.Some? <==> s.db.attempts[i].outcome == Some(Failure))
  {
    assert AttemptOk(s.db, i);
  }
}
