/** When a mark lets money move. The mark's guard looks at `fired_at` alone, so it can fire an
    attempt that was abandoned and refunded meanwhile; the bank's fence decides what comes of it.
    Money can move through a freshly marked attempt if and only if the worker's fence is not below
    the highest the bank has admitted for the cycle. */
module LateMarks {
  import opened Domain
  import opened Keys
  import opened CycleTables
  import opened Protocol
  import opened Invariant
  import opened Preservation
  import opened History
  import opened Safety
  import opened Deployment
  import L = Ledger
  import Bank = DebitHandler

  function Fence(s: Sys, i: nat): int
    requires Fired(s, i)
  {
    s.db.attempts[i].fence.value
  }

  /** A handler that the fence has let through and that has not been answered. */
  predicate PastTheGate(h: Bank.Handler) {
    h.Admitted? || h.Missed? || h.Decided? || h.Committed?
  }

  /** The attempt is fired, nothing is on record under its key, no handler works on it, and its fence
      is below the bank's mark. */
  ghost predicate LockedOut(s: Sys, i: nat) {
    && Fired(s, i)
    && s.db.attempts[i].key !in s.bank.disk.mem.debits
    && (forall h | h in s.bank.handlers && PastTheGate(s.bank.handlers[h]) ::
          s.bank.handlers[h].req.key != s.db.attempts[i].key)
    && Fence(s, i) < L.Highest(s.bank.disk.mem, s.db.cycle.id)
  }

  /** What the network holds under an attempt's key is that attempt's one request. */
  lemma RequestsOfKey(s: Sys, i: nat, r: Request)
    requires Inv(s) && i < |s.db.attempts| && r in s.net && Bank.WellFormed(r) && r.key == s.db.attempts[i].key
    ensures Fired(s, i) && r.cycle == s.db.cycle.id && r.fence == Fence(s, i)
  {
    assert AttemptOk(s.db, i);
    AttemptNumberRoundTrip(s.db.cycle.id, i + 1);
    KeyHasOneOwner(s.db.cycle.id, r.cycle, r.key);
    assert SentFor(s, r);
    var k: nat :| Fired(s, k) && r == RequestFor(s, k, s.db.attempts[k].fence.value);
    assert AttemptOk(s.db, k);
    KeysAreInjective(s.db.cycle.id, i + 1, s.db.cycle.id, k + 1);
  }

  // ---------------------------------------------------------------------------------------
  // Below the mark nothing ever moves

  /** The bank's view of a locked-out key. */
  ghost predicate KeyLocked(b: Bank.Bank, net: set<Request>, c: string, key: string) {
    && key !in b.disk.mem.debits
    && (forall h | h in b.handlers && PastTheGate(b.handlers[h]) :: b.handlers[h].req.key != key)
    && forall r | r in net && Bank.WellFormed(r) && r.key == key :: r.cycle == c && r.fence < L.Highest(b.disk.mem, c)
  }

  lemma BankKeepsKeyLocked(b: Bank.Bank, net: set<Request>, a: Bank.Action, c: string, key: string)
    requires Bank.Inv(b, net) && Bank.Enabled(b, net, a) && KeyLocked(b, net, c, key)
    ensures KeyLocked(Bank.Apply(b, net, a), net, c, key)
  {
    Bank.StepRunsItsDiskOp(b, net, a);
    var b' := Bank.Apply(b, net, a);
    NoEntryForKey(b, net, a, c, key);
    forall h | h in b'.handlers && PastTheGate(b'.handlers[h])
      ensures b'.handlers[h].req.key != key
    {
      NobodyPasses(b, net, a, c, key, h);
    }
  }

  lemma NoEntryForKey(b: Bank.Bank, net: set<Request>, a: Bank.Action, c: string, key: string)
    requires Bank.Inv(b, net) && Bank.Enabled(b, net, a) && KeyLocked(b, net, c, key)
    ensures key !in Bank.Apply(b, net, a).disk.mem.debits
  {
    hide Bank.EntriesOk, Bank.AuthorsUnique, L.OneEntryPerKey;
    var op := Bank.DiskOp(b, net, a);
    Bank.StepRunsItsDiskOp(b, net, a);
    if op.Some? && (op.value.OpCommit? || op.value.OpCrashInCommit?) {
      assert Bank.HandlerOk(b.disk.mem, net, b.handlers[a.h]);
      assert PastTheGate(b.handlers[a.h]);
      assert op.value.debit.key != key;
    }
    if op.Some? {
      var seed := if a.Restart? || a.CrashWhileAdmitting? || a.CrashWhileCommitting? then a.seed else 0;
      DebitsAfter(b.disk, op.value, seed, key);
    }
  }

  /** A disk operation adds no entry but the one it commits. */
  lemma DebitsAfter(d: L.Disk, op: L.Op, seed: int, key: string)
    requires L.Sound(d) && key !in d.mem.debits
    requires op.OpCommit? || op.OpCrashInCommit? ==> op.debit.key != key
    ensures key !in L.RunOp(d, op, seed).mem.debits
  {
    hide L.OneEntryPerKey, L.Replay;
    L.CrashAfterWriteIsACrashAfterwards(d, op, seed);
    if op.OpRestart? {
      L.ReopenRestores(d, seed);
    }
  }

  lemma NobodyPasses(b: Bank.Bank, net: set<Request>, a: Bank.Action, c: string, key: string, h: nat)
    requires Bank.Inv(b, net) && Bank.Enabled(b, net, a) && KeyLocked(b, net, c, key)
    requires h in Bank.Apply(b, net, a).handlers && PastTheGate(Bank.Apply(b, net, a).handlers[h])
    ensures Bank.Apply(b, net, a).handlers[h].req.key != key
  {
    var req := PassingRequest(b, net, a, h);
    assert req.key == key ==> req.cycle == c && req.fence < L.Highest(b.disk.mem, c);
  }

  /** Whoever is past the gate after a step was so before, or has just been admitted. */
  lemma PassingRequest(b: Bank.Bank, net: set<Request>, a: Bank.Action, h: nat) returns (req: Request)
    requires Bank.Inv(b, net) && Bank.Enabled(b, net, a)
    requires h in Bank.Apply(b, net, a).handlers && PastTheGate(Bank.Apply(b, net, a).handlers[h])
    ensures h in b.handlers && req == b.handlers[h].req == Bank.Apply(b, net, a).handlers[h].req
    ensures req in net && Bank.WellFormed(req)
    ensures PastTheGate(b.handlers[h]) || req.fence >= L.Highest(b.disk.mem, req.cycle)
  {
    hide Bank.EntriesOk, Bank.AuthorsUnique, L.Sound, Bank.EntryOk, Bank.NewEntry, L.Replay;
    req := Bank.Apply(b, net, a).handlers[h].req;
    assert h in b.handlers;
    assert Bank.HandlerOk(b.disk.mem, net, b.handlers[h]);
  }

  lemma LockedIsKeyLocked(s: Sys, i: nat)
    requires Inv(s) && LockedOut(s, i)
    ensures KeyLocked(s.bank, s.net, s.db.cycle.id, s.db.attempts[i].key)
  {
    forall r | r in s.net && Bank.WellFormed(r) && r.key == s.db.attempts[i].key
      ensures r.cycle == s.db.cycle.id && r.fence < L.Highest(s.bank.disk.mem, s.db.cycle.id)
    {
      RequestsOfKey(s, i, r);
    }
  }

  lemma StepKeepsLockedOut(s: Sys, a: Action, i: nat)
    requires Inv(s) && Enabled(s, a) && LockedOut(s, i)
    ensures LockedOut(Apply(s, a), i)
  {
    var s' := Apply(s, a);
    StepIsOnward(s, a);
    assert RowMoves(s.db.attempts[i], s'.db.attempts[i]);
    if a.BankStep? {
      LockedIsKeyLocked(s, i);
      BankKeepsKeyLocked(s.bank, s.net, a.a, s.db.cycle.id, s.db.attempts[i].key);
    } else {
      OtherStepsKeepBank(s, a);
    }
  }

  lemma {:induction false} LockedOutForever(s: Sys, actions: seq<Action>, t: Sys, i: nat)
    requires Inv(s) && Runs(s, actions, t) && LockedOut(s, i)
    ensures LockedOut(t, i)
    decreases |actions|
  {
    if actions != [] {
      StepKeepsLockedOut(s, actions[0], i);
      StepKeepsInv(s, actions[0]);
      LockedOutForever(Apply(s, actions[0]), actions[1..], t, i);
    }
  }

  /** The mark is about to go through. */
  ghost predicate Marks(s: Sys, p: nat) {
    Enabled(s, Mark(p)) && s.db.attempts[s.procs[p].i].firedAt == None
  }

  /** The state after it. */
  function Marked(s: Sys, p: nat): Sys
    requires Enabled(s, Mark(p))
  {
    Apply(s, Mark(p))
  }

  lemma LowMarkLocksOut(s: Sys, p: nat)
    requires Inv(s) && Marks(s, p) && s.procs[p].fence < L.Highest(s.bank.disk.mem, s.db.cycle.id)
    ensures LockedOut(Marked(s, p), s.procs[p].i)
  {
    var i := s.procs[p].i;
    assert ProcOk(s, s.procs[p]);
    if s.db.attempts[i].key in s.bank.disk.mem.debits {
      EntryMeansFired(s, i);
    }
    forall h | h in s.bank.handlers && PastTheGate(s.bank.handlers[h])
      ensures s.bank.handlers[h].req.key != s.db.attempts[i].key
    {
      assert Bank.HandlerOk(s.bank.disk.mem, s.net, s.bank.handlers[h]);
      if s.bank.handlers[h].req.key == s.db.attempts[i].key {
        RequestsOfKey(s, i, s.bank.handlers[h].req);
      }
    }
  }

  // ---------------------------------------------------------------------------------------
  // At or above the mark the bank may debit

  lemma {:induction false} FreshHandler(taken: set<nat>) returns (h: nat)
    ensures h !in taken && forall k | k in taken :: k < h
  {
    if taken == {} {
      h := 0;
    } else {
      var x :| x in taken;
      var rest := FreshHandler(taken - {x});
      assert taken == taken - {x} + {x};
      h := if rest > x then rest else x + 1;
    }
  }

  lemma BankGoesOn(from: Sys, s: Sys, b: Bank.Action) returns (s': Sys)
    requires Leads(from, s) && Bank.Enabled(s.bank, s.net, b) && Bank.HandlersWellFormed(s.bank)
    ensures Leads(from, s') && s' == s.(bank := Bank.Apply(s.bank, s.net, b))
  {
    hide Leads;
    s' := Apply(s, BankStep(b));
    StepLeadsOn(from, s, BankStep(b));
  }

  /** The bank takes up a new request whose fence is not below its mark and finds nothing under its key. */
  lemma BankMisses(from: Sys, s: Sys, h: nat, r: Request) returns (s': Sys)
    requires Leads(from, s) && Bank.HandlersWellFormed(s.bank) && h !in s.bank.handlers
    requires r in s.net && Bank.WellFormed(r)
    requires r.fence >= L.Highest(s.bank.disk.mem, r.cycle) && r.key !in s.bank.disk.mem.debits
    ensures Leads(from, s') && s'.db == s.db && s'.net == s.net && Bank.HandlersWellFormed(s'.bank)
    ensures h in s'.bank.handlers && s'.bank.handlers[h] == Bank.Missed(r)
    ensures s'.bank.disk.mem.debits == s.bank.disk.mem.debits
  {
    hide Leads, Bank.WellFormed;
    s' := BankGoesOn(from, s, Bank.Accept(h, r));
    s' := BankGoesOn(from, s', Bank.Admit(h, true));
    s' := BankGoesOn(from, s', Bank.LookUp(h));
  }

  lemma BankDebits(from: Sys, s: Sys, h: nat, r: Request) returns (s': Sys)
    requires Leads(from, s) && Bank.HandlersWellFormed(s.bank) && h in s.bank.handlers
    requires s.bank.handlers[h] == Bank.Missed(r) && r.key !in s.bank.disk.mem.debits
    ensures Leads(from, s') && s'.db == s.db
    ensures r.key in s'.bank.disk.mem.debits && s'.bank.disk.mem.debits[r.key].outcome == Success
  {
    hide Leads, Bank.WellFormed;
    s' := BankGoesOn(from, s, Bank.Decide(h, Success, None, 0));
    s' := BankGoesOn(from, s', Bank.CommitEntry(h, true));
  }

  /** After a mark that is not below the bank's, the debit may be sent, admitted and committed. */
  lemma HighMarkMayDebit(s: Sys, p: nat) returns (u: Sys)
    requires Inv(s) && Marks(s, p) && s.procs[p].fence >= L.Highest(s.bank.disk.mem, s.db.cycle.id)
    requires s.db.cycle.id != "" && s.db.cycle.amountPaise > 0
    ensures Leads(Marked(s, p), u) && MoneyMoved(u, s.procs[p].i)
  {
    hide Leads;
    var i, fence := s.procs[p].i, s.procs[p].fence;
    var from := Marked(s, p);
    MarkedRow(s, p);
    var r := RequestFor(from, i, fence);
    RequestIsWellFormed(s, i, r);
    LeadsToItself(from);
    StepLeadsOn(from, from, Send(p));
    var sent := Apply(from, Send(p));
    assert r in sent.net;
    var h := FreshHandler(s.bank.handlers.Keys);
    u := BankMisses(from, sent, h, r);
    u := BankDebits(from, u, h, r);
  }

  lemma MarkedRow(s: Sys, p: nat)
    requires Inv(s) && Marks(s, p)
    ensures var i, s' := s.procs[p].i, Marked(s, p);
            && i < |s'.db.attempts| == |s.db.attempts| && Fired(s', i) && s'.db.attempts[i].key == s.db.attempts[i].key
            && Fence(s', i) == s.procs[p].fence
            && p in s'.procs && s'.procs[p] == Proc.Marked(i, s.procs[p].fence, s.procs[p].used)
            && s'.bank == s.bank && s'.db.cycle.id == s.db.cycle.id && s'.db.cycle.amountPaise == s.db.cycle.amountPaise
    ensures s.db.attempts[s.procs[p].i].key !in s.bank.disk.mem.debits && Bank.HandlersWellFormed(s.bank)
  {
    assert ProcOk(s, s.procs[p]);
    if s.db.attempts[s.procs[p].i].key in s.bank.disk.mem.debits {
      EntryMeansFired(s, s.procs[p].i);
    }
  }

  lemma RequestIsWellFormed(s: Sys, i: nat, r: Request)
    requires Inv(s) && i < |s.db.attempts| && s.db.cycle.id != "" && s.db.cycle.amountPaise > 0
    requires r.cycle == s.db.cycle.id && r.key == s.db.attempts[i].key && r.amountPaise == s.db.cycle.amountPaise
    ensures Bank.WellFormed(r)
  {
    assert AttemptOk(s.db, i);
    AttemptNumberRoundTrip(s.db.cycle.id, i + 1);
  }

  // ---------------------------------------------------------------------------------------

  /** A cycle as CreateCycle accepts it. */
  predicate Accepted(c: Cycle) {
    c.id != "" && c.amountPaise > 0
  }

  /** In some continuation the bank has debited through the attempt. */
  ghost predicate MayDebit(s: Sys, i: nat) {
    exists u :: Leads(s, u) && MoneyMoved(u, i)
  }

  ghost predicate MayDebitBoth(s: Sys, i: nat, j: nat) {
    exists u :: Leads(s, u) && MoneyMoved(u, i) && MoneyMoved(u, j)
  }

  /** The attempt about to be marked. */
  function Target(s: Sys, p: nat): nat
    requires Enabled(s, Mark(p))
  {
    s.procs[p].i
  }

  /** The worker's fence is not below the highest the bank has admitted for the cycle. */
  predicate NotBelowTheBank(s: Sys, p: nat)
    requires Enabled(s, Mark(p))
  {
    s.procs[p].fence >= L.Highest(s.bank.disk.mem, s.db.cycle.id)
  }

  /** Exactly when a mark lets money move, on time or late: in some continuation the bank debits
      through the attempt if and only if the worker's fence is not below the bank's mark. */
  lemma MoneyCanMoveIff(s: Sys, p: nat)
    requires Inv(s) && Marks(s, p) && Accepted(s.db.cycle)
    ensures MayDebit(Marked(s, p), Target(s, p)) <==> NotBelowTheBank(s, p)
  {
    hide Inv, Leads;
    if NotBelowTheBank(s, p) {
      var u := HighMarkMayDebit(s, p);
    } else {
      forall u | Leads(Marked(s, p), u)
        ensures !MoneyMoved(u, Target(s, p))
      {
        LowMarkMovesNothing(s, p, u);
      }
    }
  }

  lemma LowMarkMovesNothing(s: Sys, p: nat, u: Sys)
    requires Inv(s) && Marks(s, p) && s.procs[p].fence < L.Highest(s.bank.disk.mem, s.db.cycle.id)
    requires Leads(Marked(s, p), u)
    ensures !MoneyMoved(u, s.procs[p].i)
  {
    var s', i := Marked(s, p), s.procs[p].i;
    var future: seq<Action> :| Runs(s', future, u);
    LowMarkLocksOut(s, p);
    StepKeepsInv(s, Mark(p));
    LockedOutForever(s', future, u, i);
  }

  /** Exactly when a mark opens the way to a second debit: once another attempt's money has moved,
      some continuation debits through the marked attempt as well if and only if its fence is not
      below the bank's mark. */
  lemma SecondDebitIff(s: Sys, p: nat, j: nat)
    requires Inv(s) && Marks(s, p) && Accepted(s.db.cycle) && MoneyMoved(s, j)
    ensures j != Target(s, p)
    ensures MayDebitBoth(Marked(s, p), Target(s, p), j) <==> NotBelowTheBank(s, p)
  {
    hide Inv, Leads;
    EntryMeansFired(s, j);
    if NotBelowTheBank(s, p) {
      var u := HighMarkMayDebit(s, p);
      MoneyStays(s, Mark(p), u, j);
    } else {
      forall u | Leads(Marked(s, p), u)
        ensures !MoneyMoved(u, Target(s, p))
      {
        LowMarkMovesNothing(s, p, u);
      }
    }
  }

  /** Money that moved stays moved. */
  lemma MoneyStays(s: Sys, a: Action, u: Sys, j: nat)
    requires Inv(s) && Enabled(s, a) && MoneyMoved(s, j) && Leads(Apply(s, a), u)
    ensures MoneyMoved(u, j)
  {
    var s' := Apply(s, a);
    var future: seq<Action> :| Runs(s', future, u);
    StepIsOnward(s, a);
    StepKeepsInv(s, a);
    RunIsOnward(s', future, u);
    OnwardTrans(s, s', u);
    assert RowMoves(s.db.attempts[j], u.db.attempts[j]);
  }

  // ---------------------------------------------------------------------------------------
  // Whole runs

  /** Every mark of the run that hits an attempt with an outcome carries a fence below the bank's. */
  ghost predicate LateMarksAreLow(s: Sys, actions: seq<Action>)
    decreases |actions|
  {
    actions != [] && Enabled(s, actions[0]) ==>
      && (LateMark(s, actions[0]) ==> s.procs[actions[0].p].fence < L.Highest(s.bank.disk.mem, s.db.cycle.id))
      && LateMarksAreLow(Apply(s, actions[0]), actions[1..])
  }

  lemma {:induction false} LateAreLockedOut(s: Sys, actions: seq<Action>, t: Sys)
    requires Inv(s) && Runs(s, actions, t) && LateMarksAreLow(s, actions)
    requires forall i | i in s.late :: LockedOut(s, i)
    ensures forall i | i in t.late :: LockedOut(t, i)
    decreases |actions|
  {
    if actions != [] {
      var a := actions[0];
      var next := Apply(s, a);
      forall i | i in next.late
        ensures LockedOut(next, i)
      {
        if i in s.late {
          StepKeepsLockedOut(s, a, i);
        } else {
          OnlyLateMarksAreNew(s, a, i);
          LowMarkLocksOut(s, a.p);
        }
      }
      StepKeepsInv(s, a);
      LateAreLockedOut(next, actions[1..], t);
    }
  }

  lemma OnlyLateMarksAreNew(s: Sys, a: Action, i: nat)
    requires Enabled(s, a) && i in Apply(s, a).late && i !in s.late
    ensures a.Mark? && LateMark(s, a) && Marks(s, a.p) && s.procs[a.p].i == i
  {
  }

  /** At most one debit in every run whose late marks, if any, are below the bank's mark. A late
      mark that is not lets a refunded attempt be debited, by `MoneyCanMoveIff`. */
  lemma AtMostOneDebitIfLateMarksAreLow(s: Sys, actions: seq<Action>, t: Sys, a: nat, b: nat)
    requires Init(s) && Runs(s, actions, t) && LateMarksAreLow(s, actions)
    requires a < b < |t.bank.disk.log|
    ensures !(DebitedCycle(t.bank.disk.log[a], t.db.cycle.id) && DebitedCycle(t.bank.disk.log[b], t.db.cycle.id))
  {
    InitHasInv(s);
    ReachableInv(s, actions, t);
    LateAreLockedOut(s, actions, t);
    if DebitedCycle(t.bank.disk.log[a], t.db.cycle.id) && DebitedCycle(t.bank.disk.log[b], t.db.cycle.id) {
      var i := TwoLogEntriesNeedALateMark(t, a, b);
    }
  }

  /** In such a run no refunded attempt is ever debited. */
  lemma RefundedIsNeverDebited(s: Sys, actions: seq<Action>, t: Sys, i: nat)
    requires Init(s) && Runs(s, actions, t) && LateMarksAreLow(s, actions)
    requires i < |t.db.attempts| && t.db.attempts[i].outcome == Some(AbandonedStale)
    ensures !MoneyMoved(t, i)
  {
    InitHasInv(s);
    ReachableInv(s, actions, t);
    LateAreLockedOut(s, actions, t);
    OutcomeAgrees(t, i);
  }
}
