/** What no step ever takes back: rows keep their identity, marks and final outcomes, the bank
    keeps its entries, and the changes of one attempt row are bounded. */
module History {
  import opened Domain
  import opened CycleTables
  import opened Protocol
  import opened Invariant
  import opened Preservation
  import L = Ledger
  import Bank = DebitHandler

  /** Rows are appended and never removed, and each moves only forward. */
  predicate RowsMove(t: Tables, t': Tables) {
    && t'.cycle.id == t.cycle.id && t'.cycle.rail == t.cycle.rail
    && t'.cycle.amountPaise == t.cycle.amountPaise && t'.cycle.dueDate == t.cycle.dueDate
    && |t.attempts| <= |t'.attempts|
    && forall i | 0 <= i < |t.attempts| :: RowMoves(t.attempts[i], t'.attempts[i])
  }

  ghost predicate Onward(s: Sys, t: Sys) {
    && RowsMove(s.db, t.db)
    && L.Grows(s.bank.disk.mem, t.bank.disk.mem)
    && L.IsPrefix(s.bank.disk.log, t.bank.disk.log)
    && s.late <= t.late
    && s.net <= t.net
    && s.db.cycle.version <= t.db.cycle.version
    && (|s.db.attempts| < |t.db.attempts| ==> s.db.cycle.version < t.db.cycle.version)
  }

  lemma OnwardTrans(s: Sys, t: Sys, u: Sys)
    requires Onward(s, t) && Onward(t, u)
    ensures Onward(s, u)
  {
    forall i | 0 <= i < |s.db.attempts|
      ensures RowMoves(s.db.attempts[i], u.db.attempts[i])
    {
      assert RowMoves(s.db.attempts[i], t.db.attempts[i]) && RowMoves(t.db.attempts[i], u.db.attempts[i]);
    }
    var l0, l1, l2 := s.bank.disk.log, t.bank.disk.log, u.bank.disk.log;
    assert l2[..|l0|] == l2[..|l1|][..|l0|];
  }

  /** The attempt whose row a step may change in place. */
  function ChangedAt(s: Sys, a: Action): Option<nat>
    requires Enabled(s, a)
  {
    if a.AbandonStale? || a.AbandonMissing? || a.Mark? || a.RecordTimeout? || a.RecordReply?
       || a.Resolve? || a.CancelNotice?
    then Some(s.procs[a.p].i) else None
  }

  lemma StepChangesOneRow(s: Sys, a: Action, i: nat)
    requires Enabled(s, a) && ChangedAt(s, a) == Some(i)
    ensures i < |s.db.attempts| == |Apply(s, a).db.attempts|
    ensures var rows, rows' := s.db.attempts, Apply(s, a).db.attempts;
            && rows' == rows[i := rows'[i]]
            && RowMoves(rows[i], rows'[i])
            && (rows'[i] == rows[i] || Ahead(rows'[i]) < Ahead(rows[i]))
  {
    hide Bank.Apply, Bank.Enabled;
  }

  lemma StepKeepsTerms(s: Sys, a: Action)
    requires Enabled(s, a)
    ensures var c, c' := s.db.cycle, Apply(s, a).db.cycle;
            c'.id == c.id && c'.rail == c.rail && c'.amountPaise == c.amountPaise && c'.dueDate == c.dueDate
  {
    hide Bank.Apply, Bank.Enabled, Bank.HandlersWellFormed, NoticeDelivered, LastFailureCode, Schedulable, HasPlan;
  }

  lemma StepKeepsRows(s: Sys, a: Action)
    requires Enabled(s, a) && ChangedAt(s, a) == None && !a.ReserveSlot?
    ensures Apply(s, a).db.attempts == s.db.attempts
  {
    hide Bank.Apply, Bank.Enabled;
  }

  lemma StepAppendsRow(s: Sys, a: Action)
    requires Enabled(s, a) && a.ReserveSlot?
    ensures var rows, rows' := s.db.attempts, Apply(s, a).db.attempts;
            || rows' == rows
            || (|rows'| == |rows| + 1 && rows'[..|rows|] == rows && Ahead(rows'[|rows|]) == 3)
  {
    hide Bank.Apply, Bank.Enabled;
  }

  lemma StepRowsMove(s: Sys, a: Action)
    requires Enabled(s, a)
    ensures RowsMove(s.db, Apply(s, a).db)
  {
    var s' := Apply(s, a);
    StepKeepsTerms(s, a);
    if ChangedAt(s, a).Some? {
      StepChangesOneRow(s, a, ChangedAt(s, a).value);
    } else if a.ReserveSlot? {
      StepAppendsRow(s, a);
      assert forall i | 0 <= i < |s.db.attempts| :: s'.db.attempts[i] == s'.db.attempts[..|s.db.attempts|][i];
    } else {
      StepKeepsRows(s, a);
    }
  }

  lemma StepIsOnward(s: Sys, a: Action)
    requires Inv(s) && Enabled(s, a)
    ensures Onward(s, Apply(s, a))
  {
    StepRowsMove(s, a);
    StepKeepsTheRest(s, a);
  }

  lemma StepKeepsTheRest(s: Sys, a: Action)
    requires Inv(s) && Enabled(s, a)
    ensures var s' := Apply(s, a);
            && L.Grows(s.bank.disk.mem, s'.bank.disk.mem)
            && L.IsPrefix(s.bank.disk.log, s'.bank.disk.log)
            && s.late <= s'.late
            && s.net <= s'.net
            && s.db.cycle.version <= s'.db.cycle.version
            && (|s.db.attempts| < |s'.db.attempts| ==> s.db.cycle.version < s'.db.cycle.version)
  {
    if a.BankStep? {
      Bank.StepRunsItsDiskOp(s.bank, s.net, a.a);
    } else {
      OtherStepsKeepBank(s, a);
    }
    StepKeepsLate(s, a);
  }

  lemma OtherStepsKeepBank(s: Sys, a: Action)
    requires Enabled(s, a) && !a.BankStep?
    ensures Apply(s, a).bank == s.bank
  {
  }

  lemma StepKeepsLate(s: Sys, a: Action)
    requires Enabled(s, a)
    ensures s.late <= Apply(s, a).late && s.net <= Apply(s, a).net
    ensures s.db.cycle.version <= Apply(s, a).db.cycle.version
    ensures |s.db.attempts| < |Apply(s, a).db.attempts| ==> s.db.cycle.version < Apply(s, a).db.cycle.version
  {
    hide Bank.Apply, Bank.Enabled;
  }

  lemma {:induction false} RunIsOnward(s: Sys, actions: seq<Action>, t: Sys)
    requires Inv(s) && Runs(s, actions, t)
    ensures Onward(s, t)
    decreases |actions|
  {
    if actions != [] {
      var next := Apply(s, actions[0]);
      StepIsOnward(s, actions[0]);
      StepKeepsInv(s, actions[0]);
      RunIsOnward(next, actions[1..], t);
      OnwardTrans(s, next, t);
    }
  }

  // ---------------------------------------------------------------------------------------
  // How often rows can change

  /** The number of changes an attempt row still has before it: fired or not, then NULL, TIMEOUT,
      final. */
  function Ahead(a: Attempt): nat {
    (if a.firedAt == None then 1 else 0)
    + (if a.outcome == None then 2 else if a.outcome == Some(Timeout) then 1 else 0)
  }

  function TotalAhead(attempts: seq<Attempt>): nat {
    if attempts == [] then 0 else TotalAhead(attempts[..|attempts| - 1]) + Ahead(attempts[|attempts| - 1])
  }

  lemma {:induction false} TotalAheadUpdate(attempts: seq<Attempt>, i: nat, a: Attempt)
    requires i < |attempts|
    ensures TotalAhead(attempts[i := a]) == TotalAhead(attempts) - Ahead(attempts[i]) + Ahead(a)
  {
    var front, changed := attempts[..|attempts| - 1], attempts[i := a];
    if i < |front| {
      TotalAheadUpdate(front, i, a);
      assert changed[..|changed| - 1] == front[i := a];
    } else {
      assert changed[..|changed| - 1] == front;
    }
  }

  /** The changes still possible for a cycle: four for every row not yet inserted (its insertion
      included) and those ahead of the rows there are. */
  function Potential(t: Tables): int {
    4 * (MAX_ATTEMPTS - |t.attempts|) + TotalAhead(t.attempts)
  }

  /** A step inserts a row, changes one row in a single place, or leaves all rows alone; unless
      it leaves them alone, the potential falls. */
  lemma StepSpendsPotential(s: Sys, a: Action)
    requires Enabled(s, a)
    ensures Apply(s, a).db.attempts != s.db.attempts ==> Potential(Apply(s, a).db) < Potential(s.db)
    ensures Apply(s, a).db.attempts == s.db.attempts ==> Potential(Apply(s, a).db) == Potential(s.db)
  {
    var s' := Apply(s, a);
    if ChangedAt(s, a).Some? {
      var i := ChangedAt(s, a).value;
      StepChangesOneRow(s, a, i);
      TotalAheadUpdate(s.db.attempts, i, s'.db.attempts[i]);
    } else if a.ReserveSlot? {
      StepAppendsRow(s, a);
    } else {
      StepKeepsRows(s, a);
    }
  }

  /** How many steps of a run change some attempt row, insertions included. */
  ghost function RowChanges(s: Sys, actions: seq<Action>): nat
    decreases |actions|
  {
    if actions == [] || !Enabled(s, actions[0]) then 0
    else
      var next := Apply(s, actions[0]);
      (if next.db.attempts != s.db.attempts then 1 else 0) + RowChanges(next, actions[1..])
  }

  lemma {:induction false} ChangesFitThePotential(s: Sys, actions: seq<Action>, t: Sys)
    requires Inv(s) && Runs(s, actions, t)
    ensures RowChanges(s, actions) + Potential(t.db) <= Potential(s.db)
    decreases |actions|
  {
    if actions != [] {
      StepSpendsPotential(s, actions[0]);
      StepKeepsInv(s, actions[0]);
      ChangesFitThePotential(Apply(s, actions[0]), actions[1..], t);
    }
  }

  /** Over a whole run of any length a cycle's attempt rows change at most sixteen times. */
  lemma RowChangesAreBounded(s: Sys, actions: seq<Action>, t: Sys)
    requires Init(s) && Runs(s, actions, t)
    ensures RowChanges(s, actions) <= 16
  {
    InitHasInv(s);
    ChangesFitThePotential(s, actions, t);
    ReachableInv(s, actions, t);
    assert Potential(t.db) >= 0;
  }
}
