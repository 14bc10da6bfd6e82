/** The audit queries of internal/store/invariants.go over the tables of all cycles, and the proof
    that in every reachable deployment they report nothing. */
module Audit {
  import opened Domain
  import opened CycleTables
  import opened StoreView
  import opened StoreSteps
  import opened Protocol
  import opened Invariant
  import opened ManyCycles

  /** count(*) of the cycle's rows with this outcome. */
  function CountSuccesses(attempts: seq<Attempt>, c: string): nat {
    if attempts == [] then 0
    else
      var last := attempts[|attempts| - 1];
      CountSuccesses(attempts[..|attempts| - 1], c)
        + (if last.cycleId == c && last.outcome == Some(Success) then 1 else 0)
  }

  /** count(*) of the cycle's rows with outcome NULL or other than ABANDONED_STALE. */
  function CountHeld(attempts: seq<Attempt>, c: string): nat {
    if attempts == [] then 0
    else
      var last := attempts[|attempts| - 1];
      CountHeld(attempts[..|attempts| - 1], c)
      + (if last.cycleId == c && (last.outcome == None || last.outcome.value != AbandonedStale) then 1 else 0)
  }

  /** InvariantDoubleDebits: GROUP BY cycle_id HAVING count(*) > 1. */
  function DoubleDebits(db: Db): set<string> {
    set k | 0 <= k < |db.attempts| && CountSuccesses(db.attempts, db.attempts[k].cycleId) > 1 :: db.attempts[k].cycleId
  }

  /** InvariantBudgetExceeded. */
  function BudgetExceeded(db: Db): set<string> {
    set c | c in db.cycles && db.cycles[c].attemptsUsed > MAX_ATTEMPTS
  }

  /** InvariantBudgetMismatch. */
  function BudgetMismatch(db: Db): set<string> {
    set c | c in db.cycles && db.cycles[c].attemptsUsed != CountHeld(db.attempts, c)
  }

  /** One row of the left join: the attempt without a notice, or with this one. */
  predicate JoinedBadly(a: Attempt, deliveredAt: Option<Time>)
    requires a.firedAt.Some?
  {
    deliveredAt == None || deliveredAt.value > a.firedAt.value - NOTICE_LEAD
  }

  /** InvariantMissingNotice, with the left join written out: an attempt without any notice row
      joins a row of NULLs. */
  function MissingNotice(db: Db): set<string> {
    set k | 0 <= k < |db.attempts| && db.attempts[k].firedAt.Some? && Unnoticed(db, db.attempts[k]) :: db.attempts[k].id
  }

  predicate Unnoticed(db: Db, a: Attempt)
    requires a.firedAt.Some?
  {
    || (forall n | 0 <= n < |db.outbox| :: db.outbox[n].attemptId != a.id)
    || exists n | 0 <= n < |db.outbox| :: db.outbox[n].attemptId == a.id && JoinedBadly(a, db.outbox[n].deliveredAt)
  }

  // ---------------------------------------------------------------------------------------

  function SuccessesIn(rows: seq<Attempt>): nat {
    if rows == [] then 0
    else SuccessesIn(rows[..|rows| - 1]) + (if rows[|rows| - 1].outcome == Some(Success) then 1 else 0)
  }

  lemma SuccessesAppend(rows: seq<Attempt>, a: Attempt)
    ensures SuccessesIn(rows + [a]) == SuccessesIn(rows) + (if a.outcome == Some(Success) then 1 else 0)
  {
    assert (rows + [a])[..|rows|] == rows;
  }

  lemma {:induction false} SuccessesAreOfTheView(attempts: seq<Attempt>, c: string)
    ensures CountSuccesses(attempts, c) == SuccessesIn(RowsOf(attempts, c))
  {
    if attempts != [] {
      var front, last := attempts[..|attempts| - 1], attempts[|attempts| - 1];
      SuccessesAreOfTheView(front, c);
      SuccessesAppend(RowsOf(front, c), last);
      assert last.cycleId != c ==> RowsOf(attempts, c) == RowsOf(front, c);
    }
  }

  lemma {:induction false} HeldAreOfTheView(attempts: seq<Attempt>, c: string)
    ensures CountHeld(attempts, c) == SlotsHeld(RowsOf(attempts, c))
  {
    if attempts != [] {
      var front, last := attempts[..|attempts| - 1], attempts[|attempts| - 1];
      HeldAreOfTheView(front, c);
      SlotsHeldAppend(RowsOf(front, c), last);
      assert last.cycleId != c ==> RowsOf(attempts, c) == RowsOf(front, c);
    }
  }

  /** With every row but the last not a success, at most one is. */
  lemma {:induction false} OneSuccess(rows: seq<Attempt>)
    requires forall i | 0 <= i < |rows| - 1 :: rows[i].outcome != Some(Success)
    ensures SuccessesIn(rows) <= 1
  {
    if rows != [] {
      NoSuccess(rows[..|rows| - 1]);
    }
  }

  lemma {:induction false} NoSuccess(rows: seq<Attempt>)
    requires forall i | 0 <= i < |rows| :: rows[i].outcome != Some(Success)
    ensures SuccessesIn(rows) == 0
  {
    if rows != [] {
      NoSuccess(rows[..|rows| - 1]);
    }
  }

  predicate JoinsWell(t: Tables) {
    && |t.outbox| == |t.attempts|
    && forall i | 0 <= i < |t.attempts| && t.attempts[i].firedAt.Some? ::
      !JoinedBadly(t.attempts[i], t.outbox[i].deliveredAt)
  }

  /** What a cycle's own rows promise. */
  lemma CycleIsClean(s: Sys)
    requires Inv(s)
    ensures SuccessesIn(s.db.attempts) <= 1
    ensures s.db.cycle.attemptsUsed == SlotsHeld(s.db.attempts) <= MAX_ATTEMPTS
    ensures NoticesFollowRows(s.db) && JoinsWell(s.db)
  {
    OneSuccess(s.db.attempts);
    SlotsHeldBounds(s.db.attempts);
    forall i | 0 <= i < |s.db.attempts|
      ensures s.db.outbox[i].attemptId == s.db.attempts[i].id
    {
      assert AttemptOk(s.db, i);
    }
  }

  lemma {:induction false} NoticeInView(outbox: seq<Notice>, n: nat) returns (i: nat)
    requires n < |outbox|
    ensures i < |NoticesOf(outbox, outbox[n].cycleId)| && NoticesOf(outbox, outbox[n].cycleId)[i] == outbox[n]
  {
    var front := outbox[..|outbox| - 1];
    if n < |front| {
      i := NoticeInView(front, n);
    } else {
      i := |NoticesOf(front, outbox[n].cycleId)|;
    }
  }

  lemma {:induction false} NoticeInTable(outbox: seq<Notice>, c: string, i: nat) returns (n: nat)
    requires i < |NoticesOf(outbox, c)|
    ensures n < |outbox| && outbox[n] == NoticesOf(outbox, c)[i]
  {
    var front := outbox[..|outbox| - 1];
    if i < |NoticesOf(front, c)| {
      n := NoticeInTable(front, c, i);
    } else {
      n := |outbox| - 1;
    }
  }

  /** A notice for an attempt stands among the notices of the attempt's cycle, at its position. */
  lemma NoticeOfAttempt(db: Db, w: World, k: nat, n: nat)
    requires Backs(db, w) && Consistent(db) && NoticesOwned(db) && forall d | d in w.parts ::
               NoticesFollowRows(w.parts[d].db)
    requires k < |db.attempts| && n < |db.outbox| && db.outbox[n].attemptId == db.attempts[k].id
    ensures var c := db.attempts[k].cycleId;
            && c in w.parts && Rank(db.attempts, k) < |w.parts[c].db.outbox|
            && w.parts[c].db.outbox[Rank(db.attempts, k)] == db.outbox[n]
  {
    var c, d := db.attempts[k].cycleId, db.outbox[n].cycleId;
    RankFindsRow(db.attempts, k);
    var i := NoticeInView(db.outbox, n);
    var l := RecordHasRow(db, w, d, i);
    assert db.attempts[l].id == db.attempts[k].id;
  }

  lemma NoticesAreClean(db: Db, w: World, k: nat)
    requires Backs(db, w) && Consistent(db) && NoticesOwned(db)
    requires forall d | d in w.parts :: NoticesFollowRows(w.parts[d].db) && JoinsWell(w.parts[d].db)
    requires k < |db.attempts| && db.attempts[k].firedAt.Some?
    ensures !Unnoticed(db, db.attempts[k])
  {
    var c := db.attempts[k].cycleId;
    RankFindsRow(db.attempts, k);
    var n := NoticeInTable(db.outbox, c, Rank(db.attempts, k));
    forall m: nat | m < |db.outbox| && db.outbox[m].attemptId == db.attempts[k].id
      ensures !JoinedBadly(db.attempts[k], db.outbox[m].deliveredAt)
    {
      NoticeOfAttempt(db, w, k, m);
    }
  }

  /** In every reachable state of the whole deployment the four queries return no row. */
  lemma NothingToReport(w: World, actions: seq<WorldAction>, v: World, db: Db)
    requires WorldInit(w) && WorldRuns(w, actions, v) && Backs(db, v) && Consistent(db) && NoticesOwned(db)
    ensures DoubleDebits(db) == {} && BudgetExceeded(db) == {} && BudgetMismatch(db) == {} && MissingNotice(db) == {}
  {
    hide CoreInv, ProcsInv, ReadyInv, RecordedInv, RowsOf;
    WorldRunKeepsInv(w, actions, v);
    forall c | c in db.cycles
      ensures CountSuccesses(db.attempts, c) <= 1
      ensures db.cycles[c].attemptsUsed == CountHeld(db.attempts, c) <= MAX_ATTEMPTS
      ensures NoticesFollowRows(v.parts[c].db) && JoinsWell(v.parts[c].db)
    {
      SuccessesAreOfTheView(db.attempts, c);
      HeldAreOfTheView(db.attempts, c);
      CycleIsClean(View(v, c));
    }
    forall k | 0 <= k < |db.attempts| && db.attempts[k].firedAt.Some?
      ensures !Unnoticed(db, db.attempts[k])
    {
      NoticesAreClean(db, v, k);
    }
  }

  // ---------------------------------------------------------------------------------------
  // What the queries would report

  lemma {:induction false} CountsOneSuccess(attempts: seq<Attempt>, c: string)
    ensures CountSuccesses(attempts, c) >= 1 <==>
              exists i | 0 <= i < |attempts| :: attempts[i].cycleId == c && attempts[i].outcome == Some(Success)
  {
    if attempts != [] {
      var n := |attempts| - 1;
      CountsOneSuccess(attempts[..n], c);
      if i :| 0 <= i < n && attempts[i].cycleId == c && attempts[i].outcome == Some(Success) {
        assert attempts[..n][i] == attempts[i];
      }
    }
  }

  lemma {:induction false} CountsTwoSuccesses(attempts: seq<Attempt>, c: string)
    ensures CountSuccesses(attempts, c) > 1 <==> TwoSuccesses(attempts, c)
  {
    if attempts != [] {
      var n := |attempts| - 1;
      CountsTwoSuccesses(attempts[..n], c);
      CountsOneSuccess(attempts[..n], c);
      assert forall i | 0 <= i < n :: attempts[..n][i] == attempts[i];
      if i, j :| 0 <= i < j < |attempts| && IsSuccess(attempts[i], c) && IsSuccess(attempts[j], c) {
        assert IsSuccess(attempts[..n][i], c);
        if j < n {
          assert IsSuccess(attempts[..n][j], c);
        }
      }
      if TwoSuccesses(attempts[..n], c) {
        var i, j :| 0 <= i < j < n && IsSuccess(attempts[..n][i], c) && IsSuccess(attempts[..n][j], c);
        assert IsSuccess(attempts[i], c) && IsSuccess(attempts[j], c);
      } else if CountSuccesses(attempts, c) > 1 {
        var i :| 0 <= i < n && attempts[..n][i].cycleId == c && attempts[..n][i].outcome == Some(Success);
        assert IsSuccess(attempts[i], c) && IsSuccess(attempts[n], c);
      }
    }
  }

  predicate IsSuccess(a: Attempt, c: string) {
    a.cycleId == c && a.outcome == Some(Success)
  }

  ghost predicate TwoSuccesses(attempts: seq<Attempt>, c: string) {
    exists i, j :: 0 <= i < j < |attempts| && IsSuccess(attempts[i], c) && IsSuccess(attempts[j], c)
  }

  predicate IsHeld(a: Attempt, c: string) {
    a.cycleId == c && a.outcome != Some(AbandonedStale)
  }

  function HeldIndexes(attempts: seq<Attempt>, c: string): set<int> {
    set i | 0 <= i < |attempts| && IsHeld(attempts[i], c)
  }

  lemma HeldIndexesGrow(attempts: seq<Attempt>, c: string)
    requires attempts != []
    ensures var n := |attempts| - 1;
            && n !in HeldIndexes(attempts[..n], c)
            && HeldIndexes(attempts, c)
               == if IsHeld(attempts[n], c) then HeldIndexes(attempts[..n], c) + {n} else HeldIndexes(attempts[..n], c)
  {
    hide IsHeld;
    var n := |attempts| - 1;
    forall i: int
      ensures i in HeldIndexes(attempts[..n], c) <==> i in HeldIndexes(attempts, c) && i != n
    {
      assert 0 <= i < n ==> attempts[..n][i] == attempts[i];
    }
  }

  lemma {:induction false} CountHeldCounts(attempts: seq<Attempt>, c: string)
    ensures CountHeld(attempts, c) == |HeldIndexes(attempts, c)|
  {
    hide HeldIndexes;
    if attempts == [] {
      NoneHeld(c);
    } else {
      CountHeldCounts(attempts[..|attempts| - 1], c);
      HeldIndexesGrow(attempts, c);
    }
  }

  lemma NoneHeld(c: string)
    ensures HeldIndexes([], c) == {}
  {
  }

  /** The queries report exactly what they are for: a cycle with two successful attempts; one with
      more than four attempts used; one whose counter is not the number of its attempts that were not
      given back; a fired attempt without a notice, or with one undelivered or delivered less than 24
      hours before. */
  lemma QueriesReport(db: Db, c: string, id: string)
    ensures c in DoubleDebits(db) <==> TwoSuccesses(db.attempts, c)
    ensures c in BudgetExceeded(db) <==> c in db.cycles && db.cycles[c].attemptsUsed > 4
    ensures var rows := db.attempts;
            c in BudgetMismatch(db) <==>
              && c in db.cycles
              && db.cycles[c].attemptsUsed
                 != |set i | 0 <= i < |rows| && rows[i].cycleId == c && rows[i].outcome != Some(AbandonedStale)|
    ensures id in MissingNotice(db) <==>
              exists k | 0 <= k < |db.attempts| ::
                && db.attempts[k].id == id && db.attempts[k].firedAt.Some?
                && ((forall n | 0 <= n < |db.outbox| :: db.outbox[n].attemptId != id)
                    || exists n | 0 <= n < |db.outbox| ::
                         && db.outbox[n].attemptId == id
                         && (db.outbox[n].deliveredAt.None?
                             || db.outbox[n].deliveredAt.value > db.attempts[k].firedAt.value - 24 * HOUR))
  {
    CountsTwoSuccesses(db.attempts, c);
    CountHeldCounts(db.attempts, c);
    var rows := db.attempts;
    assert HeldIndexes(rows, c)
        == set i | 0 <= i < |rows| && rows[i].cycleId == c && rows[i].outcome != Some(AbandonedStale);
    if TwoSuccesses(db.attempts, c) {
      var i, j :| 0 <= i < j < |db.attempts| && IsSuccess(db.attempts[i], c) && IsSuccess(db.attempts[j], c);
      assert db.attempts[i].cycleId == c;
    }
  }

}
