/** From the flat tables of all cycles to the rows of one: the attempts and outbox tables hold the
    rows of every cycle in insertion order, and a cycle sees its own, in that order. */
module StoreView {
  import opened Domain
  import opened Keys
  import opened CycleTables

  function RowsOf(attempts: seq<Attempt>, c: string): seq<Attempt> {
    if attempts == [] then []
    else
      var last := attempts[|attempts| - 1];
      RowsOf(attempts[..|attempts| - 1], c) + (if last.cycleId == c then [last] else [])
  }

  function NoticesOf(outbox: seq<Notice>, c: string): seq<Notice> {
    if outbox == [] then []
    else
      var last := outbox[|outbox| - 1];
      NoticesOf(outbox[..|outbox| - 1], c) + (if last.cycleId == c then [last] else [])
  }

  /** Where row k of the attempts table stands among the rows of its cycle. */
  function Rank(attempts: seq<Attempt>, k: nat): nat
    requires k < |attempts|
  {
    |RowsOf(attempts[..k], attempts[k].cycleId)|
  }

  /** The contents of all tables. */
  datatype Db = Db(cycles: map<string, Cycle>, attempts: seq<Attempt>, leases: map<string, Lease>, outbox: seq<Notice>)

  function ViewOf(db: Db, c: string): Tables
    requires c in db.cycles && c in db.leases
  {
    Tables(db.cycles[c], RowsOf(db.attempts, c), db.leases[c], NoticesOf(db.outbox, c))
  }

  /** Sequence numbers and keys follow the position among the cycle's rows. */
  predicate Numbered(rows: seq<Attempt>, c: string) {
    forall i | 0 <= i < |rows| ::
      rows[i].cycleId == c && rows[i].seqNo == i + 1 && rows[i].key == NewIdempotencyKey(c, i + 1)
  }

  /** The schema's constraints, and the numbering of attempts. */
  ghost predicate Consistent(db: Db) {
    && db.leases.Keys == db.cycles.Keys
    && (forall c | c in db.cycles :: c != "" && db.cycles[c].id == c)
    && (forall k | 0 <= k < |db.attempts| :: db.attempts[k].cycleId in db.cycles && db.attempts[k].id != "")
    && (forall k, l | 0 <= k < l < |db.attempts| :: db.attempts[k].id != db.attempts[l].id)
    && (forall c | c in db.cycles :: Numbered(RowsOf(db.attempts, c), c) && |RowsOf(db.attempts, c)| <= MAX_ATTEMPTS)
  }

  /** The foreign key of the outbox. */
  ghost predicate NoticesOwned(db: Db) {
    forall n | 0 <= n < |db.outbox| :: db.outbox[n].cycleId in db.cycles
  }

  lemma RowsOfAppend(attempts: seq<Attempt>, a: Attempt, c: string)
    ensures RowsOf(attempts + [a], c) == RowsOf(attempts, c) + (if a.cycleId == c then [a] else [])
  {
    assert (attempts + [a])[..|attempts|] == attempts;
  }

  lemma NoticesOfAppend(outbox: seq<Notice>, n: Notice, c: string)
    ensures NoticesOf(outbox + [n], c) == NoticesOf(outbox, c) + (if n.cycleId == c then [n] else [])
  {
    assert (outbox + [n])[..|outbox|] == outbox;
  }

  /** Row k is the row at its rank. */
  lemma {:induction false} RankFindsRow(attempts: seq<Attempt>, k: nat)
    requires k < |attempts|
    ensures Rank(attempts, k) < |RowsOf(attempts, attempts[k].cycleId)|
    ensures RowsOf(attempts, attempts[k].cycleId)[Rank(attempts, k)] == attempts[k]
  {
    var front := attempts[..|attempts| - 1];
    if k < |front| {
      RankFindsRow(front, k);
      assert front[..k] == attempts[..k];
    }
  }

  /** Changing a row in place changes exactly that row of its own cycle's view. */
  lemma {:induction false} RowsOfUpdate(attempts: seq<Attempt>, k: nat, a: Attempt, c: string)
    requires k < |attempts| && a.cycleId == attempts[k].cycleId
    ensures attempts[k].cycleId != c ==> RowsOf(attempts[k := a], c) == RowsOf(attempts, c)
    ensures attempts[k].cycleId == c ==>
              && Rank(attempts, k) < |RowsOf(attempts, c)|
              && RowsOf(attempts[k := a], c) == RowsOf(attempts, c)[Rank(attempts, k) := a]
  {
    var front, changed := attempts[..|attempts| - 1], attempts[k := a];
    RankFindsRow(attempts, k);
    if k < |front| {
      RowsOfUpdate(front, k, a, c);
      assert front[..k] == attempts[..k];
      assert changed[..|changed| - 1] == front[k := a];
      RankFindsRow(front, k);
    } else {
      assert changed[..|changed| - 1] == front;
    }
  }

  /** Every row of a cycle's view is a row of the table. */
  lemma {:induction false} RowsOfAreRows(attempts: seq<Attempt>, c: string, i: nat) returns (k: nat)
    requires i < |RowsOf(attempts, c)|
    ensures k < |attempts| && attempts[k] == RowsOf(attempts, c)[i] && attempts[k].cycleId == c
              && Rank(attempts, k) == i
  {
    var front := attempts[..|attempts| - 1];
    if i < |RowsOf(front, c)| {
      k := RowsOfAreRows(front, c, i);
      assert front[..k] == attempts[..k];
    } else {
      k := |attempts| - 1;
    }
  }

  function Delivered(n: Notice, attemptId: string, at: Time): Notice {
    if n.attemptId == attemptId && n.deliveredAt == None then n.(deliveredAt := Some(at)) else n
  }

  function DeliverAll(outbox: seq<Notice>, attemptId: string, at: Time): seq<Notice> {
    seq(|outbox|, n requires 0 <= n < |outbox| => Delivered(outbox[n], attemptId, at))
  }

  /** Delivering in the table delivers in every view. */
  lemma {:induction false} NoticesOfDeliver(outbox: seq<Notice>, attemptId: string, at: Time, c: string)
    ensures NoticesOf(DeliverAll(outbox, attemptId, at), c) == DeliverAll(NoticesOf(outbox, c), attemptId, at)
  {
    if outbox != [] {
      var front := outbox[..|outbox| - 1];
      NoticesOfDeliver(front, attemptId, at, c);
      assert DeliverAll(outbox, attemptId, at)[..|outbox| - 1] == DeliverAll(front, attemptId, at);
    }
  }

  // ---------------------------------------------------------------------------------------
  // Transactions on one attempt

  datatype Tx =
    | MarkTx(fence: int, now: Time)
    | RecordTx(outcome: Outcome, code: Option<FailureCode>)
    | AbandonTx
    | DebitedTx
    | NotDebitedTx

  function Perform(t: Tables, i: nat, tx: Tx): (Tables, Status)
    requires i < |t.attempts|
  {
    match tx
    case MarkTx(fence, now) => MarkFired(t, i, fence, now)
    case RecordTx(outcome, code) => RecordOutcome(t, i, outcome, code)
    case AbandonTx => Abandon(t, i)
    case DebitedTx => ResolveDebited(t, i)
    case NotDebitedTx => ResolveNotDebited(t, i)
  }

  ghost predicate OthersSame(db: Db, db': Db, c: string) {
    && db'.cycles.Keys == db.cycles.Keys && db'.leases.Keys == db.leases.Keys
    && forall d | d in db.cycles && d in db.leases && d != c :: ViewOf(db', d) == ViewOf(db, d)
  }

  /** The transaction on the attempt with this id: performed on the view of its cycle, at its
      rank, leaving every other cycle's view alone; without such an attempt, a conflict. */
  ghost predicate Performs(db: Db, db': Db, id: string, tx: Tx, status: Status)
    requires Consistent(db)
  {
    && ((forall k | 0 <= k < |db.attempts| :: db.attempts[k].id != id) ==> db' == db && status == Conflict)
    && forall k | 0 <= k < |db.attempts| && db.attempts[k].id == id ::
         PerformedAt(db, db', k, tx, status)
  }

  ghost predicate PerformedAt(db: Db, db': Db, k: nat, tx: Tx, status: Status)
    requires Consistent(db) && k < |db.attempts|
  {
    var c, i := db.attempts[k].cycleId, Rank(db.attempts, k);
    && OthersSame(db, db', c)
    && i < |RowsOf(db.attempts, c)|
    && (ViewOf(db', c), status) == Perform(ViewOf(db, c), i, tx)
  }

  /** The tables after updating attempt k and its cycle's row. */
  function Updated(db: Db, k: nat, a: Attempt, row: Cycle): Db
    requires k < |db.attempts|
  {
    db.(attempts := db.attempts[k := a], cycles := db.cycles[db.attempts[k].cycleId := row])
  }

  predicate SameIdentity(a: Attempt, b: Attempt) {
    b.cycleId == a.cycleId && b.id == a.id && b.seqNo == a.seqNo && b.key == a.key
  }

  lemma UpdatedViews(db: Db, k: nat, a: Attempt, row: Cycle)
    requires Consistent(db) && k < |db.attempts| && SameIdentity(db.attempts[k], a) && row.id == a.cycleId
    ensures var db' := Updated(db, k, a, row);
            var t, i := ViewOf(db, a.cycleId), Rank(db.attempts, k);
            && OthersSame(db, db', a.cycleId)
            && i < |t.attempts| && t.attempts[i] == db.attempts[k]
            && ViewOf(db', a.cycleId) == SetAttempt(t, i, a).(cycle := row)
  {
    RankFindsRow(db.attempts, k);
    forall d | d in db.cycles
      ensures d != a.cycleId ==> ViewOf(Updated(db, k, a, row), d) == ViewOf(db, d)
    {
      RowsOfUpdate(db.attempts, k, a, d);
    }
    RowsOfUpdate(db.attempts, k, a, a.cycleId);
  }

  lemma UpdatedIsNumbered(db: Db, k: nat, a: Attempt, d: string)
    requires Consistent(db) && k < |db.attempts| && SameIdentity(db.attempts[k], a) && d in db.cycles
    ensures Numbered(RowsOf(db.attempts[k := a], d), d) && |RowsOf(db.attempts[k := a], d)| <= MAX_ATTEMPTS
  {
    RankFindsRow(db.attempts, k);
    RowsOfUpdate(db.attempts, k, a, d);
  }

  lemma UpdatedIsConsistent(db: Db, k: nat, a: Attempt, row: Cycle)
    requires Consistent(db) && k < |db.attempts| && SameIdentity(db.attempts[k], a) && row.id == a.cycleId
    ensures Consistent(Updated(db, k, a, row))
  {
    var db' := Updated(db, k, a, row);
    assert db'.cycles.Keys == db.cycles.Keys;
    forall d | d in db'.cycles
      ensures Numbered(RowsOf(db'.attempts, d), d) && |RowsOf(db'.attempts, d)| <= MAX_ATTEMPTS
    {
      UpdatedIsNumbered(db, k, a, d);
    }
  }

  /** Writing this attempt and this cycle row is what the transaction does when its guard holds. */
  predicate Carries(t: Tables, i: nat, before: Attempt, a: Attempt, row: Cycle, tx: Tx) {
    i < |t.attempts| && t.attempts[i] == before ==> Perform(t, i, tx) == (SetAttempt(t, i, a).(cycle := row), Done)
  }

  /** What a statement pair "update attempt k, then its cycle" amounts to. */
  lemma UpdatePair(db: Db, k: nat, a: Attempt, row: Cycle, tx: Tx, status: Status)
    requires Consistent(db) && k < |db.attempts| && SameIdentity(db.attempts[k], a) && row.id == a.cycleId
    requires Carries(ViewOf(db, a.cycleId), Rank(db.attempts, k), db.attempts[k], a, row, tx) && status == Done
    ensures Consistent(Updated(db, k, a, row)) && PerformedAt(db, Updated(db, k, a, row), k, tx, status)
  {
    UpdatedIsConsistent(db, k, a, row);
    UpdatedViews(db, k, a, row);
  }

  /** A guard that matched nothing. */
  lemma RolledBack(db: Db, k: nat, tx: Tx, status: Status)
    requires Consistent(db) && k < |db.attempts|
    requires var t := ViewOf(db, db.attempts[k].cycleId);
             var i := Rank(db.attempts, k);
             i < |t.attempts| && t.attempts[i] == db.attempts[k] ==> Perform(t, i, tx) == (t, status)
    ensures PerformedAt(db, db, k, tx, status)
  {
    RankFindsRow(db.attempts, k);
  }
}
