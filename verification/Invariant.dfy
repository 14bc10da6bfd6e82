/** The inductive invariant of the protocol, stated in parts: what holds of the rows alone, of
    rows and bank together, of each process record, and of the right to reserve again. */
module Invariant {
  import opened Domain
  import opened Classification
  import opened Keys
  import opened CycleTables
  import opened Protocol
  import L = Ledger
  import Bank = DebitHandler

  /** A closed attempt after which another one may follow: given back unspent, or failed with a
      code the table does not stop at. */
  predicate RetryOk(a: Attempt) {
    || a.outcome == Some(AbandonedStale)
    || (a.outcome == Some(Failure) && a.code.Some? && !Stops(a.code.value))
  }

  /** Everything about one attempt row that does not involve the bank. */
  predicate AttemptOk(t: Tables, i: nat)
    requires i < |t.attempts| && |t.attempts| == |t.outbox|
  {
    var a := t.attempts[i];
    && a.cycleId == t.cycle.id && a.seqNo == i + 1 && a.key == NewIdempotencyKey(t.cycle.id, i + 1)
    && t.outbox[i].attemptId == a.id && t.outbox[i].cycleId == t.cycle.id
    && (a.firedAt == None ==> a.fence == None && (a.outcome == None || a.outcome == Some(AbandonedStale)))
    && (a.firedAt.Some? ==> a.fence.Some? && 1 <= a.fence.value <= t.lease.fence)
    && (a.code.Some? <==> a.outcome == Some(Failure))
  }

  ghost predicate RowsInv(t: Tables) {
    && |t.attempts| == |t.outbox| <= MAX_ATTEMPTS
    && (forall i | 0 <= i < |t.attempts| :: AttemptOk(t, i))
    && (forall i, j | 0 <= i < j < |t.attempts| :: t.attempts[i].id != t.attempts[j].id)
    && t.cycle.attemptsUsed == SlotsHeld(t.attempts)
    && 0 <= t.cycle.version && 0 <= t.lease.fence
    && forall i | 0 <= i < |t.attempts| - 1 :: RetryOk(t.attempts[i])
  }

  /** The attempt's notice was delivered a full day before it was scheduled. */
  predicate NoticeInTime(t: Tables, i: nat)
    requires i < |t.attempts|
  {
    && i < |t.outbox|
    && t.outbox[i].deliveredAt.Some?
    && t.outbox[i].deliveredAt.value <= t.attempts[i].scheduledFor - NOTICE_LEAD
  }

  /** A fired attempt was due, and its notice in time. */
  ghost predicate TimesInv(s: Sys) {
    forall i | 0 <= i < |s.db.attempts| && s.db.attempts[i].firedAt.Some? ::
      && s.db.attempts[i].scheduledFor <= s.db.attempts[i].firedAt.value <= s.now
      && NoticeInTime(s.db, i)
  }

  predicate Fired(s: Sys, i: nat) {
    i < |s.db.attempts| && s.db.attempts[i].firedAt.Some? && s.db.attempts[i].fence.Some?
  }

  /** Late marks hit abandoned rows only; apart from them, fences grow with the sequence number. */
  ghost predicate FencesInv(s: Sys) {
    && (forall i | i in s.late :: Fired(s, i) && s.db.attempts[i].outcome == Some(AbandonedStale))
    && (forall i: nat, j: nat | i < j && Fired(s, i) && Fired(s, j) && i !in s.late ::
          s.db.attempts[i].fence.value < s.db.attempts[j].fence.value)
  }

  /** The bank's entry for the attempt, if any, allows the outcome recorded for it. */
  ghost predicate AgreesWithBank(s: Sys, i: nat)
    requires i < |s.db.attempts|
  {
    var a, debits := s.db.attempts[i], s.bank.disk.mem.debits;
    && (a.outcome == Some(Success) ==> a.key in debits && debits[a.key].outcome == Success)
    && (a.outcome == Some(Failure) ==>
      a.key in debits && debits[a.key].outcome == Failure && debits[a.key].code == a.code)
    && (a.outcome == Some(AbandonedStale) && a.firedAt.Some? && i !in s.late ==>
          a.key in debits && debits[a.key].outcome != Success)
  }

  ghost predicate BankAgrees(s: Sys) {
    forall i | 0 <= i < |s.db.attempts| :: AgreesWithBank(s, i)
  }

  ghost predicate SentFor(s: Sys, r: L.Request) {
    exists i: nat :: Fired(s, i) && r == RequestFor(s, i, s.db.attempts[i].fence.value)
  }

  /** Every debit request of this cycle is the request of a fired attempt. */
  ghost predicate NetInv(s: Sys) {
    forall r | r in s.net && r.cycle == s.db.cycle.id :: SentFor(s, r)
  }

  /** Lease periods, in order of their fences, lie one after the other on the database clock. */
  ghost predicate GrantsInv(s: Sys) {
    && |s.grants| == s.db.lease.fence
    && (forall k | 0 <= k < |s.grants| :: s.grants[k].fence == k + 1 && s.grants[k].from <= s.now)
    && (forall k, l | 0 <= k < l < |s.grants| :: s.grants[k].until < s.grants[l].from)
    && (forall k | 0 <= k < |s.grants| :: s.grants[k].until <= s.db.lease.expiresAt)
  }

  ghost predicate CoreInv(s: Sys) {
    && RowsInv(s.db)
    && TimesInv(s)
    && FencesInv(s)
    && BankAgrees(s)
    && NetInv(s)
    && GrantsInv(s)
    && Bank.Inv(s.bank, s.net)
  }

  // ---------------------------------------------------------------------------------------
  // Process records

  /** The fence exceeds that of every earlier attempt that was fired on time. */
  ghost predicate AboveEarlierFences(s: Sys, i: nat, fence: int) {
    forall j: nat | j < i && Fired(s, j) && j !in s.late :: s.db.attempts[j].fence.value < fence
  }

  ghost predicate LeaseOk(s: Sys, i: nat, fence: int)
    requires i < |s.db.attempts|
  {
    && s.db.attempts[i].scheduledFor <= s.now
    && 1 <= fence <= s.db.lease.fence
    && AboveEarlierFences(s, i, fence)
  }

  predicate UsedIsCurrent(s: Sys, i: nat, used: int)
    requires i < |s.db.attempts|
  {
    s.db.attempts[i].outcome == None ==> used == s.db.cycle.attemptsUsed
  }

  /** What a process record may rely on, whatever the others have done since. */
  ghost predicate ProcOk(s: Sys, q: Proc) {
    && InRange(s, q)
    && match q
       case Claimed(i) => s.db.attempts[i].scheduledFor <= s.now
       case Leased(i, f) => LeaseOk(s, i, f)
       case NoticeMissing(_) => true
       case Cleared(i, f) => LeaseOk(s, i, f) && NoticeInTime(s.db, i)
       case Loaded(i, f, used) => LeaseOk(s, i, f) && NoticeInTime(s.db, i) && UsedIsCurrent(s, i, used)
       case Marked(i, f, used) => Fired(s, i) && s.db.attempts[i].fence.value == f && UsedIsCurrent(s, i, used)
       case Waiting(i, f, used) => Fired(s, i) && s.db.attempts[i].fence.value == f && UsedIsCurrent(s, i, used)
       case Recorded(i, _, outcome, code) =>
         && (outcome == Success || outcome == Failure)
         && s.db.attempts[i].outcome == Some(outcome) && s.db.attempts[i].code == code
       case Snapshot(v, used) => v <= s.db.cycle.version
              && (v == s.db.cycle.version ==> used == s.db.cycle.attemptsUsed)
       case Coded(v, used, _) => v <= s.db.cycle.version
              && (v == s.db.cycle.version ==> used == s.db.cycle.attemptsUsed)
       case Picked(i) => Fired(s, i)
       case Polling(i, _) => Fired(s, i)
       case Answered(i, outcome) =>
         && Fired(s, i)
         && s.db.attempts[i].key in s.bank.disk.mem.debits
         && s.bank.disk.mem.debits[s.db.attempts[i].key].outcome == outcome
       case Unanswered(_) => true
       case Noticing(_) => true
  }

  ghost predicate ProcsInv(s: Sys) {
    forall p | p in s.procs :: ProcOk(s, s.procs[p])
  }

  predicate HoldsVersion(q: Proc, version: int) {
    (q.Snapshot? || q.Coded?) && q.version == version
  }

  /** Somebody may reserve another attempt: the cycle is pending, or a scheduler still holds a
      snapshot of its current version. */
  ghost predicate Ready(s: Sys) {
    || s.db.cycle.state == Pending
    || exists p :: p in s.procs && HoldsVersion(s.procs[p], s.db.cycle.version)
  }

  /** The right to reserve implies that every attempt so far is closed and retryable and that
      budget is left, although `Reserve` itself checks only version and budget. */
  ghost predicate ReadyInv(s: Sys) {
    Ready(s) ==>
      && s.db.cycle.attemptsUsed < MAX_ATTEMPTS
      && forall i | 0 <= i < |s.db.attempts| :: RetryOk(s.db.attempts[i])
  }

  predicate FailureRecorded(q: Proc) {
    q.Recorded? && q.outcome == Failure
  }

  /** A worker that has recorded a failure and not yet advanced the cycle is the only one, works
      on the newest attempt, has the right attempt count, and nobody may reserve meanwhile. */
  ghost predicate RecordedInv(s: Sys) {
    && (forall p | p in s.procs && FailureRecorded(s.procs[p]) ::
          s.procs[p].i == |s.db.attempts| - 1 && s.procs[p].used == s.db.cycle.attemptsUsed && !Ready(s))
    && (forall p, r | p in s.procs && r in s.procs && FailureRecorded(s.procs[p]) && FailureRecorded(s.procs[r]) ::
      p == r)
  }

  ghost predicate Inv(s: Sys) {
    CoreInv(s) && ProcsInv(s) && ReadyInv(s) && RecordedInv(s)
  }

  // ---------------------------------------------------------------------------------------
  // How rows and bank may change under a process's feet

  predicate RowMoves(a: Attempt, b: Attempt) {
    && b.id == a.id && b.cycleId == a.cycleId && b.seqNo == a.seqNo && b.key == a.key
      && b.scheduledFor == a.scheduledFor
    && (a.firedAt.Some? ==> b.firedAt == a.firedAt && b.fence == a.fence)
    && (!Open(a) ==> b.outcome == a.outcome && b.code == a.code)
    && (a.outcome.Some? ==> b.outcome.Some?)
  }

  predicate AllClosed(t: Tables) {
    forall i | 0 <= i < |t.attempts| :: !Open(t.attempts[i])
  }

  ghost predicate DbMoves(t: Tables, t': Tables) {
    && t'.cycle.id == t.cycle.id && t'.cycle.rail == t.cycle.rail && t'.cycle.amountPaise == t.cycle.amountPaise
    && t.cycle.version <= t'.cycle.version
    && t.lease.fence <= t'.lease.fence
    && |t.attempts| <= |t'.attempts| && |t.outbox| <= |t'.outbox|
    && (forall i | 0 <= i < |t.attempts| :: RowMoves(t.attempts[i], t'.attempts[i]))
    && (forall i | 0 <= i < |t.outbox| && t.outbox[i].deliveredAt.Some? :: t'.outbox[i] == t.outbox[i])
    && (forall i | 0 <= i < |t.attempts| && t'.attempts[i].outcome == None ::
      t'.cycle.attemptsUsed == t.cycle.attemptsUsed)
    && (t'.cycle.version == t.cycle.version && AllClosed(t) ==> t'.cycle.attemptsUsed == t.cycle.attemptsUsed)
  }

  ghost predicate Moves(s: Sys, s': Sys) {
    && s.now <= s'.now
    && DbMoves(s.db, s'.db)
    && L.Grows(s.bank.disk.mem, s'.bank.disk.mem)
    && s.net <= s'.net
    && s.late <= s'.late
    && (forall i: nat | i < |s.db.attempts| - 1 && !Fired(s, i) && Fired(s', i) :: i in s'.late)
  }

  /** What a record relies on survives every change that `Moves` allows. */
  lemma ProcOkIsStable(s: Sys, s': Sys, q: Proc)
    requires CoreInv(s) && ReadyInv(s) && Moves(s, s')
    requires ProcOk(s, q)
    requires HoldsVersion(q, s.db.cycle.version) ==> Ready(s)
    ensures ProcOk(s', q)
  {
  }
}
