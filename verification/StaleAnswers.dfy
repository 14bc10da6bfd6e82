/** What becomes of an old yes. A trigger is filed under the number of attempts used plus one, so
    after a refund the same trigger answers again. Once the deadline of the confirmed slot has
    passed, every attempt reserved on that answer is cancelled by the notice relay and refunded, and
    the next tick reserves the same slot again, until the cycle has four rows. */
module StaleAnswers {
  import opened Domain
  import opened CycleTables
  import opened Slots
  import opened Triggers

  /** One round: a reservation that goes through, and the abandonment of the new row. */
  function Round(t: Tables, id: string, at: Time, deliverBy: Time): Tables {
    var t' := Reserve(t, t.cycle.version, id, at, deliverBy).0;
    if |t.attempts| < |t'.attempts| then Abandon(t', |t.attempts|).0 else t'
  }

  function Rounds(t: Tables, ids: seq<string>, at: Time, deliverBy: Time): Tables
    decreases |ids|
  {
    if ids == [] then t else Rounds(Round(t, ids[0], at, deliverBy), ids[1..], at, deliverBy)
  }

  predicate FreshIds(t: Tables, ids: seq<string>) {
    && (forall k | 0 <= k < |ids| :: ids[k] != "" && !IdTaken(t.attempts, ids[k]))
    && forall k, l | 0 <= k < l < |ids| :: ids[k] != ids[l]
  }

  /** The rows from n on were all reserved for this slot and given back unfired. */
  predicate WastedOn(t: Tables, n: nat, at: Time) {
    forall i | n <= i < |t.attempts| ::
      && t.attempts[i].scheduledFor == at && t.attempts[i].outcome == Some(AbandonedStale)
      && t.attempts[i].firedAt == None && t.attempts[i].code == None
  }

  /** The cycle stands where it stood, with more rows. */
  predicate Repeated(t: Tables, t': Tables, n: nat, at: Time) {
    && t'.cycle == t.cycle.(version := t'.cycle.version)
    && |t'.attempts| == |t.attempts| + n && t'.attempts[..|t.attempts|] == t.attempts
    && WastedOn(t', |t.attempts|, at)
  }

  lemma OneRound(t: Tables, id: string, at: Time, deliverBy: Time)
    requires t.cycle.state == Pending && 0 <= t.cycle.attemptsUsed < MAX_ATTEMPTS && |t.attempts| < MAX_ATTEMPTS
    requires id != "" && !IdTaken(t.attempts, id)
    ensures Repeated(t, Round(t, id, at, deliverBy), 1, at)
    ensures Round(t, id, at, deliverBy).attempts[|t.attempts|].id == id
  {
    var t1 := Reserve(t, t.cycle.version, id, at, deliverBy).0;
    assert t1.attempts == t.attempts + [NewAttempt(t, id, at)];
    var t2 := Abandon(t1, |t.attempts|).0;
    assert t2.attempts[..|t.attempts|] == t.attempts;
  }

  /** Any number of rounds leaves the cycle pending with the same budget, and only adds rows. */
  lemma {:induction false} ManyRounds(t: Tables, ids: seq<string>, at: Time, deliverBy: Time)
    requires t.cycle.state == Pending && 0 <= t.cycle.attemptsUsed < MAX_ATTEMPTS
    requires |t.attempts| + |ids| <= MAX_ATTEMPTS && FreshIds(t, ids)
    ensures Repeated(t, Rounds(t, ids, at, deliverBy), |ids|, at)
    decreases |ids|
  {
    if ids != [] {
      var next := Round(t, ids[0], at, deliverBy);
      OneRound(t, ids[0], at, deliverBy);
      StillFresh(t, next, ids);
      ManyRounds(next, ids[1..], at, deliverBy);
      var end := Rounds(next, ids[1..], at, deliverBy);
      assert end.attempts[..|t.attempts|] == end.attempts[..|next.attempts|][..|t.attempts|];
      assert end.attempts[|t.attempts|] == end.attempts[..|next.attempts|][|t.attempts|];
    }
  }

  lemma StillFresh(t: Tables, next: Tables, ids: seq<string>)
    requires ids != [] && FreshIds(t, ids)
    requires |next.attempts| == |t.attempts| + 1 && next.attempts[..|t.attempts|] == t.attempts
    requires next.attempts[|t.attempts|].id == ids[0]
    ensures FreshIds(next, ids[1..])
  {
    forall k | 0 <= k < |ids[1..]|
      ensures !IdTaken(next.attempts, ids[1..][k])
    {
      assert forall i | 0 <= i < |t.attempts| :: next.attempts[i] == next.attempts[..|t.attempts|][i];
    }
  }

  /** Rows without a code do not change the newest code. */
  lemma {:induction false} NewestCodeStays(rows: seq<Attempt>, n: nat)
    requires n <= |rows| && forall i | n <= i < |rows| :: rows[i].code == None
    ensures NewestCode(rows) == NewestCode(rows[..n])
  {
    if n < |rows| {
      var front := rows[..|rows| - 1];
      NewestCodeStays(front, n);
      assert front[..n] == rows[..n];
    } else {
      assert rows[..n] == rows;
    }
  }

  /** The life of an old yes: whatever else happens to the triggers, after each round the scheduler
      is gated by the same answer and plans the same slot, whose notice is overdue; and when the
      cycle has four rows every further reservation is refused. */
  lemma OldYesRepeats(rows: TriggerRows, ops: seq<TriggerOp>, t: Tables, ids: seq<string>, deliverBy: Time,
                      preferredHour: Option<int>, now: Time)
    requires t.cycle.state == Pending && 1 <= t.cycle.attemptsUsed < MAX_ATTEMPTS
    requires LastFailureCode(t, t.cycle.attemptsUsed) == Some(InsufficientFunds)
    requires |t.attempts| + |ids| <= MAX_ATTEMPTS && FreshIds(t, ids)
    requires var k := TriggerKey(t.cycle.id, t.cycle.attemptsUsed + 1);
             k in rows && rows[k].answer.Some? && rows[k].answer.value.yes
    requires var r := rows[TriggerKey(t.cycle.id, t.cycle.attemptsUsed + 1)].answer.value.respondedAt;
             && now - r >= NOTICE_LEAD_BUFFER + Detour(NoticeFloor(r))
             && DeadlineFits(deliverBy, AfterConfirmation(r))
    ensures var k := TriggerKey(t.cycle.id, t.cycle.attemptsUsed + 1);
            var at := AfterConfirmation(rows[k].answer.value.respondedAt);
            var t' := Rounds(t, ids, at, deliverBy);
            && Repeated(t, t', |ids|, at) && deliverBy <= now
            && LastFailureCode(t', t'.cycle.attemptsUsed) == Some(InsufficientFunds)
            && VerdictOf(FindIn(Steps(rows, ops), TriggerKey(t'.cycle.id, t'.cycle.attemptsUsed + 1)),
                         t'.cycle.dueDate, t'.cycle.attemptsUsed, preferredHour, now) == Plan(at)
            && (|t'.attempts| == MAX_ATTEMPTS ==>
                  forall id, due :: Reserve(t', t'.cycle.version, id, at, due) == (t', Invalid))
  {
    var k := TriggerKey(t.cycle.id, t.cycle.attemptsUsed + 1);
    var r := rows[k].answer.value.respondedAt;
    var at := AfterConfirmation(r);
    ManyRounds(t, ids, at, deliverBy);
    var t' := Rounds(t, ids, at, deliverBy);
    NewestCodeStays(t'.attempts, |t.attempts|);
    AnswersAreFinal(rows, k, ops, t.cycle.dueDate, t.cycle.attemptsUsed, preferredHour, now);
    ConfirmationCountsFromTheAnswer(r, now);
  }
}
