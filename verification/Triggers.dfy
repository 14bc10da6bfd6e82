/** Balance triggers: after an attempt failed for lack of funds the customer is asked whether the
    money is there, and the next attempt waits for the answer or for a timeout
    (internal/store/trigger.go, internal/domain/trigger.go, internal/schedule/schedule.go:116-155). */
module Triggers {
  import opened Domain
  import opened Classification
  import opened CycleTables
  import opened Slots
  import Protocol
  import Safety

  const TRIGGER_TIMEOUT: Time := 20 * HOUR

  datatype Answer = Answer(respondedAt: Time, yes: bool)

  datatype Trigger = Trigger(sentAt: Time, expiresAt: Time, answer: Option<Answer>)

  /** The unique key of the table. */
  datatype TriggerKey = TriggerKey(cycle: string, seqNo: int)

  type TriggerRows = map<TriggerKey, Trigger>

  /** INSERT ... ON CONFLICT DO NOTHING. */
  function Queued(rows: TriggerRows, k: TriggerKey, sentAt: Time, expiresAt: Time): TriggerRows {
    if k in rows then rows else rows[k := Trigger(sentAt, expiresAt, None)]
  }

  /** UPDATE ... WHERE responded_at IS NULL. */
  function Responded(rows: TriggerRows, k: TriggerKey, a: Answer): TriggerRows {
    if k in rows && rows[k].answer == None then rows[k := rows[k].(answer := Some(a))] else rows
  }

  class TriggerTable {
    var rows: TriggerRows

    constructor ()
      ensures rows == map[]
    {
      rows := map[];
    }

    method QueueTrigger(cycle: string, seqNo: int, sentAt: Time, expiresAt: Time) returns (status: Status)
      modifies this
      ensures status == if cycle == "" then Invalid else Done
      ensures rows == if cycle == "" then old(rows) else Queued(old(rows), TriggerKey(cycle, seqNo), sentAt, expiresAt)
    {
      if cycle == "" {
        return Invalid;
      }
      var k := TriggerKey(cycle, seqNo);
      if k !in rows {
        rows := rows[k := Trigger(sentAt, expiresAt, None)];
      }
      return Done;
    }

    method RespondTrigger(cycle: string, seqNo: int, response: string, respondedAt: Time) returns (status: Status)
      modifies this
      ensures status == Invalid <==> response != "yes" && response != "no"
      ensures status == Done <==>
                && status != Invalid
                && TriggerKey(cycle, seqNo) in old(rows) && old(rows)[TriggerKey(cycle, seqNo)].answer == None
      ensures status in {Done, Conflict, Invalid}
      ensures rows == if status == Invalid then old(rows)
                      else Responded(old(rows), TriggerKey(cycle, seqNo), Answer(respondedAt, response == "yes"))
    {
      if response != "yes" && response != "no" {
        return Invalid;
      }
      var k := TriggerKey(cycle, seqNo);
      if k !in rows || rows[k].answer.Some? {
        return Conflict;
      }
      rows := rows[k := rows[k].(answer := Some(Answer(respondedAt, response == "yes")))];
      return Done;
    }

    method TriggerFor(cycle: string, seqNo: int) returns (found: Option<Trigger>)
      ensures found.Some? <==> TriggerKey(cycle, seqNo) in rows
      ensures found.Some? ==> found.value == rows[TriggerKey(cycle, seqNo)]
    {
      var k := TriggerKey(cycle, seqNo);
      found := if k in rows then Some(rows[k]) else None;
    }

    /** What others do to the table between two statements. */
    method Others(ops: seq<TriggerOp>)
      modifies this
      ensures rows == Steps(old(rows), ops)
    {
      rows := Steps(rows, ops);
    }

    /** gateOnBalanceTrigger: a lookup, and for a cycle never asked about this attempt a question.
        The two are separate statements; `meanwhile` is what others do to the table in between. */
    method Gate(cycle: string, dueDate: Time, used: int, preferredHour: Option<int>, now: Time,
                meanwhile: seq<TriggerOp>)
      returns (status: Status, verdict: Verdict)
      modifies this
      ensures var k, was := TriggerKey(cycle, used + 1), old(rows);
              if k in was then
                status == Done && rows == was && verdict == VerdictOf(Some(was[k]), dueDate, used, preferredHour, now)
              else
                && verdict == Wait
                && status == (if cycle == "" then Invalid else Done)
                && rows == if cycle == "" then Steps(was, meanwhile)
                           else Queued(Steps(was, meanwhile), k, now, now + TRIGGER_TIMEOUT)
    {
      var found := TriggerFor(cycle, used + 1);
      if found == None {
        Others(meanwhile);
        status := QueueTrigger(cycle, used + 1, now, now + TRIGGER_TIMEOUT);
        return status, Wait;
      }
      var trigger := found.value;
      if trigger.answer.Some? && trigger.answer.value.yes {
        return Done, Plan(AfterConfirmation(trigger.answer.value.respondedAt));
      }
      if trigger.answer.Some? || now > trigger.expiresAt {
        var (class_, _) := Classify(InsufficientFunds);
        var next := Next(dueDate, used, class_, preferredHour, now);
        return Done, if next.Some? then Plan(next.value) else NoPlan;
      }
      return Done, Wait;
    }
  }

  function FindIn(rows: TriggerRows, k: TriggerKey): Option<Trigger> {
    if k in rows then Some(rows[k]) else None
  }

  /** `GateFailed` is the error of a question that cannot be put. */
  datatype Verdict = Plan(at: Time) | Wait | NoPlan | GateFailed

  /** What the gate says of the row it found. */
  function VerdictOf(found: Option<Trigger>, dueDate: Time, used: int, preferredHour: Option<int>, now: Time): Verdict {
    match found
    case None => Wait
    case Some(t) =>
      if t.answer.Some? && t.answer.value.yes then Plan(AfterConfirmation(t.answer.value.respondedAt))
      else if t.answer.Some? || now > t.expiresAt then
        match Next(dueDate, used, Classify(InsufficientFunds).0, preferredHour, now)
        case None => NoPlan
        case Some(at) => Plan(at)
      else Wait
  }

  // ---------------------------------------------------------------------------------------
  // Any number of schedulers asking and answers arriving, for any cycles, in any order

  datatype TriggerOp =
    | Ask(key: TriggerKey, now: Time)          // a tick that found no row: the row may exist by now
    | Respond(key: TriggerKey, answer: Answer)

  function Step(rows: TriggerRows, op: TriggerOp): TriggerRows {
    match op
    case Ask(k, now) => Queued(rows, k, now, now + TRIGGER_TIMEOUT)
    case Respond(k, a) => Responded(rows, k, a)
  }

  function Steps(rows: TriggerRows, ops: seq<TriggerOp>): TriggerRows
    decreases |ops|
  {
    if ops == [] then rows else Steps(Step(rows, ops[0]), ops[1..])
  }

  /** The first question's deadline and the first answer stay for good. */
  lemma {:induction false} FirstWriteWins(rows: TriggerRows, ops: seq<TriggerOp>, k: TriggerKey)
    requires k in rows
    ensures k in Steps(rows, ops)
    ensures var t, t' := rows[k], Steps(rows, ops)[k];
            && t'.sentAt == t.sentAt && t'.expiresAt == t.expiresAt
            && (t.answer.Some? ==> t' == t)
    decreases |ops|
  {
    if ops != [] {
      FirstWriteWins(Step(rows, ops[0]), ops[1..], k);
    }
  }

  /** What was said about a trigger, read off the operations themselves: when it was first asked
      about, and the first answer after that. */
  function FirstAsk(ops: seq<TriggerOp>, k: TriggerKey): (n: nat)
    ensures n <= |ops| && (n < |ops| ==> ops[n].Ask? && ops[n].key == k)
  {
    if ops == [] || (ops[0].Ask? && ops[0].key == k) then 0 else 1 + FirstAsk(ops[1..], k)
  }

  function FirstAnswer(ops: seq<TriggerOp>, k: TriggerKey): Option<Answer> {
    if ops == [] then None
    else if ops[0].Respond? && ops[0].key == k then Some(ops[0].answer)
    else FirstAnswer(ops[1..], k)
  }

  function Told(ops: seq<TriggerOp>, k: TriggerKey): Option<Trigger> {
    var n := FirstAsk(ops, k);
    if n == |ops| then None
    else Some(Trigger(ops[n].now, ops[n].now + TRIGGER_TIMEOUT, FirstAnswer(ops[n + 1..], k)))
  }

  /** The row a lookup finds is what the operations say: sent at the first question, due 20 hours
      later, answered by the first answer after that question. */
  lemma {:induction false} TableIsItsHistory(rows: TriggerRows, ops: seq<TriggerOp>, k: TriggerKey)
    requires k !in rows
    ensures FindIn(Steps(rows, ops), k) == Told(ops, k)
    decreases |ops|
  {
    if ops != [] {
      var next := Step(rows, ops[0]);
      if k in next {
        AnswerIsTheFirst(next, ops[1..], k);
      } else {
        TableIsItsHistory(next, ops[1..], k);
      }
    }
  }

  lemma {:induction false} AnswerIsTheFirst(rows: TriggerRows, ops: seq<TriggerOp>, k: TriggerKey)
    requires k in rows && rows[k].answer == None
    ensures k in Steps(rows, ops) && Steps(rows, ops)[k] == rows[k].(answer := FirstAnswer(ops, k))
    decreases |ops|
  {
    if ops != [] {
      var next := Step(rows, ops[0]);
      if next[k].answer.Some? {
        FirstWriteWins(next, ops[1..], k);
      } else {
        AnswerIsTheFirst(next, ops[1..], k);
      }
    }
  }

  /** However often the question is put again, the wait ends 20 hours after it was first put or
      with the first answer, whichever comes first, and not before; then there is a plan. */
  lemma WaitIsNeverExtended(rows: TriggerRows, k: TriggerKey, asked: Time, ops: seq<TriggerOp>,
                            dueDate: Time, used: int, preferredHour: Option<int>, now: Time)
    requires k !in rows && 1 <= used <= 3
    ensures var later := Steps(Step(rows, Ask(k, asked)), ops);
            && k in later
            && var verdict := VerdictOf(FindIn(later, k), dueDate, used, preferredHour, now);
               && (verdict == Wait <==> later[k].answer == None && now <= asked + 20 * HOUR)
               && (verdict != Wait ==> verdict.Plan? && FreeAt(verdict.at) && !Blocked(verdict.at))
               && (verdict.Plan? && !(later[k].answer.Some? && later[k].answer.value.yes) ==>
                     verdict.at >= now + 24 * HOUR + 15 * MINUTE)
  {
    FirstWriteWins(Step(rows, Ask(k, asked)), ops, k);
    PlansMeetEveryRule(dueDate, used, RetryLater, preferredHour, now);
    var later := Steps(Step(rows, Ask(k, asked)), ops);
    if later[k].answer.Some? {
      ConfirmationCountsFromTheAnswer(later[k].answer.value.respondedAt, now);
    }
  }

  /** An answer once given decides every later tick: a yes always plans the same slot. */
  lemma AnswersAreFinal(rows: TriggerRows, k: TriggerKey, ops: seq<TriggerOp>,
                        dueDate: Time, used: int, preferredHour: Option<int>, now: Time)
    requires k in rows && rows[k].answer.Some?
    ensures VerdictOf(FindIn(Steps(rows, ops), k), dueDate, used, preferredHour, now)
         == VerdictOf(FindIn(rows, k), dueDate, used, preferredHour, now)
    ensures rows[k].answer.value.yes ==>
              VerdictOf(FindIn(Steps(rows, ops), k), dueDate, used, preferredHour, now)
              == Plan(AfterConfirmation(rows[k].answer.value.respondedAt))
  {
    FirstWriteWins(rows, ops, k);
  }

  /** In every reachable state a pending cycle that last failed for lack of funds has used one to
      three attempts, so an answered or expired trigger always gives it a plan. */
  lemma PendingCyclesGetAPlan(s: Protocol.Sys, actions: seq<Protocol.Action>, t: Protocol.Sys,
                              trigger: Trigger, preferredHour: Option<int>, now: Time)
    requires Protocol.Init(s) && Protocol.Runs(s, actions, t) && t.db.cycle.state == Pending
    requires LastFailureCode(t.db, t.db.cycle.attemptsUsed) == Some(InsufficientFunds)
    ensures 1 <= t.db.cycle.attemptsUsed <= 3
    ensures VerdictOf(Some(trigger), t.db.cycle.dueDate, t.db.cycle.attemptsUsed, preferredHour, now).Plan?
            <==> trigger.answer.Some? || now > trigger.expiresAt
  {
    Safety.PendingCyclesCanBePlanned(s, actions, t);
    PlansMeetEveryRule(t.db.cycle.dueDate, t.db.cycle.attemptsUsed, RetryLater, preferredHour, now);
  }
}
