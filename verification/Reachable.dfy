/** Witnesses: concrete runs of one cycle, in which every step is one the code takes by its own
    clocks and plans. All processes read the database clock; slots and deadlines are the planner's. */
module Reachable {
  import opened Domain
  import opened Classification
  import opened Slots
  import opened CycleTables
  import opened Protocol
  import opened Invariant
  import opened Preservation
  import L = Ledger
  import Bank = DebitHandler

  const CYCLE := "c"

  const QUIET_BANK := Bank.Bank(L.Disk([], L.EMPTY_MEM), map[])

  /** The cycle has just been created. */
  function Start(): Sys {
    Sys(0, Fresh(CYCLE, UpiAutopay, 100, 0), QUIET_BANK, {}, map[], {}, [])
  }

  lemma StartIsInitial()
    ensures Init(Start())
  {
  }

  /** The slot the planner finds now, for a customer without a history; an attempt that failed for
      lack of funds would also ask the customer, which no witness here does. */
  function Planned(s: Sys, q: Proc): Option<Time>
    requires q.Coded?
  {
    if q.used == 0 then Some(First(s.db.cycle.dueDate, None, s.now))
    else if q.lastCode == None || q.lastCode == Some(InsufficientFunds) then None
    else Next(s.db.cycle.dueDate, q.used, Classify(q.lastCode.value).0, None, s.now)
  }

  /** What the code's own checks add to a step: reservations are planned, with the deadline 24 hours
      before the slot; abandoning as stale takes more than ten minutes; notices are delivered by
      their deadline, at the time recorded, and cancelled only after it. */
  predicate Lifelike(s: Sys, a: Action)
    requires Enabled(s, a)
  {
    match a
    case ReserveSlot(p, _, at, deliverBy) => Planned(s, s.procs[p]) == Some(at) && DeadlineFits(deliverBy, at)
    case AbandonStale(p) => s.now - s.db.attempts[s.procs[p].i].scheduledFor > STALE_AFTER
    case Deliver(p, at) => at == s.now && s.now <= Deadline(s, p)
    case CancelNotice(p) => s.now > Deadline(s, p)
    case _ => true
  }

  /** The deadline of the notice a relay holds. */
  function Deadline(s: Sys, p: nat): Time
    requires At(s, p) && s.procs[p].Noticing?
  {
    if s.procs[p].i < |s.db.outbox| then s.db.outbox[s.procs[p].i].deliverBy else s.now
  }

  ghost predicate LifelikeRun(s: Sys, actions: seq<Action>)
    decreases |actions|
  {
    actions != [] ==>
      && Enabled(s, actions[0]) && Lifelike(s, actions[0])
      && LifelikeRun(Apply(s, actions[0]), actions[1..])
  }

  predicate StepTo(s: Sys, a: Action, t: Sys) {
    Enabled(s, a) && Lifelike(s, a) && t == Apply(s, a)
  }

  /** The run as the list of its states, so that a step can be added at the end. */
  ghost predicate Path(states: seq<Sys>, actions: seq<Action>) {
    && |states| == |actions| + 1
    && states[0] == Start()
    && forall k | 0 <= k < |actions| :: StepTo(states[k], actions[k], states[k + 1])
  }

  /** Some path ends in this state. */
  ghost predicate Reached(s: Sys) {
    exists states: seq<Sys>, actions: seq<Action> :: Path(states, actions) && states[|actions|] == s
  }

  lemma StartIsReached()
    ensures Reached(Start())
  {
    var states: seq<Sys>, actions: seq<Action> := [Start()], [];
    assert Path(states, actions) && states[|actions|] == Start();
  }

  /** One more step at the end. */
  lemma Then(s: Sys, a: Action) returns (s': Sys)
    requires Reached(s) && Enabled(s, a) && Lifelike(s, a)
    ensures Reached(s') && s' == Apply(s, a)
  {
    s' := Apply(s, a);
    var states: seq<Sys>, actions: seq<Action> :| Path(states, actions) && states[|actions|] == s;
    assert StepTo(s, a, s');
    var states', actions' := states + [s'], actions + [a];
    forall k | 0 <= k < |actions'|
      ensures StepTo(states'[k], actions'[k], states'[k + 1])
    {
      if k < |actions| {
        assert StepTo(states[k], actions[k], states[k + 1]);
      }
    }
    assert Path(states', actions') && states'[|actions'|] == s';
  }

  lemma BankThen(s: Sys, b: Bank.Action) returns (s': Sys)
    requires Reached(s) && Bank.Enabled(s.bank, s.net, b) && Bank.HandlersWellFormed(s.bank)
    ensures Reached(s') && s' == s.(bank := Bank.Apply(s.bank, s.net, b))
  {
    hide Reached;
    s' := Then(s, BankStep(b));
  }

  /** A path is a run. */
  lemma {:induction false} PathIsRun(states: seq<Sys>, actions: seq<Action>, k: nat)
    requires Path(states, actions) && k <= |actions|
    ensures Runs(states[k], actions[k..], states[|actions|]) && LifelikeRun(states[k], actions[k..])
    decreases |actions| - k
  {
    if k < |actions| {
      PathIsRun(states, actions, k + 1);
      assert StepTo(states[k], actions[k], states[k + 1]);
      assert actions[k..][1..] == actions[k + 1..];
    }
  }

  lemma ReachedByRun(s: Sys) returns (run: seq<Action>)
    requires Reached(s)
    ensures Runs(Start(), run, s) && LifelikeRun(Start(), run)
  {
    var states: seq<Sys>, actions: seq<Action> :| Path(states, actions) && states[|actions|] == s;
    PathIsRun(states, actions, 0);
    assert actions[0..] == actions;
    run := actions;
  }
}
