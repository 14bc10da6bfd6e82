/** internal/harness/simulate.go and baseline.go: the three policies compared by the harness. Each
    loop is proved equal to a function, about which module Domination then speaks. */
module Simulate {
  import opened Domain
  import opened Classification
  import opened Slots
  import opened Predict
  import opened OutcomeModel

  /** The customer of a cycle is looked up by the cycle's id. */
  datatype CycleSpec = CycleSpec(id: string, rail: Rail, amountPaise: int, dueDate: Time)

  datatype SimOutcome = SimOutcome(recovered: bool, attemptsUsed: int, firedAt: Option<Time>)

  /** What a simulation is run against. */
  datatype Setup = Setup(world: World, hash: DrawHash, seed: int)

  function ConditionsAt(w: World, c: CycleSpec, n: int, t: Time): Conditions {
    Conditions(n, c.rail, c.amountPaise, BalanceOf(CustomerOf(w, c.id), t), t)
  }

  function ProbabilityAt(w: World, c: CycleSpec, n: int, t: Time): real {
    SuccessProbability(ConditionsAt(w, c, n, t))
  }

  /** The outcome of attempt n fired at t. */
  function DecideAt(e: Setup, c: CycleSpec, n: int, t: Time): Decision {
    Decide(ConditionsAt(e.world, c, n, t), (e.hash)(e.seed, c.id, n))
  }

  const MANDATE_SETUP_LEAD: Time := 30 * DAY

  /** attemptsUsed when a simulation begins. */
  const START: nat := 0

  /** `decide`: the balance is asked of the world. */
  method RunDecide(e: Setup, c: CycleSpec, n: int, t: Time) returns (d: Decision)
    ensures d == DecideAt(e, c, n, t)
  {
    var balance := BalanceAt(CustomerOf(e.world, c.id), t);
    d := Decide(Conditions(n, c.rail, c.amountPaise, balance, t), (e.hash)(e.seed, c.id, n));
  }

  // ---------------------------------------------------------------------------------------
  // The system

  /** The slot of the next attempt; nothing when the last code may not be retried. */
  function SystemPlan(due: Time, used: int, lastCode: Option<FailureCode>, hour: Option<int>,
                      decidedAt: Time): Option<Time> {
    if used == 0 then Some(First(due, hour, decidedAt))
    else Next(due, used, if lastCode.Some? then Classify(lastCode.value).0 else ManualReview, hour, decidedAt)
  }

  /** The rest of a simulation after `used` attempts. */
  function SystemFrom(e: Setup, c: CycleSpec, hour: Option<int>, used: nat, lastCode: Option<FailureCode>,
                      decidedAt: Time): SimOutcome
    decreases MAX_ATTEMPTS - used
  {
    if used >= MAX_ATTEMPTS then SimOutcome(false, used, None)
    else
      match SystemPlan(c.dueDate, used, lastCode, hour, decidedAt)
      case None => SimOutcome(false, used, None)
      case Some(at) =>
        match DecideAt(e, c, used + 1, at)
        case Debited => SimOutcome(true, used + 1, Some(at))
        case Refused(code) => SystemFrom(e, c, hour, used + 1, Some(code), at)
  }

  function System(e: Setup, c: CycleSpec, hour: Option<int>): SimOutcome {
    SystemFrom(e, c, hour, START, None, c.dueDate - MANDATE_SETUP_LEAD)
  }

  /** The preference `PreferredHour` finds in a history. */
  predicate Prefers(history: seq<Time>, hour: Option<int>) {
    if |history| < MIN_HISTORY then hour == None else hour.Some? && IsMode(history, hour.value)
  }

  method SimulateSystem(e: Setup, c: CycleSpec, history: seq<Time>) returns (r: SimOutcome)
    ensures SystemRan(e, c, history, r)
  {
    hide SystemPlan, IsMode;
    var hour := PreferredHour(history);
    assert Prefers(history, hour);
    var used, lastCode, decidedAt := START, None, c.dueDate - MANDATE_SETUP_LEAD;
    while used < MAX_ATTEMPTS
      invariant 0 <= used <= MAX_ATTEMPTS
      invariant System(e, c, hour) == SystemFrom(e, c, hour, used, lastCode, decidedAt)
    {
      var plan := SystemPlan(c.dueDate, used, lastCode, hour, decidedAt);
      if plan == None {
        return SimOutcome(false, used, None);
      }
      used := used + 1;
      var d := RunDecide(e, c, used, plan.value);
      if d == Debited {
        return SimOutcome(true, used, plan);
      }
      lastCode, decidedAt := Some(d.code), plan.value;
    }
    return SimOutcome(false, used, None);
  }

  /** The history after some outcomes: the firing times of the recoveries. */
  function FiredAtOf(outcomes: seq<SimOutcome>): seq<Time> {
    if outcomes == [] then []
    else
      var last := outcomes[|outcomes| - 1];
      FiredAtOf(outcomes[..|outcomes| - 1])
        + (if last.recovered && last.firedAt.Some? then [last.firedAt.value] else [])
  }

  /** The outcome of simulating the cycle with this history. */
  ghost predicate SystemRan(e: Setup, c: CycleSpec, history: seq<Time>, r: SimOutcome) {
    exists hour :: Prefers(history, hour) && r == System(e, c, hour)
  }

  /** A customer's cycles in order: each recovery joins the history the next ones plan from. */
  method SimulateCustomerSequence(e: Setup, cycles: seq<CycleSpec>) returns (outcomes: seq<SimOutcome>)
    ensures |outcomes| == |cycles|
    ensures forall i | 0 <= i < |cycles| :: SystemRan(e, cycles[i], FiredAtOf(outcomes[..i]), outcomes[i])
  {
    outcomes := [];
    var history: seq<Time> := [];
    for i := 0 to |cycles|
      invariant |outcomes| == i && history == FiredAtOf(outcomes)
      invariant forall j | 0 <= j < i :: SystemRan(e, cycles[j], FiredAtOf(outcomes[..j]), outcomes[j])
    {
      var outcome := SimulateSystem(e, cycles[i], history);
      ghost var before := outcomes;
      outcomes := outcomes + [outcome];
      assert outcomes[..i] == before;
      assert forall j | 0 <= j < i :: outcomes[..j] == before[..j];
      RecoveryHasTime(e, cycles[i], history, outcome);
      if outcome.recovered {
        history := history + [outcome.firedAt.value];
      }
    }
  }

  lemma RecoveryHasTime(e: Setup, c: CycleSpec, history: seq<Time>, r: SimOutcome)
    requires SystemRan(e, c, history, r)
    ensures r.recovered ==> r.firedAt.Some?
  {
    var hour :| Prefers(history, hour) && r == System(e, c, hour);
    var used, decidedAt := START, c.dueDate - MANDATE_SETUP_LEAD;
    assert System(e, c, hour) == SystemFrom(e, c, hour, used, None, decidedAt);
    RecoveryFromHasTime(e, c, hour, used, None, decidedAt);
  }

  lemma {:induction false} RecoveryFromHasTime(e: Setup, c: CycleSpec, hour: Option<int>, used: nat,
                                               lastCode: Option<FailureCode>, decidedAt: Time)
    ensures var r := SystemFrom(e, c, hour, used, lastCode, decidedAt); r.recovered ==> r.firedAt.Some?
    decreases MAX_ATTEMPTS - used
  {
    if used < MAX_ATTEMPTS {
      match SystemPlan(c.dueDate, used, lastCode, hour, decidedAt)
      case None =>
      case Some(at) =>
        match DecideAt(e, c, used + 1, at)
        case Debited =>
        case Refused(code) => RecoveryFromHasTime(e, c, hour, used + 1, Some(code), at);
    }
  }

  // ---------------------------------------------------------------------------------------
  // The baseline

  /** BaselineNext: the due date, then fixed offsets from it. */
  function BaselineNext(due: Time, used: int): Option<Time> {
    if used == 0 then Some(due)
    else if used - 1 < 0 || used - 1 >= |OFFSETS| then None
    else Some(due + OFFSETS[used - 1])
  }

  function BaselineFrom(e: Setup, c: CycleSpec, used: nat): SimOutcome
    decreases MAX_ATTEMPTS - used
  {
    if used >= MAX_ATTEMPTS then SimOutcome(false, used, None)
    else
      match BaselineNext(c.dueDate, used)
      case None => SimOutcome(false, used, None)
      case Some(at) =>
        if DecideAt(e, c, used + 1, at) == Debited then SimOutcome(true, used + 1, None)
        else BaselineFrom(e, c, used + 1)
  }

  function Baseline(e: Setup, c: CycleSpec): SimOutcome {
    BaselineFrom(e, c, START)
  }

  method SimulateBaseline(e: Setup, c: CycleSpec) returns (r: SimOutcome)
    ensures r == Baseline(e, c)
  {
    var used := START;
    while used < MAX_ATTEMPTS
      invariant 0 <= used <= MAX_ATTEMPTS
      invariant Baseline(e, c) == BaselineFrom(e, c, used)
    {
      var at := BaselineNext(c.dueDate, used);
      if at == None {
        return SimOutcome(false, used, None);
      }
      used := used + 1;
      var d := RunDecide(e, c, used, at.value);
      if d == Debited {
        return SimOutcome(true, used, None);
      }
    }
    return SimOutcome(false, used, None);
  }

  // ---------------------------------------------------------------------------------------
  // The oracle

  /** The search window in steps of one hour. */
  const GRID := 168

  function GridSlot(due: Time, k: int): Time {
    due + k * HOUR
  }

  /** The slot is the best of the grid for attempt n: unblocked and at least as probable as every
      other unblocked one, and the earliest such; the due date if everything is blocked. */
  predicate IsBest(w: World, c: CycleSpec, n: int, best: Time, p: real) {
    || (&& (forall k | 0 <= k < 168 :: Blocked(GridSlot(c.dueDate, k)))
        && best == c.dueDate && p == -1.0)
    || exists j | 0 <= j < 168 ::
         && best == GridSlot(c.dueDate, j) && !Blocked(best) && p == ProbabilityAt(w, c, n, best)
         && (forall k | 0 <= k < 168 && !Blocked(GridSlot(c.dueDate, k)) ::
           ProbabilityAt(w, c, n, GridSlot(c.dueDate, k)) <= p)
         && (forall k | 0 <= k < j && !Blocked(GridSlot(c.dueDate, k)) ::
           ProbabilityAt(w, c, n, GridSlot(c.dueDate, k)) < p)
  }

  /** The search over the first k steps. */
  function BestUpTo(w: World, c: CycleSpec, n: int, k: nat): (Time, real) {
    if k == 0 then (c.dueDate, -1.0)
    else
      var (best, p) := BestUpTo(w, c, n, k - 1);
      var t := GridSlot(c.dueDate, k - 1);
      if !Blocked(t) && ProbabilityAt(w, c, n, t) > p then (t, ProbabilityAt(w, c, n, t)) else (best, p)
  }

  /** What the search has found after k steps. */
  predicate BestSoFar(w: World, c: CycleSpec, n: int, k: nat, best: Time, p: real, j: int) {
    && (forall i | 0 <= i < k && !Blocked(GridSlot(c.dueDate, i)) ::
      ProbabilityAt(w, c, n, GridSlot(c.dueDate, i)) <= p)
    && if j < 0 then best == c.dueDate && p == -1.0
       else
         && j < k && best == GridSlot(c.dueDate, j) && !Blocked(best) && p == ProbabilityAt(w, c, n, best)
         && forall i | 0 <= i < j && !Blocked(GridSlot(c.dueDate, i)) ::
           ProbabilityAt(w, c, n, GridSlot(c.dueDate, i)) < p
  }

  lemma {:induction false} SearchFinds(w: World, c: CycleSpec, n: int, k: nat) returns (j: int)
    ensures BestSoFar(w, c, n, k, BestUpTo(w, c, n, k).0, BestUpTo(w, c, n, k).1, j)
  {
    hide Blocked, ProbabilityAt, GridSlot;
    if k == 0 {
      j := -1;
    } else {
      j := SearchFinds(w, c, n, k - 1);
      var t := GridSlot(c.dueDate, k - 1);
      if !Blocked(t) && ProbabilityAt(w, c, n, t) > BestUpTo(w, c, n, k - 1).1 {
        j := k - 1;
      }
    }
  }

  /** The search returns the best slot of the grid. */
  lemma SearchIsBest(w: World, c: CycleSpec, n: int)
    ensures IsBest(w, c, n, BestUpTo(w, c, n, GRID).0, BestUpTo(w, c, n, GRID).1)
  {
    var j := SearchFinds(w, c, n, GRID);
    if j < 0 {
      forall k | 0 <= k < GRID
        ensures Blocked(GridSlot(c.dueDate, k))
      {
        assert ProbabilityAt(w, c, n, GridSlot(c.dueDate, k)) >= 0.0;
      }
    }
  }

  method BestSlot(w: World, c: CycleSpec, n: int) returns (best: Time, p: real)
    ensures (best, p) == BestUpTo(w, c, n, GRID) && IsBest(w, c, n, best, p)
  {
    hide Blocked, SuccessProbability, BalanceOf, IsBest;
    best, p := c.dueDate, -1.0;
    ghost var k := 0;
    var t := c.dueDate;
    while t < c.dueDate + GRID * HOUR
      invariant 0 <= k <= GRID && t == GridSlot(c.dueDate, k)
      invariant (best, p) == BestUpTo(w, c, n, k)
      decreases GRID - k
    {
      if !Blocked(t) {
        var balance := BalanceAt(CustomerOf(w, c.id), t);
        var here := SuccessProbability(Conditions(n, c.rail, c.amountPaise, balance, t));
        if here > p {
          best, p := t, here;
        }
      }
      t := t + HOUR;
      k := k + 1;
    }
    SearchIsBest(w, c, n);
  }

  function OracleFrom(e: Setup, c: CycleSpec, used: nat): SimOutcome
    decreases MAX_ATTEMPTS - used
  {
    if used >= MAX_ATTEMPTS then SimOutcome(false, used, None)
    else if DecideAt(e, c, used + 1, BestUpTo(e.world, c, used + 1, GRID).0) == Debited
    then SimOutcome(true, used + 1, None)
    else OracleFrom(e, c, used + 1)
  }

  function Oracle(e: Setup, c: CycleSpec): SimOutcome {
    OracleFrom(e, c, START)
  }

  method SimulateOracle(e: Setup, c: CycleSpec) returns (r: SimOutcome)
    ensures r == Oracle(e, c)
  {
    var used := START;
    while used < MAX_ATTEMPTS
      invariant 0 <= used <= MAX_ATTEMPTS
      invariant Oracle(e, c) == OracleFrom(e, c, used)
    {
      used := used + 1;
      var at, _ := BestSlot(e.world, c, used);
      var d := RunDecide(e, c, used, at);
      if d == Debited {
        return SimOutcome(true, used, None);
      }
    }
    return SimOutcome(false, used, None);
  }
}
