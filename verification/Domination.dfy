/** The harness's yardstick: the oracle recovers every cycle that the system or the baseline
    recovers. It is a theorem for balances that change at Indian midnight only, which includes
    every customer the simulation makes up; for any other world the exact condition is given. */
module Domination {
  import opened Domain
  import opened Classification
  import opened Slots
  import opened Predict
  import opened OutcomeModel
  import opened Simulate

  /** The slot of the system's attempt n, if it gets that far. */
  function SystemSlot(due: Time, hour: Option<int>, n: nat): Time
    requires 1 <= n <= MAX_ATTEMPTS
  {
    if n == 1 then First(due, hour, due - MANDATE_SETUP_LEAD)
    else PlanSlot(due + OFFSETS[n - 2], hour, SystemSlot(due, hour, n - 1))
  }

  function BaselineSlot(due: Time, n: nat): Time
    requires 1 <= n <= MAX_ATTEMPTS
  {
    if n == 1 then due else due + OFFSETS[n - 2]
  }

  function OracleSlot(w: World, c: CycleSpec, n: int): Time {
    BestUpTo(w, c, n, GRID).0
  }

  // ---------------------------------------------------------------------------------------
  // What a recovery tells

  function DecidedAt(due: Time, hour: Option<int>, used: nat): Time
    requires used <= MAX_ATTEMPTS
  {
    if used == 0 then due - MANDATE_SETUP_LEAD else SystemSlot(due, hour, used)
  }

  lemma PlanIsSystemSlot(due: Time, used: nat, lastCode: Option<FailureCode>, hour: Option<int>)
    requires used < MAX_ATTEMPTS
    ensures var plan := SystemPlan(due, used, lastCode, hour, DecidedAt(due, hour, used));
            && (plan.Some? ==> plan.value == SystemSlot(due, hour, used + 1))
            && (plan.Some? <==> used == 0 || (lastCode.Some? && !Final(Classify(lastCode.value).0)))
  {
  }

  /** One turn of the system's loop. */
  lemma SystemTurn(e: Setup, c: CycleSpec, hour: Option<int>, used: nat, lastCode: Option<FailureCode>)
    requires used < MAX_ATTEMPTS && (used == 0 || (lastCode.Some? && !Final(Classify(lastCode.value).0)))
    ensures var at := SystemSlot(c.dueDate, hour, used + 1);
            SystemFrom(e, c, hour, used, lastCode, DecidedAt(c.dueDate, hour, used))
            == match DecideAt(e, c, used + 1, at)
               case Debited => SimOutcome(true, used + 1, Some(at))
               case Refused(code) => SystemFrom(e, c, hour, used + 1, Some(code), DecidedAt(c.dueDate, hour, used + 1))
  {
    PlanIsSystemSlot(c.dueDate, used, lastCode, hour);
  }

  /** Attempt n of the system, fired at its slot, succeeds. */
  predicate WinsAt(e: Setup, c: CycleSpec, hour: Option<int>, n: int) {
    1 <= n <= MAX_ATTEMPTS && DecideAt(e, c, n, SystemSlot(c.dueDate, hour, n)) == Debited
  }

  lemma {:induction false} SystemRecoveryFrom(e: Setup, c: CycleSpec, hour: Option<int>, used: nat,
                                              lastCode: Option<FailureCode>, decidedAt: Time)
    requires used <= MAX_ATTEMPTS && decidedAt == DecidedAt(c.dueDate, hour, used)
    ensures var r := SystemFrom(e, c, hour, used, lastCode, decidedAt);
            r.recovered ==>
              && used < r.attemptsUsed && WinsAt(e, c, hour, r.attemptsUsed)
              && r.firedAt == Some(SystemSlot(c.dueDate, hour, r.attemptsUsed))
    decreases MAX_ATTEMPTS - used
  {
    hide SystemSlot, DecideAt;
    if used < MAX_ATTEMPTS {
      if used == 0 || (lastCode.Some? && !Final(Classify(lastCode.value).0)) {
        SystemTurn(e, c, hour, used, lastCode);
        var at := SystemSlot(c.dueDate, hour, used + 1);
        var d := DecideAt(e, c, used + 1, at);
        if d.Refused? {
          SystemRecoveryFrom(e, c, hour, used + 1, Some(d.code), at);
        }
      } else {
        PlanIsSystemSlot(c.dueDate, used, lastCode, hour);
      }
    }
  }

  lemma SystemRecovery(e: Setup, c: CycleSpec, hour: Option<int>)
    ensures var r := System(e, c, hour);
            r.recovered ==>
              && WinsAt(e, c, hour, r.attemptsUsed)
              && r.firedAt == Some(SystemSlot(c.dueDate, hour, r.attemptsUsed))
  {
    var used, decidedAt := START, c.dueDate - MANDATE_SETUP_LEAD;
    assert System(e, c, hour) == SystemFrom(e, c, hour, used, None, decidedAt);
    SystemRecoveryFrom(e, c, hour, used, None, decidedAt);
  }

  lemma {:induction false} BaselineRecoveryFrom(e: Setup, c: CycleSpec, used: nat)
    requires used <= MAX_ATTEMPTS
    ensures var r := BaselineFrom(e, c, used);
            r.recovered ==>
              && used < r.attemptsUsed <= MAX_ATTEMPTS
              && DecideAt(e, c, r.attemptsUsed, BaselineSlot(c.dueDate, r.attemptsUsed)) == Debited
    decreases MAX_ATTEMPTS - used
  {
    if used < MAX_ATTEMPTS {
      BaselineRecoveryFrom(e, c, used + 1);
    }
  }

  lemma {:induction false} OracleRecoveryFrom(e: Setup, c: CycleSpec, used: nat)
    requires used <= MAX_ATTEMPTS
    ensures var r := OracleFrom(e, c, used);
            r.recovered ==>
              && used < r.attemptsUsed <= MAX_ATTEMPTS
              && DecideAt(e, c, r.attemptsUsed, OracleSlot(e.world, c, r.attemptsUsed)) == Debited
    decreases MAX_ATTEMPTS - used
  {
    if used < MAX_ATTEMPTS {
      OracleRecoveryFrom(e, c, used + 1);
    }
  }

  lemma {:induction false} OracleRecoversBy(e: Setup, c: CycleSpec, used: nat, n: nat)
    requires used < n <= MAX_ATTEMPTS && DecideAt(e, c, n, OracleSlot(e.world, c, n)) == Debited
    ensures OracleFrom(e, c, used).recovered && OracleFrom(e, c, used).attemptsUsed <= n
    decreases MAX_ATTEMPTS - used
  {
    if used + 1 < n {
      OracleRecoversBy(e, c, used + 1, n);
    }
  }

  /** The oracle's slot for attempt n is at least as good as the given one. */
  predicate AtLeastAsGood(w: World, c: CycleSpec, n: int, t: Time) {
    ProbabilityAt(w, c, n, t) <= ProbabilityAt(w, c, n, OracleSlot(w, c, n))
  }

  lemma AttemptDominated(e: Setup, c: CycleSpec, n: nat, t: Time)
    requires 1 <= n <= MAX_ATTEMPTS && AtLeastAsGood(e.world, c, n, t) && DecideAt(e, c, n, t) == Debited
    ensures Oracle(e, c).recovered && Oracle(e, c).attemptsUsed <= n
  {
    var v := (e.hash)(e.seed, c.id, n);
    BetterOddsStillSucceed(ConditionsAt(e.world, c, n, t), ConditionsAt(e.world, c, n, OracleSlot(e.world, c, n)), v);
    OracleRecoversBy(e, c, START, n);
  }

  // ---------------------------------------------------------------------------------------
  // Which days the attempts fall on

  /** Days after the due date on which attempt n falls. */
  function DayOffset(n: nat): nat
    requires 1 <= n <= MAX_ATTEMPTS
  {
    if n == 1 then 0 else if n == 2 then 1 else if n == 3 then 3 else 7
  }

  predicate HourOk(hour: Option<int>) {
    hour.Some? ==> 0 <= hour.value < 24
  }

  /** A due date at midnight UTC is 05:30 of its Indian day. */
  lemma DueClock(due: Time, days: int)
    requires due % DAY == 0
    ensures IstDay(due + days * DAY) == IstDay(due) + days
    ensures IstClock(due + days * DAY) == 5 * HOUR + 30 * MINUTE
    ensures !Blocked(due + days * DAY)
  {
    var day := due / DAY;
    assert due + days * DAY == (day + days) * DAY + (11 * HOUR) - IST_OFFSET - (11 * HOUR - IST_OFFSET);
    DateReadsBack(day + days, IST_OFFSET);
    DateReadsBack(day, IST_OFFSET);
  }

  /** The preferred hour stays on the day. */
  lemma PreferredStaysOnDay(t: Time, hour: Option<int>)
    requires HourOk(hour)
    ensures var wanted := ApplyPreferredHour(t, hour);
            && IstDay(wanted) == IstDay(t)
            && IstClock(wanted) == if hour.Some? then hour.value * HOUR else IstClock(t)
  {
    if hour.Some? {
      DateReadsBack(IstDay(t), hour.value * HOUR);
    }
  }

  /** A plan whose notice floor is met, or missed by less than the rest of the day, stays on the
      day; a floor at or before 23:30 keeps the clock at or before 23:30. */
  lemma PlanStaysOnDay(slot: Time, hour: Option<int>, now: Time)
    requires HourOk(hour) && IstClock(slot) <= 23 * HOUR
    requires IstDay(NoticeFloor(now)) < IstDay(slot)
             || (IstDay(NoticeFloor(now)) == IstDay(slot) && IstClock(NoticeFloor(now)) <= 23 * HOUR + 30 * MINUTE)
    ensures IstDay(PlanSlot(slot, hour, now)) == IstDay(slot)
    ensures IstClock(PlanSlot(slot, hour, now)) <= 23 * HOUR + 30 * MINUTE
    ensures IstDay(NoticeFloor(now)) < IstDay(slot) ==> IstClock(PlanSlot(slot, hour, now)) <= 23 * HOUR
  {
    hide ApplyPreferredHour, NoticeFloor, ShiftPastBlockedWindow, IstDay, IstClock;
    PreferredStaysOnDay(slot, hour);
    var wanted := ApplyPreferredHour(slot, hour);
    LaterOnTheDay(wanted, NoticeFloor(now));
    ShiftKeepsClockLow(EnsureNoticeLead(wanted, now));
    ShiftEscapesTheWindow(EnsureNoticeLead(wanted, now));
  }

  /** Instants compare by day, then by clock. */
  lemma LaterOnTheDay(a: Time, b: Time)
    ensures a < b <==> IstDay(a) < IstDay(b) || (IstDay(a) == IstDay(b) && IstClock(a) < IstClock(b))
  {
    SplitsIntoDayAndClock(a);
    SplitsIntoDayAndClock(b);
  }

  lemma ShiftKeepsClockLow(t: Time)
    ensures IstClock(ShiftPastBlockedWindow(t))
         <= if IstClock(t) <= 21 * HOUR + 35 * MINUTE then 21 * HOUR + 35 * MINUTE else IstClock(t)
  {
    if Blocked(t) {
      var m := FindBlockedWindow(MinuteOfDay(t)).value.toMinute + 5;
      ClockOfMinutes(m);
      DateReadsBack(IstDay(t), m * MINUTE);
    }
  }

  /** A plan 24h15m after a slot at or before 23:00 falls on the next day, at or before 23:15. */
  lemma FloorIsNextDay(previous: Time)
    requires IstClock(previous) <= 23 * HOUR + 30 * MINUTE
    ensures IstDay(NoticeFloor(previous)) == IstDay(previous) + 1
    ensures IstClock(NoticeFloor(previous)) == IstClock(previous) + 15 * MINUTE
  {
    SplitsIntoDayAndClock(previous);
    DateReadsBack(IstDay(previous) + 1, IstClock(previous) + 15 * MINUTE);
  }

  /** Attempt n of the system falls on its mandated Indian day: D, D+1, D+3, D+7. */
  lemma SystemDays(due: Time, hour: Option<int>, n: nat)
    requires due % DAY == 0 && HourOk(hour) && 1 <= n <= MAX_ATTEMPTS
    ensures IstDay(SystemSlot(due, hour, n)) == IstDay(due) + DayOffset(n)
    ensures IstClock(SystemSlot(due, hour, n)) <= if n == 1 then 23 * HOUR else 23 * HOUR + 30 * MINUTE
  {
    hide PlanSlot, NoticeFloor, IstDay, IstClock, HourOk;
    DueClock(due, DayOffset(n));
    if n == 1 {
      DueClock(due, 0);
      FloorIsLongBefore(due);
      PlanStaysOnDay(due, hour, due - MANDATE_SETUP_LEAD);
    } else {
      SystemDays(due, hour, n - 1);
      FloorIsNextDay(SystemSlot(due, hour, n - 1));
      PlanStaysOnDay(due + OFFSETS[n - 2], hour, SystemSlot(due, hour, n - 1));
    }
  }

  lemma FloorIsLongBefore(due: Time)
    ensures IstDay(NoticeFloor(due - MANDATE_SETUP_LEAD)) < IstDay(due)
  {
    SplitsIntoDayAndClock(due);
    SplitsIntoDayAndClock(NoticeFloor(due - MANDATE_SETUP_LEAD));
  }

  lemma BaselineDays(due: Time, n: nat)
    requires due % DAY == 0 && 1 <= n <= MAX_ATTEMPTS
    ensures IstDay(BaselineSlot(due, n)) == IstDay(due) + DayOffset(n)
  {
    DueClock(due, DayOffset(n));
    DueClock(due, 0);
  }

  /** On each of the four days the oracle's grid has an unblocked slot: 05:30 on D, D+1 and D+3,
      and 00:30 on D+7, the window ending at 05:30 that day. */
  lemma GridCoversDay(due: Time, n: nat) returns (k: nat)
    requires due % DAY == 0 && 1 <= n <= MAX_ATTEMPTS
    ensures k < GRID && !Blocked(GridSlot(due, k)) && IstDay(GridSlot(due, k)) == IstDay(due) + DayOffset(n)
  {
    DueClock(due, 0);
    if n < 4 {
      k := 24 * DayOffset(n);
      DueClock(due, DayOffset(n));
    } else {
      k := 163;
      var day := due / DAY;
      assert GridSlot(due, k) == (day + 7) * DAY + 30 * MINUTE - IST_OFFSET;
      DateReadsBack(day + 7, 30 * MINUTE);
    }
  }

  // ---------------------------------------------------------------------------------------
  // Domination

  /** A slot on one of the four days is no better than the oracle's. */
  lemma OracleIsAtLeastAsGood(w: World, c: CycleSpec, n: nat, t: Time)
    requires c.dueDate % DAY == 0 && ChangesAtMidnight(CustomerOf(w, c.id)) && 1 <= n <= MAX_ATTEMPTS
    requires IstDay(t) == IstDay(c.dueDate) + DayOffset(n)
    ensures AtLeastAsGood(w, c, n, t)
  {
    var k := GridCoversDay(c.dueDate, n);
    var g := GridSlot(c.dueDate, k);
    hide ChangesAtMidnight, IstDay, Blocked;
    SameDayIsNoBetter(w, c, n, t, g);
    NoGridSlotIsBetter(w, c, n, k);
  }

  lemma SameDayIsNoBetter(w: World, c: CycleSpec, n: int, t: Time, g: Time)
    requires ChangesAtMidnight(CustomerOf(w, c.id)) && IstDay(t) == IstDay(g) && !Blocked(g)
    ensures ProbabilityAt(w, c, n, t) <= ProbabilityAt(w, c, n, g)
  {
    BalanceIsSteadyByDay(CustomerOf(w, c.id), t, g);
    hide BalanceOf, Blocked, IstDay;
  }

  lemma NoGridSlotIsBetter(w: World, c: CycleSpec, n: int, k: nat)
    requires k < GRID && !Blocked(GridSlot(c.dueDate, k))
    ensures ProbabilityAt(w, c, n, GridSlot(c.dueDate, k)) <= ProbabilityAt(w, c, n, OracleSlot(w, c, n))
  {
    hide Blocked, ProbabilityAt, GridSlot;
    SearchIsBest(w, c, n);
  }

  /** For every seed, hash, midnight due date and history, if the balance changes at Indian
      midnight only, then the oracle recovers whatever the system recovers, with no more attempts. */
  lemma OracleDominatesSystem(e: Setup, c: CycleSpec, history: seq<Time>, r: SimOutcome)
    requires c.dueDate % DAY == 0 && ChangesAtMidnight(CustomerOf(e.world, c.id)) && SystemRan(e, c, history, r)
    ensures r.recovered ==> Oracle(e, c).recovered && Oracle(e, c).attemptsUsed <= r.attemptsUsed
  {
    if r.recovered {
      var hour :| Prefers(history, hour) && r == System(e, c, hour);
      SystemRecovery(e, c, hour);
      var n := System(e, c, hour).attemptsUsed;
      SystemDays(c.dueDate, hour, n);
      var t := SystemSlot(c.dueDate, hour, n);
      OracleIsAtLeastAsGood(e.world, c, n, t);
      AttemptDominated(e, c, n, t);
    }
  }

  lemma OracleDominatesBaseline(e: Setup, c: CycleSpec)
    requires c.dueDate % DAY == 0 && ChangesAtMidnight(CustomerOf(e.world, c.id))
    ensures var r := Baseline(e, c);
            r.recovered ==> Oracle(e, c).recovered && Oracle(e, c).attemptsUsed <= r.attemptsUsed
  {
    var r := Baseline(e, c);
    if r.recovered {
      BaselineRecoveryFrom(e, c, START);
      BaselineDays(c.dueDate, r.attemptsUsed);
      var t := BaselineSlot(c.dueDate, r.attemptsUsed);
      OracleIsAtLeastAsGood(e.world, c, r.attemptsUsed, t);
      AttemptDominated(e, c, r.attemptsUsed, t);
    }
  }

  // ---------------------------------------------------------------------------------------
  // Worlds with arbitrary balances

  /** What a caller can compute before any draw: for each attempt the oracle's slot is at least as
      good as the system's. */
  predicate OracleSeesEnough(w: World, c: CycleSpec, hour: Option<int>) {
    forall n | 1 <= n <= MAX_ATTEMPTS :: AtLeastAsGood(w, c, n, SystemSlot(c.dueDate, hour, n))
  }

  ghost predicate Dominates(w: World, c: CycleSpec, hour: Option<int>, seed: int) {
    forall hash: DrawHash ::
      System(Setup(w, hash, seed), c, hour).recovered ==> Oracle(Setup(w, hash, seed), c).recovered
  }

  /** The hash under which only attempt n has a draw below 0.98. */
  function OnlyAttempt(n: int, v: nat): DrawHash {
    (seed: int, id: string, m: int) => if m == n then v * 2048 else (DRAWS - 1) * 2048
  }

  /** The draw of attempt n is v of DRAWS and its transient code may be retried. */
  lemma DrawsOf(n: int, v: nat, m: int, seed: int, id: string)
    requires v < DRAWS
    ensures DrawOf(OnlyAttempt(n, v)(seed, id, m))
         == if m == n then v as real / DRAWS as real else (DRAWS - 1) as real / DRAWS as real
    ensures OnlyAttempt(n, v)(seed, id, m) % 2048 == 0
  {
  }

  /** With that hash attempt n succeeds exactly where its probability exceeds the draw. */
  lemma AttemptWins(w: World, c: CycleSpec, n: int, v: nat, seed: int, t: Time)
    requires v < DRAWS
    ensures DecideAt(Setup(w, OnlyAttempt(n, v), seed), c, n, t) == Debited
            <==> v as real / DRAWS as real < ProbabilityAt(w, c, n, t)
  {
    DrawsOf(n, v, n, seed, c.id);
    DebitedIffDrawBelow(ConditionsAt(w, c, n, t), OnlyAttempt(n, v)(seed, c.id, n));
  }

  /** With that hash every other attempt fails, with a code that may be retried. */
  lemma OtherAttemptsFail(w: World, c: CycleSpec, n: int, v: nat, m: int, seed: int, t: Time)
    requires v < DRAWS && m != n && 0 < c.amountPaise <= RulesFor(c.rail).capPaise
    ensures var d := DecideAt(Setup(w, OnlyAttempt(n, v), seed), c, m, t);
            d.Refused? && (!Blocked(t) ==> !Final(Classify(d.code).0))
  {
    DrawsOf(n, v, m, seed, c.id);
  }

  /** Some multiple of 2^-53 lies between two probabilities at least that far apart. */
  lemma DrawBetween(p: real, q: real) returns (v: nat)
    requires 0.0 <= p && q <= 1.0 && q - p >= 0.001
    ensures v < DRAWS && p <= v as real / DRAWS as real < q
  {
    v := (q * DRAWS as real).Floor - 1;
    assert v as real >= q * DRAWS as real - 2.0;
    assert v as real <= q * DRAWS as real - 1.0;
  }

  /** The three probabilities a payable debit can have, by headroom. */
  function Level(rail: Rail, step: int): real {
    RulesFor(rail).baseSuccess + (if step == 2 then 0.05 else if step == 1 then 0.0 else -0.15)
  }

  lemma PayableProbability(c: Conditions) returns (step: int)
    requires Payable(c) && 1 <= c.attemptNumber <= MAX_ATTEMPTS
    ensures 0 <= step <= 2
    ensures SuccessProbability(c) == Level(c.rail, step) * Power(0.95, c.attemptNumber - 1)
  {
    PowersOf95();
    step := if Headroom(c) >= 2.0 then 2 else if Headroom(c) < 1.2 then 0 else 1;
  }

  /** Different probabilities of the same attempt differ by far more than one draw. */
  lemma ProbabilityGap(c: Conditions, d: Conditions)
    requires 1 <= c.attemptNumber <= MAX_ATTEMPTS && d.attemptNumber == c.attemptNumber && d.rail == c.rail
    requires SuccessProbability(c) < SuccessProbability(d)
    ensures SuccessProbability(d) - SuccessProbability(c) >= 0.001
  {
    PowersOf95();
    var j := PayableProbability(d);
    if Payable(c) {
      var i := PayableProbability(c);
    }
  }

  lemma SystemSlotUnblocked(due: Time, hour: Option<int>, n: nat)
    requires 1 <= n <= MAX_ATTEMPTS
    ensures !Blocked(SystemSlot(due, hour, n))
  {
    if n == 1 {
      PlannedSlot(due, hour, due - MANDATE_SETUP_LEAD);
    } else {
      PlannedSlot(due + OFFSETS[n - 2], hour, SystemSlot(due, hour, n - 1));
    }
  }

  lemma PositiveMeansInCap(w: World, c: CycleSpec, n: int, t: Time)
    requires ProbabilityAt(w, c, n, t) > 0.0
    ensures 0 < c.amountPaise <= RulesFor(c.rail).capPaise
  {
    assert Payable(ConditionsAt(w, c, n, t));
  }

  /** Under that hash the system gets as far as attempt n, and recovers there. */
  lemma {:induction false} SystemReaches(w: World, c: CycleSpec, hour: Option<int>, n: nat, v: nat, seed: int,
                                         used: nat, lastCode: Option<FailureCode>, decidedAt: Time)
    requires used < n <= MAX_ATTEMPTS && v < DRAWS && decidedAt == DecidedAt(c.dueDate, hour, used)
    requires used == 0 || (lastCode.Some? && !Final(Classify(lastCode.value).0))
    requires v as real / DRAWS as real < ProbabilityAt(w, c, n, SystemSlot(c.dueDate, hour, n))
    ensures SystemFrom(Setup(w, OnlyAttempt(n, v), seed), c, hour, used, lastCode, decidedAt).recovered
    decreases n - used
  {
    hide SystemSlot, DecideAt, ProbabilityAt, SystemPlan;
    var e, at := Setup(w, OnlyAttempt(n, v), seed), SystemSlot(c.dueDate, hour, used + 1);
    SystemTurn(e, c, hour, used, lastCode);
    if used + 1 == n {
      AttemptWins(w, c, n, v, seed, at);
    } else {
      SystemSlotUnblocked(c.dueDate, hour, used + 1);
      PositiveMeansInCap(w, c, n, SystemSlot(c.dueDate, hour, n));
      OtherAttemptsFail(w, c, n, v, used + 1, seed, at);
      SystemReaches(w, c, hour, n, v, seed, used + 1, Some(DecideAt(e, c, used + 1, at).code), at);
    }
  }

  /** Under that hash the oracle fails every attempt. */
  lemma OracleLoses(w: World, c: CycleSpec, n: nat, v: nat, seed: int)
    requires v < DRAWS && 0 < c.amountPaise <= RulesFor(c.rail).capPaise
    requires ProbabilityAt(w, c, n, OracleSlot(w, c, n)) <= v as real / DRAWS as real
    ensures !Oracle(Setup(w, OnlyAttempt(n, v), seed), c).recovered
  {
    var e := Setup(w, OnlyAttempt(n, v), seed);
    OracleRecoveryFrom(e, c, START);
    var m := Oracle(e, c).attemptsUsed;
    if Oracle(e, c).recovered {
      if m == n {
        AttemptWins(w, c, n, v, seed, OracleSlot(w, c, n));
      } else {
        OtherAttemptsFail(w, c, n, v, m, seed, OracleSlot(w, c, m));
      }
      assert false;
    }
  }

  lemma GapBetweenSlots(w: World, c: CycleSpec, n: nat, worse: Time, better: Time)
    requires 1 <= n <= MAX_ATTEMPTS && ProbabilityAt(w, c, n, worse) < ProbabilityAt(w, c, n, better)
    ensures ProbabilityAt(w, c, n, better) - ProbabilityAt(w, c, n, worse) >= 0.001
    ensures 0 < c.amountPaise <= RulesFor(c.rail).capPaise
  {
    ProbabilityGap(ConditionsAt(w, c, n, worse), ConditionsAt(w, c, n, better));
    assert Payable(ConditionsAt(w, c, n, better));
  }

  /** Where the oracle's slot for some attempt is worse, some hash makes it lose. */
  lemma OracleCanLose(w: World, c: CycleSpec, hour: Option<int>, n: nat, seed: int) returns (hash: DrawHash)
    requires 1 <= n <= MAX_ATTEMPTS && !AtLeastAsGood(w, c, n, SystemSlot(c.dueDate, hour, n))
    ensures System(Setup(w, hash, seed), c, hour).recovered && !Oracle(Setup(w, hash, seed), c).recovered
  {
    var v := DrawBetweenSlots(w, c, n, OracleSlot(w, c, n), SystemSlot(c.dueDate, hour, n));
    hash := OnlyAttempt(n, v);
    SystemWins(w, c, hour, n, v, seed);
    OracleLoses(w, c, n, v, seed);
  }

  lemma SystemWins(w: World, c: CycleSpec, hour: Option<int>, n: nat, v: nat, seed: int)
    requires 1 <= n <= MAX_ATTEMPTS && v < DRAWS
    requires v as real / DRAWS as real < ProbabilityAt(w, c, n, SystemSlot(c.dueDate, hour, n))
    ensures System(Setup(w, OnlyAttempt(n, v), seed), c, hour).recovered
  {
    hide SystemPlan, SystemSlot;
    var e, used, decidedAt := Setup(w, OnlyAttempt(n, v), seed), START, c.dueDate - MANDATE_SETUP_LEAD;
    assert System(e, c, hour) == SystemFrom(e, c, hour, used, None, decidedAt);
    SystemReaches(w, c, hour, n, v, seed, used, None, decidedAt);
  }

  lemma DrawBetweenSlots(w: World, c: CycleSpec, n: nat, worse: Time, better: Time) returns (v: nat)
    requires 1 <= n <= MAX_ATTEMPTS && ProbabilityAt(w, c, n, worse) < ProbabilityAt(w, c, n, better)
    ensures v < DRAWS && 0 < c.amountPaise <= RulesFor(c.rail).capPaise
    ensures ProbabilityAt(w, c, n, worse) <= v as real / DRAWS as real < ProbabilityAt(w, c, n, better)
  {
    GapBetweenSlots(w, c, n, worse, better);
    v := DrawBetween(ProbabilityAt(w, c, n, worse), ProbabilityAt(w, c, n, better));
  }

  /** The exact condition, for every world, due date and preference: the oracle recovers whatever
      the system does, under every hash, if and only if its slots are at least as good. */
  lemma OracleDominatesIff(w: World, c: CycleSpec, hour: Option<int>, seed: int)
    ensures Dominates(w, c, hour, seed) <==> OracleSeesEnough(w, c, hour)
  {
    if OracleSeesEnough(w, c, hour) {
      forall hash: DrawHash
        ensures System(Setup(w, hash, seed), c, hour).recovered ==> Oracle(Setup(w, hash, seed), c).recovered
      {
        SeenEnough(Setup(w, hash, seed), c, hour);
      }
    } else {
      var n :| 1 <= n <= MAX_ATTEMPTS && !AtLeastAsGood(w, c, n, SystemSlot(c.dueDate, hour, n));
      var hash := OracleCanLose(w, c, hour, n, seed);
      assert !(System(Setup(w, hash, seed), c, hour).recovered ==> Oracle(Setup(w, hash, seed), c).recovered);
    }
  }

  lemma SeenEnough(e: Setup, c: CycleSpec, hour: Option<int>)
    requires OracleSeesEnough(e.world, c, hour)
    ensures System(e, c, hour).recovered ==> Oracle(e, c).recovered
  {
    if System(e, c, hour).recovered {
      SystemRecovery(e, c, hour);
      var n := System(e, c, hour).attemptsUsed;
      assert AtLeastAsGood(e.world, c, n, SystemSlot(c.dueDate, hour, n));
      AttemptDominated(e, c, n, SystemSlot(c.dueDate, hour, n));
    }
  }

  /** Midnight due dates and balances that change at midnight meet the condition. */
  lemma SteadyWorldsAreSeen(w: World, c: CycleSpec, hour: Option<int>)
    requires c.dueDate % DAY == 0 && ChangesAtMidnight(CustomerOf(w, c.id)) && HourOk(hour)
    ensures OracleSeesEnough(w, c, hour)
  {
    forall n | 1 <= n <= MAX_ATTEMPTS
      ensures AtLeastAsGood(w, c, n, SystemSlot(c.dueDate, hour, n))
    {
      SystemDays(c.dueDate, hour, n);
      OracleIsAtLeastAsGood(w, c, n, SystemSlot(c.dueDate, hour, n));
    }
  }

  ghost predicate DominatesBaseline(w: World, c: CycleSpec, seed: int) {
    forall hash: DrawHash ::
      Baseline(Setup(w, hash, seed), c).recovered ==> Oracle(Setup(w, hash, seed), c).recovered
  }

  /** The baseline's first three attempts are on the oracle's grid. */
  lemma EarlyBaselineIsOnTheGrid(w: World, c: CycleSpec, n: nat)
    requires 1 <= n <= 3
    ensures AtLeastAsGood(w, c, n, BaselineSlot(c.dueDate, n))
  {
    var t := BaselineSlot(c.dueDate, n);
    SearchIsBest(w, c, n);
    if !Blocked(t) {
      assert t == GridSlot(c.dueDate, 24 * DayOffset(n));
    } else {
      assert !Payable(ConditionsAt(w, c, n, t));
    }
  }

  lemma {:induction false} BaselineReaches(w: World, c: CycleSpec, n: nat, v: nat, seed: int, used: nat)
    requires used < n <= MAX_ATTEMPTS && v < DRAWS && 0 < c.amountPaise <= RulesFor(c.rail).capPaise
    requires v as real / DRAWS as real < ProbabilityAt(w, c, n, BaselineSlot(c.dueDate, n))
    ensures BaselineFrom(Setup(w, OnlyAttempt(n, v), seed), c, used).recovered
    decreases n - used
  {
    var at := BaselineSlot(c.dueDate, used + 1);
    if used + 1 == n {
      AttemptWins(w, c, n, v, seed, at);
    } else {
      OtherAttemptsFail(w, c, n, v, used + 1, seed, at);
      BaselineReaches(w, c, n, v, seed, used + 1);
    }
  }

  /** The exact condition for the baseline, for every world and due date: only its last attempt,
      seven days on and just outside the oracle's window, can escape the oracle. */
  lemma OracleDominatesBaselineIff(w: World, c: CycleSpec, seed: int)
    ensures DominatesBaseline(w, c, seed) <==> AtLeastAsGood(w, c, 4, c.dueDate + 7 * DAY)
  {
    hide Baseline, Oracle, OracleSlot, ProbabilityAt;
    var last := BaselineSlot(c.dueDate, 4);
    if AtLeastAsGood(w, c, 4, last) {
      forall hash: DrawHash
        ensures Baseline(Setup(w, hash, seed), c).recovered ==> Oracle(Setup(w, hash, seed), c).recovered
      {
        BaselineSeen(Setup(w, hash, seed), c);
      }
    } else {
      var v := DrawBetweenSlots(w, c, 4, OracleSlot(w, c, 4), last);
      var hash := OnlyAttempt(4, v);
      BaselineSeparates(w, c, v, seed);
      assert !(Baseline(Setup(w, hash, seed), c).recovered ==> Oracle(Setup(w, hash, seed), c).recovered);
    }
  }

  lemma BaselineSeen(e: Setup, c: CycleSpec)
    requires AtLeastAsGood(e.world, c, 4, BaselineSlot(c.dueDate, 4))
    ensures Baseline(e, c).recovered ==> Oracle(e, c).recovered
  {
    BaselineRecoveryFrom(e, c, START);
    var r := Baseline(e, c);
    if r.recovered {
      if r.attemptsUsed < 4 {
        EarlyBaselineIsOnTheGrid(e.world, c, r.attemptsUsed);
      }
      AttemptDominated(e, c, r.attemptsUsed, BaselineSlot(c.dueDate, r.attemptsUsed));
    }
  }

  lemma BaselineSeparates(w: World, c: CycleSpec, v: nat, seed: int)
    requires v < DRAWS && 0 < c.amountPaise <= RulesFor(c.rail).capPaise
    requires ProbabilityAt(w, c, 4, OracleSlot(w, c, 4)) <= v as real / DRAWS as real
    requires v as real / DRAWS as real < ProbabilityAt(w, c, 4, BaselineSlot(c.dueDate, 4))
    ensures Baseline(Setup(w, OnlyAttempt(4, v), seed), c).recovered
    ensures !Oracle(Setup(w, OnlyAttempt(4, v), seed), c).recovered
  {
    BaselineReaches(w, c, 4, v, seed, START);
    OracleLoses(w, c, 4, v, seed);
  }

  /** A customer whose money is gone from `due` on. */
  function Spender(due: Time): Customer {
    Customer([BalancePoint(due - DAY, 200), BalancePoint(due, 0)], 0, 0, 0)
  }

  lemma SpenderBalance(due: Time, t: Time)
    requires t >= due - DAY
    ensures BalanceOf(Spender(due), t) == if t < due then 200 else 0
  {
    PointsReachedIs(Spender(due).timeline, t, if t < due then 1 else 2);
  }

  /** Not every world does: a customer whose money is gone when the oracle's search begins, at
      05:30, was still good for a debit at the preferred hour, 03:00 that day. */
  lemma OracleMissesEarlyMoney(due: Time, seed: int) returns (w: World, c: CycleSpec)
    requires due % DAY == 0
    ensures c.dueDate == due && !Dominates(w, c, Some(3), seed)
  {
    w, c := World(map["c" := Spender(due)], map[], id => 0), CycleSpec("c", UpiAutopay, 100, due);
    NothingOnTheGrid(w, c);
    MoneyBefore(w, c);
    assert !AtLeastAsGood(w, c, 1, SystemSlot(due, Some(3), 1));
    OracleDominatesIff(w, c, Some(3), seed);
  }

  lemma NothingOnTheGrid(w: World, c: CycleSpec)
    requires CustomerOf(w, c.id) == Spender(c.dueDate) && c.amountPaise == 100
    ensures ProbabilityAt(w, c, 1, OracleSlot(w, c, 1)) == 0.0
  {
    SearchIsBest(w, c, 1);
    var t := OracleSlot(w, c, 1);
    SpenderBalance(c.dueDate, t);
    assert !Payable(ConditionsAt(w, c, 1, t));
  }

  lemma MoneyBefore(w: World, c: CycleSpec)
    requires CustomerOf(w, c.id) == Spender(c.dueDate) && c.amountPaise == 100 && c.dueDate % DAY == 0
    ensures ProbabilityAt(w, c, 1, SystemSlot(c.dueDate, Some(3), 1)) > 0.0
  {
    var t := SystemSlot(c.dueDate, Some(3), 1);
    EarlySlot(c.dueDate);
    SpenderBalance(c.dueDate, t);
    SystemSlotUnblocked(c.dueDate, Some(3), 1);
    assert Payable(ConditionsAt(w, c, 1, t));
  }

  lemma EarlySlot(due: Time)
    requires due % DAY == 0
    ensures SystemSlot(due, Some(3), 1) == due - 2 * HOUR - 30 * MINUTE
  {
    DueClock(due, 0);
    SplitsIntoDayAndClock(due);
    DateReadsBack(IstDay(due), 3 * HOUR);
  }
}
