/** internal/provider/outcome.go and world.go: how the simulated bank decides a debit. The draw
    depends on seed, cycle and attempt number alone, through a hash left as a parameter;
    probabilities are real numbers. */
module OutcomeModel {
  import opened Domain
  import opened Slots
  import opened Calendar

  /** Hash64 and hashString: any functions; their values count modulo 2^64. */
  type DrawHash = (int, string, int) -> nat
  type NameHash = string -> nat

  const WORD := 0x1_0000_0000_0000_0000
  const DRAWS := 0x20_0000_0000_0000

  /** The top 53 of 64 bits as a fraction. */
  function DrawOf(v: nat): (d: real)
    ensures 0.0 <= d < 1.0
  {
    (v % WORD / 2048) as real / DRAWS as real
  }

  datatype RailRules = RailRules(capPaise: int, bouncePaise: int, baseSuccess: real, insufficient: FailureCode,
                                 overLimit: FailureCode, windowDecline: FailureCode, transient: seq<FailureCode>)

  function RulesFor(rail: Rail): (r: RailRules)
    ensures |r.transient| == 2
  {
    match rail
    case UpiAutopay =>
      RailRules(1_500_000, 0, 0.88, InsufficientFunds, AmountExceedsLimit, TechnicalDecline,
        [PspUnavailable, PayerAuthPending])
    case Enach =>
      RailRules(10_000_000, 29_500, 0.78, InsufficientFunds, AmountExceedsLimit, TechnicalDecline,
        [BankUnreachable, AccountFrozen])
  }

  /** The conditions of one debit of the simulation, in which no mandate is revoked. */
  datatype Conditions = Conditions(attemptNumber: int, rail: Rail, amountPaise: int, balancePaise: int, firedAt: Time)

  function Power(x: real, k: nat): real {
    if k == 0 then 1.0 else x * Power(x, k - 1)
  }

  /** The debit is possible at all: unblocked, within the cap, covered. */
  predicate Payable(c: Conditions) {
    && !Blocked(c.firedAt)
    && 0 < c.amountPaise <= RulesFor(c.rail).capPaise
    && c.balancePaise >= c.amountPaise
  }

  function Headroom(c: Conditions): real
    requires c.amountPaise > 0
  {
    c.balancePaise as real / c.amountPaise as real
  }

  function SuccessProbability(c: Conditions): (p: real)
    ensures 0.0 <= p <= 0.98
    ensures p > 0.0 <==> Payable(c)
  {
    if Blocked(c.firedAt) then 0.0
    else if c.amountPaise <= 0 || c.amountPaise > RulesFor(c.rail).capPaise then 0.0
    else if c.balancePaise < c.amountPaise then 0.0
    else
      var base := RulesFor(c.rail).baseSuccess;
      var p := if Headroom(c) >= 2.0 then base + 0.05 else if Headroom(c) < 1.2 then base - 0.15 else base;
      var q := if c.attemptNumber > 1 then p * Power(0.95, c.attemptNumber - 1) else p;
      var floored := if q > 0.05 then q else 0.05;
      if floored < 0.98 then floored else 0.98
  }

  datatype Decision = Debited | Refused(code: FailureCode)

  /** Decide. `v` is the hash of seed, cycle and attempt number. */
  function Decide(c: Conditions, v: nat): Decision {
    var rules := RulesFor(c.rail);
    if Blocked(c.firedAt) then Refused(rules.windowDecline)
    else if c.amountPaise <= 0 || c.amountPaise > rules.capPaise then Refused(rules.overLimit)
    else if c.balancePaise < c.amountPaise then Refused(rules.insufficient)
    else if DrawOf(v) < SuccessProbability(c) then Debited
    else Refused(rules.transient[v % 2048 % |rules.transient|])
  }

  /** A debit succeeds exactly when its draw falls below its probability; a debit that is not
      possible never does. */
  lemma DebitedIffDrawBelow(c: Conditions, v: nat)
    ensures Decide(c, v) == Debited <==> DrawOf(v) < SuccessProbability(c)
  {
  }

  /** With the same draw, whatever is at least as probable succeeds too. */
  lemma BetterOddsStillSucceed(c: Conditions, d: Conditions, v: nat)
    requires Decide(c, v) == Debited && SuccessProbability(c) <= SuccessProbability(d)
    ensures Decide(d, v) == Debited
  {
    DebitedIffDrawBelow(c, v);
    DebitedIffDrawBelow(d, v);
  }

  // ---------------------------------------------------------------------------------------
  // Balances

  datatype BalancePoint = BalancePoint(from: Time, balancePaise: int)

  datatype Customer = Customer(timeline: seq<BalancePoint>, payday: int, lowPaise: int, highPaise: int)

  function DayOfMonth(istDay: int): nat {
    CivilOf(istDay).day
  }

  /** The points before the first one that lies in the future. */
  function PointsReached(timeline: seq<BalancePoint>, t: Time): (n: nat)
    ensures n <= |timeline|
  {
    if timeline == [] || timeline[0].from > t then 0 else 1 + PointsReached(timeline[1..], t)
  }

  function BalanceOf(c: Customer, t: Time): int {
    if c.timeline != [] then
      var n := PointsReached(c.timeline, t);
      if n == 0 then c.timeline[0].balancePaise else c.timeline[n - 1].balancePaise
    else if c.payday == 0 then 0
    else if DayOfMonth(IstDay(t)) >= c.payday then c.highPaise
    else c.lowPaise
  }

  lemma {:induction false} PointsReachedIs(timeline: seq<BalancePoint>, t: Time, n: nat)
    requires n <= |timeline| && (forall i | 0 <= i < n :: timeline[i].from <= t)
    requires n < |timeline| ==> timeline[n].from > t
    ensures PointsReached(timeline, t) == n
  {
    if n > 0 {
      PointsReachedIs(timeline[1..], t, n - 1);
    }
  }

  /** Customer.BalanceAt: the scan that stops at the first point in the future. */
  method BalanceAt(c: Customer, t: Time) returns (balance: int)
    ensures balance == BalanceOf(c, t)
  {
    if |c.timeline| > 0 {
      balance := c.timeline[0].balancePaise;
      var i := 0;
      while i < |c.timeline|
        invariant 0 <= i <= |c.timeline|
        invariant forall j | 0 <= j < i :: c.timeline[j].from <= t
        invariant balance == c.timeline[if i == 0 then 0 else i - 1].balancePaise
      {
        if c.timeline[i].from > t {
          break;
        }
        balance := c.timeline[i].balancePaise;
        i := i + 1;
      }
      PointsReachedIs(c.timeline, t, i);
      return;
    }
    if c.payday == 0 {
      return 0;
    }
    if DayOfMonth(IstDay(t)) >= c.payday {
      return c.highPaise;
    }
    return c.lowPaise;
  }

  /** The balance changes at Indian midnight only. Customers without a timeline are of this kind. */
  predicate ChangesAtMidnight(c: Customer) {
    forall i | 0 <= i < |c.timeline| :: IstClock(c.timeline[i].from) == 0
  }

  lemma {:induction false} SameDaySamePoints(timeline: seq<BalancePoint>, t: Time, u: Time)
    requires forall i | 0 <= i < |timeline| :: IstClock(timeline[i].from) == 0
    requires IstDay(t) == IstDay(u)
    ensures PointsReached(timeline, t) == PointsReached(timeline, u)
  {
    if timeline != [] {
      SameDaySamePoints(timeline[1..], t, u);
      MidnightIsPassedByDay(timeline[0].from, t);
      MidnightIsPassedByDay(timeline[0].from, u);
    }
  }

  lemma MidnightIsPassedByDay(midnight: Time, t: Time)
    requires IstClock(midnight) == 0
    ensures midnight > t <==> IstDay(midnight) > IstDay(t)
  {
    SplitsIntoDayAndClock(midnight);
    SplitsIntoDayAndClock(t);
  }

  /** Such a balance is a matter of the Indian day. */
  lemma BalanceIsSteadyByDay(c: Customer, t: Time, u: Time)
    requires ChangesAtMidnight(c) && IstDay(t) == IstDay(u)
    ensures BalanceOf(c, t) == BalanceOf(c, u)
  {
    SameDaySamePoints(c.timeline, t, u);
  }

  // ---------------------------------------------------------------------------------------
  // The world

  /** Fixture rows, and the hash that makes up every customer not among them. */
  datatype World = World(customers: map<string, Customer>, owners: map<string, string>, nameHash: NameHash)

  function SynthCustomer(h: nat): Customer {
    Customer([], 1 + h % WORD % 28, 10_000 + h % WORD / 0x100 % 90_000, 500_000 + h % WORD / 0x100_0000 % 2_500_000)
  }

  /** World.Customer(World.Cycle(cycle).CustomerID): a cycle without a fixture row belongs to a
      customer of its own name. */
  function CustomerOf(w: World, cycle: string): Customer {
    var id := if cycle in w.owners then w.owners[cycle] else cycle;
    if id in w.customers then w.customers[id] else SynthCustomer(w.nameHash(id))
  }

  /** A world without fixtures is steady by day for every cycle. */
  lemma SynthesisedCustomersAreSteady(w: World, cycle: string)
    requires w.customers == map[]
    ensures ChangesAtMidnight(CustomerOf(w, cycle))
  {
  }

  // ---------------------------------------------------------------------------------------
  // What the numbers are

  /** The success probability of attempts one to four, with the rails' caps and rates: five points up
      from twice the amount on, fifteen down below six fifths of it, five percent off for every
      attempt before. */
  lemma ProbabilityIs(c: Conditions)
    requires 1 <= c.attemptNumber <= 4
    ensures Payable(c) <==>
              && FreeAt(c.firedAt) && c.amountPaise > 0 && c.balancePaise >= c.amountPaise
              && c.amountPaise <= if c.rail == UpiAutopay then 1_500_000 else 10_000_000
    ensures Payable(c) ==>
              var rate := (if c.rail == UpiAutopay then 0.88 else 0.78)
                          + (if c.balancePaise >= 2 * c.amountPaise then 0.05
                             else if 5 * c.balancePaise < 6 * c.amountPaise then -0.15 else 0.0);
              var kept := if c.attemptNumber == 1 then 1.0 else if c.attemptNumber == 2 then 0.95
                          else if c.attemptNumber == 3 then 0.9025 else 0.857375;
              SuccessProbability(c) == rate * kept
  {
    WindowsAreTheClocks(c.firedAt);
    if Payable(c) {
      PowersOf95();
      HeadroomIs(c);
    }
  }

  lemma PowersOf95()
    ensures Power(0.95, 0) == 1.0 && Power(0.95, 1) == 0.95 && Power(0.95, 2) == 0.9025 && Power(0.95, 3) == 0.857375
  {
    assert Power(0.95, 1) == 0.95 * Power(0.95, 0);
    assert Power(0.95, 2) == 0.95 * Power(0.95, 1);
    assert Power(0.95, 3) == 0.95 * Power(0.95, 2);
  }

  lemma HeadroomIs(c: Conditions)
    requires c.amountPaise > 0
    ensures Headroom(c) >= 2.0 <==> c.balancePaise >= 2 * c.amountPaise
    ensures Headroom(c) < 1.2 <==> 5 * c.balancePaise < 6 * c.amountPaise
  {
    Quotient(c.amountPaise as real, c.balancePaise as real);
    Ratio(Headroom(c), c.amountPaise as real, c.balancePaise as real);
    AsReals(c.amountPaise, c.balancePaise);
  }

  lemma Quotient(a: real, b: real)
    requires a > 0.0
    ensures b / a * a == b
  {
  }

  lemma Ratio(x: real, a: real, b: real)
    requires a > 0.0 && x * a == b
    ensures x >= 2.0 <==> b >= 2.0 * a
    ensures x < 1.2 <==> 5.0 * b < 6.0 * a
  {
    Scales(x, 2.0, a, b, 2.0 * a);
    var limit := 1.2 * a;
    Scales(x, 1.2, a, b, limit);
    assert 5.0 * limit == 6.0 * a;
  }

  lemma AsReals(a: int, b: int)
    ensures b as real >= 2.0 * a as real <==> b >= 2 * a
    ensures 5.0 * b as real < 6.0 * a as real <==> 5 * b < 6 * a
  {
    assert (2 * a) as real == 2.0 * a as real;
    assert (5 * b) as real == 5.0 * b as real && (6 * a) as real == 6.0 * a as real;
  }

  lemma Scales(x: real, y: real, a: real, xa: real, ya: real)
    requires a > 0.0 && xa == x * a && ya == y * a
    ensures x < y <==> xa < ya
  {
    var d := y - x;
    assert d * a == ya - xa;
    assert (d > 0.0 ==> d * a > 0.0) && (d <= 0.0 ==> d * a <= 0.0);
  }

  /** Why a debit is refused, in the order the bank asks: the window, the amount, the balance, and
      otherwise bad luck, whose code the low bits of the hash pick. */
  lemma RefusalsAre(c: Conditions, v: nat)
    ensures var cap := if c.rail == UpiAutopay then 1_500_000 else 10_000_000;
            var d := Decide(c, v);
            && (!FreeAt(c.firedAt) ==> d == Refused(TechnicalDecline))
            && (FreeAt(c.firedAt) && !(0 < c.amountPaise <= cap) ==> d == Refused(AmountExceedsLimit))
            && (FreeAt(c.firedAt) && 0 < c.amountPaise <= cap && c.balancePaise < c.amountPaise ==>
                  d == Refused(InsufficientFunds))
            && (Payable(c) && d != Debited ==>
                  d == Refused(if c.rail == UpiAutopay then (if v % 2 == 0 then PspUnavailable else PayerAuthPending)
                               else (if v % 2 == 0 then BankUnreachable else AccountFrozen)))
  {
    WindowsAreTheClocks(c.firedAt);
    assert v % 2048 % 2 == v % 2;
  }

  // ---------------------------------------------------------------------------------------
  // Whose balance

  /** Whose balance a cycle draws on: the customer its fixture names, or the one of its own name; and
      that customer's fixture, or one made up from the name alone, with a payday from the 1st to the
      28th and always more money from then on. */
  lemma CustomerIs(w: World, cycle: string)
    ensures var id := if cycle in w.owners then w.owners[cycle] else cycle;
            var made := CustomerOf(w, cycle);
            && (id in w.customers ==> made == w.customers[id])
            && (id !in w.customers ==>
                  && made == SynthCustomer(w.nameHash(id))
                  && made.timeline == [] && 1 <= made.payday <= 28
                  && 10_000 <= made.lowPaise < 100_000 < 500_000 <= made.highPaise < 3_000_000)
  {
  }

  /** Cycles of one customer draw on one balance. */
  lemma OneCustomerOneBalance(w: World, c: string, d: string, t: Time)
    requires c in w.owners && d in w.owners && w.owners[c] == w.owners[d]
    ensures BalanceOf(CustomerOf(w, c), t) == BalanceOf(CustomerOf(w, d), t)
  {
  }
}
