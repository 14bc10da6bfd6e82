/** The whole deployment: any number of cycles that share one database clock, one bank and one
    network. Each cycle on its own takes part in a run of the single-cycle protocol, in which the
    other cycles appear only as foreign requests; so everything proved of one cycle holds of all. */
module ManyCycles {
  import opened Domain
  import opened CycleTables
  import opened Protocol
  import opened Invariant
  import opened Preservation
  import opened Safety
  import L = Ledger
  import Bank = DebitHandler

  /** What belongs to one cycle. */
  datatype Part = Part(db: Tables, procs: map<nat, Proc>, late: set<nat>, grants: seq<Grant>)

  datatype World = World(now: Time, bank: Bank.Bank, net: set<Request>, parts: map<string, Part>)

  datatype WorldAction =
    | Create(cycle: string, rail: Rail, amountPaise: int, dueDate: Time, procs: map<nat, Proc>)
    | Shared(a: Action)                 // the clock or the bank
    | Within(cycle: string, a: Action)  // a process of one cycle

  /** A cycle's view of the world. */
  function View(w: World, c: string): Sys
    requires c in w.parts
  {
    var part := w.parts[c];
    Sys(w.now, part.db, w.bank, w.net, part.procs, part.late, part.grants)
  }

  function PartOf(s: Sys): Part {
    Part(s.db, s.procs, s.late, s.grants)
  }

  predicate SharedAction(a: Action) {
    a.Tick? || a.BankStep?
  }

  predicate WorldEnabled(w: World, a: WorldAction) {
    match a
    case Create(c, _, amount, _, procs) =>
      c !in w.parts && c != "" && amount > 0 && forall p | p in procs :: procs[p] == Coded(0, 0, None)
    case Shared(Tick(to)) => w.now <= to
    case Shared(BankStep(b)) => Bank.Enabled(w.bank, w.net, b) && Bank.HandlersWellFormed(w.bank)
    case Shared(_) => false
    case Within(c, b) => c in w.parts && !SharedAction(b) && !b.OtherRequest? && Enabled(View(w, c), b)
  }

  function WorldApply(w: World, a: WorldAction): World
    requires WorldEnabled(w, a)
  {
    match a
    case Create(c, rail, amount, due, procs) =>
      w.(parts := w.parts[c := Part(Fresh(c, rail, amount, due), procs, {}, [])])
    case Shared(Tick(to)) => w.(now := to)
    case Shared(BankStep(b)) => w.(bank := Bank.Apply(w.bank, w.net, b))
    case Within(c, b) =>
      var s' := Apply(View(w, c), b);
      World(w.now, w.bank, s'.net, w.parts[c := PartOf(s')])
  }

  /** A deployment without cycles, whose bank is in order and whose network is quiet. */
  ghost predicate WorldInit(w: World) {
    w.parts == map[] && w.net == {} && Bank.Inv(w.bank, w.net)
  }

  ghost predicate WorldRuns(w: World, actions: seq<WorldAction>, v: World)
    decreases |actions|
  {
    if actions == [] then w == v
    else WorldEnabled(w, actions[0]) && WorldRuns(WorldApply(w, actions[0]), actions[1..], v)
  }

  ghost predicate WorldInv(w: World) {
    && (forall c | c in w.parts :: w.parts[c].db.cycle.id == c && Inv(View(w, c)))
    && (forall r | r in w.net :: r.cycle in w.parts)
    && Bank.Inv(w.bank, w.net)
  }

  /** How cycle d sees a step of the world: as a step of its own protocol, or not at all. */
  function Seen(w: World, a: WorldAction, d: string): Option<Action>
    requires WorldEnabled(w, a) && d in w.parts
  {
    match a
    case Create(_, _, _, _, _) => None
    case Shared(b) => Some(b)
    case Within(c, b) =>
      if c == d then Some(b)
      else if b.Send? then
        var q := View(w, c).procs[b.p];
        Some(OtherRequest(RequestFor(View(w, c), q.i, q.fence)))
      else None
  }

  /** Cycles do not interfere: every step of the world is a step of each cycle's own protocol, or
      leaves that cycle's view exactly as it was. */
  lemma StepIsSeen(w: World, a: WorldAction, d: string)
    requires WorldInv(w) && WorldEnabled(w, a) && d in w.parts
    ensures d in WorldApply(w, a).parts
    ensures var seen := Seen(w, a, d);
            if seen.None? then View(WorldApply(w, a), d) == View(w, d)
            else Enabled(View(w, d), seen.value) && View(WorldApply(w, a), d) == Apply(View(w, d), seen.value)
  {
    hide Inv, Bank.Inv, Bank.Apply, Bank.Enabled;
    if a.Within? && a.cycle != d {
      ElsewhereUnshared(View(w, a.cycle), a.a);
    } else if a.Within? {
      ElsewhereShares(View(w, d), a.a);
    }
  }

  /** A process step touches the network only by sending, and neither clock nor bank. */
  lemma ElsewhereUnshared(s: Sys, a: Action)
    requires Enabled(s, a) && !SharedAction(a) && !a.OtherRequest?
    ensures Apply(s, a).net == if a.Send? then s.net + {RequestFor(s, s.procs[a.p].i, s.procs[a.p].fence)} else s.net
    ensures Apply(s, a).db.cycle.id == s.db.cycle.id
  {
    hide Bank.Apply, Bank.Enabled;
  }

  lemma ElsewhereShares(s: Sys, a: Action)
    requires Enabled(s, a) && !SharedAction(a)
    ensures Apply(s, a).now == s.now && Apply(s, a).bank == s.bank
  {
    hide Bank.Apply, Bank.Enabled;
  }

  lemma StepKeepsWorldInv(w: World, a: WorldAction)
    requires WorldInv(w) && WorldEnabled(w, a)
    ensures WorldInv(WorldApply(w, a))
  {
    hide Inv, Bank.Inv, Bank.Apply, Bank.Enabled;
    var v := WorldApply(w, a);
    forall d | d in v.parts
      ensures v.parts[d].db.cycle.id == d && Inv(View(v, d))
    {
      if d in w.parts {
        StepIsSeen(w, a, d);
        if Seen(w, a, d).Some? {
          StepKeepsInv(View(w, d), Seen(w, a, d).value);
          if a.Within? && a.cycle == d {
            ElsewhereUnshared(View(w, d), a.a);
          }
        }
      } else {
        InitHasInv(View(v, d));
      }
    }
    SharedStays(w, a);
  }

  lemma SharedStays(w: World, a: WorldAction)
    requires WorldInv(w) && WorldEnabled(w, a)
    ensures Bank.Inv(WorldApply(w, a).bank, WorldApply(w, a).net)
    ensures forall r | r in WorldApply(w, a).net :: r.cycle in WorldApply(w, a).parts
  {
    hide Inv, Bank.Inv, Bank.Apply, Bank.Enabled;
    if a.Within? {
      ElsewhereUnshared(View(w, a.cycle), a.a);
      Bank.NetworkMayGrow(w.bank, w.net, WorldApply(w, a).net);
    } else if a.Shared? && a.a.BankStep? {
      Bank.StepKeepsInv(w.bank, w.net, a.a.a);
    }
  }

  lemma {:induction false} WorldRunKeepsInv(w: World, actions: seq<WorldAction>, v: World)
    requires WorldInv(w) && WorldRuns(w, actions, v)
    ensures WorldInv(v)
    decreases |actions|
  {
    if actions != [] {
      StepKeepsWorldInv(w, actions[0]);
      WorldRunKeepsInv(WorldApply(w, actions[0]), actions[1..], v);
    }
  }

  /** In every reachable state of the whole deployment every cycle meets the protocol's
      invariant. */
  lemma EveryCycleIsSound(w: World, actions: seq<WorldAction>, v: World, c: string)
    requires WorldInit(w) && WorldRuns(w, actions, v) && c in v.parts
    ensures v.parts[c].db.cycle.id == c && Inv(View(v, c))
  {
    WorldRunKeepsInv(w, actions, v);
  }

  /** The bank's one log, shared by all cycles, holds at most one successful debit of any cycle
      none of whose attempts was marked late, with its money moved all the same. */
  lemma AtMostOneDebitPerCycle(w: World, actions: seq<WorldAction>, v: World, a: nat, b: nat, c: string)
    returns (i: nat)
    requires WorldInit(w) && WorldRuns(w, actions, v)
    requires a < b < |v.bank.disk.log|
    requires DebitedCycle(v.bank.disk.log[a], c) && DebitedCycle(v.bank.disk.log[b], c)
    ensures c in v.parts && i in v.parts[c].late && MoneyMoved(View(v, c), i)
  {
    WorldRunKeepsInv(w, actions, v);
    L.IndexIsTheLog(v.bank.disk.log);
    var d := v.bank.disk.log[a].debit;
    assert L.DebitEntry(d) == v.bank.disk.log[a];
    assert v.bank.disk.mem.debits[d.key] == d;
    assert Bank.RequestOf(d) in v.net;
    i := TwoLogEntriesNeedALateMark(View(v, c), a, b);
  }
}
