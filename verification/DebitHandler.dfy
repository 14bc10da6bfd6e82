/** internal/provider/sim.go: the bank's debit handler as separate critical sections. Any number
    of handlers run at once; between two sections of one handler anything else may happen,
    including a restart of the bank, which drops every handler. */
module DebitHandler {
  import opened Domain
  import opened Keys
  import opened Ledger

  datatype Reply =
    | Ok(outcome: Outcome, code: Option<FailureCode>, replayed: bool)
    | StaleFence
    | IdempotencyConflict
    | MalformedRequest
    | ServerError

  /** Where one handler stands. `Decided` holds the entry it is about to commit, `Committed` the
      entry it has committed and not yet answered with. */
  datatype Handler =
    | Received(req: Request)
    | Admitted(req: Request)
    | Missed(req: Request)
    | Decided(req: Request, entry: Debit)
    | Committed(req: Request, entry: Debit)
    | Done(req: Request, reply: Reply)
    | Dropped(req: Request)

  predicate Answered(h: Handler) { h.Done? || h.Dropped? }

  /** The bank: its disk and indexes, and every handler there has ever been. */
  datatype Bank = Bank(disk: Disk, handlers: map<nat, Handler>)

  predicate WellFormed(r: Request) {
    r.cycle != "" && r.key != "" && r.amountPaise > 0 && AttemptNumberFromKey(r.cycle, r.key).Some?
  }

  function AttemptOf(r: Request): int
    requires WellFormed(r)
  {
    AttemptNumberFromKey(r.cycle, r.key).value
  }

  function HashOf(r: Request): Hash
    requires WellFormed(r)
  {
    RequestHash(r, AttemptOf(r))
  }

  /** The only outcomes `Decide` produces; a failure always names a non-empty code. */
  predicate Decision(outcome: Outcome, code: Option<FailureCode>) {
    || (outcome == Success && code == None)
    || (outcome == Failure && code.Some? && code.value != Other(""))
  }

  /** One atomic step of the bank. `Decide` carries the outcome the bank settles on and the time
      it notes; `writeOk` says whether an append to the ledger file succeeds. */
  datatype Action =
    | Accept(h: nat, req: Request)
    | Admit(h: nat, writeOk: bool)
    | LookUp(h: nat)
    | Decide(h: nat, outcome: Outcome, code: Option<FailureCode>, at: Time)
    | CommitEntry(h: nat, writeOk: bool)
    | Answer(h: nat)
    | Drop(h: nat)
    | RevokeMandate(cycle: string, writeOk: bool)
    | Restart(seed: int)
    | CrashWhileAdmitting(h: nat, seed: int)
    | CrashWhileCommitting(h: nat, seed: int)

  predicate Enabled(b: Bank, net: set<Request>, a: Action) {
    match a
    case Accept(h, req) => h !in b.handlers && req in net
    case Admit(h, _) => h in b.handlers && b.handlers[h].Received?
    case LookUp(h) => h in b.handlers && b.handlers[h].Admitted?
    case Decide(h, outcome, code, _) => h in b.handlers && b.handlers[h].Missed? && Decision(outcome, code)
    case CommitEntry(h, _) => h in b.handlers && b.handlers[h].Decided?
    case Answer(h) => h in b.handlers && b.handlers[h].Committed?
    case Drop(h) => h in b.handlers && !Answered(b.handlers[h])
    case RevokeMandate(_, _) => true
    case Restart(_) => true
    case CrashWhileAdmitting(h, _) => h in b.handlers && b.handlers[h].Received?
    case CrashWhileCommitting(h, _) => h in b.handlers && b.handlers[h].Decided?
  }

  function SetHandler(b: Bank, h: nat, state: Handler): Bank {
    b.(handlers := b.handlers[h := state])
  }

  /** A restart: the disk is what `disk` says, every unanswered handler is gone. */
  function Reboot(b: Bank, disk: Disk): Bank {
    Bank(disk, map h | h in b.handlers :: if Answered(b.handlers[h]) then b.handlers[h] else Dropped(b.handlers[h].req))
  }

  function AfterLookup(req: Request, found: Option<Debit>): Handler
    requires WellFormed(req)
  {
    match found
    case None => Missed(req)
    case Some(prior) => Done(req, ReplayReply(req, prior))
  }

  /** The answer for a key that already has an entry. */
  function ReplayReply(req: Request, prior: Debit): Reply
    requires WellFormed(req)
  {
    if prior.hash != HashOf(req) then IdempotencyConflict else Ok(prior.outcome, prior.code, true)
  }

  function NewEntry(req: Request, outcome: Outcome, code: Option<FailureCode>, at: Time): Debit
    requires WellFormed(req)
  {
    Debit(req.key, HashOf(req), req.cycle, AttemptOf(req), req.fence, outcome, code, req.amountPaise, at)
  }

  /** Every handler past validation works on a well-formed request. */
  predicate HandlersWellFormed(b: Bank) {
    forall h | h in b.handlers ::
      b.handlers[h].Done? || b.handlers[h].Dropped? || WellFormed(b.handlers[h].req)
  }

  function Apply(b: Bank, net: set<Request>, a: Action): Bank
    requires Enabled(b, net, a) && HandlersWellFormed(b)
  {
    match a
    case Accept(h, req) =>
      SetHandler(b, h, if WellFormed(req) then Received(req) else Done(req, MalformedRequest))
    case Admit(h, writeOk) =>
      var req := b.handlers[h].req;
      var (disk, admission) := AdmitFence(b.disk, req.cycle, req.fence, writeOk);
      SetHandler(b.(disk := disk), h,
                 if admission.failed then Done(req, ServerError)
                 else if !admission.admitted then Done(req, StaleFence)
                 else Admitted(req))
    case LookUp(h) =>
      var req := b.handlers[h].req;
      var found := if req.key in b.disk.mem.debits then Some(b.disk.mem.debits[req.key]) else None;
      SetHandler(b, h, AfterLookup(req, found))
    case Decide(h, outcome, code, at) =>
      var req := b.handlers[h].req;
      SetHandler(b, h, Decided(req, NewEntry(req, outcome, code, at)))
    case CommitEntry(h, writeOk) =>
      var req := b.handlers[h].req;
      var (disk, commitment) := Commit(b.disk, b.handlers[h].entry, writeOk);
      SetHandler(b.(disk := disk), h,
                 if commitment.failed then Done(req, ServerError)
                 else if commitment.raced then Done(req, ReplayReply(req, commitment.stored))
                 else Committed(req, commitment.stored))
    case Answer(h) =>
      var e := b.handlers[h].entry;
      SetHandler(b, h, Done(b.handlers[h].req, Ok(e.outcome, e.code, false)))
    case Drop(h) => SetHandler(b, h, Dropped(b.handlers[h].req))
    case RevokeMandate(cycle, writeOk) => b.(disk := Revoke(b.disk, cycle, writeOk))
    case Restart(seed) => Reboot(b, RunOp(b.disk, OpRestart, seed))
    case CrashWhileAdmitting(h, seed) =>
      var req := b.handlers[h].req;
      Reboot(b, RunOp(b.disk, OpCrashInAdmit(req.cycle, req.fence), seed))
    case CrashWhileCommitting(h, seed) =>
      Reboot(b, RunOp(b.disk, OpCrashInCommit(b.handlers[h].entry), seed))
  }

  // ---------------------------------------------------------------------------------------
  // The invariant of the bank

  /** The request a ledger entry answers, read back from the entry. */
  function RequestOf(d: Debit): Request {
    Request(d.cycle, d.key, d.fence, d.amountPaise, d.hash.rail)
  }

  /** An entry is well-formed when it is exactly what its request makes of it. */
  predicate EntryOk(d: Debit) {
    && WellFormed(RequestOf(d))
    && Decision(d.outcome, d.code)
    && d == NewEntry(RequestOf(d), d.outcome, d.code, d.at)
  }

  /** The ledger holds an entry for this request's key that agrees with the reply. */
  predicate Backed(m: Mem, req: Request, outcome: Outcome, code: Option<FailureCode>) {
    && WellFormed(req)
    && req.key in m.debits
    && m.debits[req.key].outcome == outcome
    && m.debits[req.key].code == code
    && m.debits[req.key].hash == HashOf(req)
  }

  predicate HandlerOk(m: Mem, net: set<Request>, h: Handler) {
    && h.req in net
    && (h.Decided? ==> EntryOk(h.entry) && RequestOf(h.entry) == h.req)
    && (h.Committed? ==> Backed(m, h.req, h.entry.outcome, h.entry.code))
    && (h.Done? && h.reply.Ok? ==> Backed(m, h.req, h.reply.outcome, h.reply.code))
  }

  /** This handler committed the key's entry itself, and has answered or may yet answer so. */
  predicate Author(h: Handler, key: string) {
    && h.req.key == key
    && (h.Committed? || (h.Done? && h.reply.Ok? && !h.reply.replayed))
  }

  ghost predicate AuthorsUnique(b: Bank) {
    forall h1, h2 | h1 in b.handlers && h2 in b.handlers && Author(b.handlers[h1], b.handlers[h2].req.key)
                    && Author(b.handlers[h2], b.handlers[h2].req.key) :: h1 == h2
  }

  /** Some request carried this fence for this cycle. */
  ghost predicate Heard(net: set<Request>, cycle: string, fence: int) {
    exists r :: r in net && r.cycle == cycle && r.fence == fence
  }

  ghost predicate EntriesOk(m: Mem, net: set<Request>) {
    && (forall k | k in m.debits :: m.debits[k].key == k && EntryOk(m.debits[k]) && RequestOf(m.debits[k]) in net)
    && (forall c | c in m.fences :: m.fences[c] > 0 && Heard(net, c, m.fences[c]))
  }

  ghost predicate Inv(b: Bank, net: set<Request>) {
    && Sound(b.disk)
    && EntriesOk(b.disk.mem, net)
    && HandlersWellFormed(b)
    && (forall h | h in b.handlers :: HandlerOk(b.disk.mem, net, b.handlers[h]))
    && AuthorsUnique(b)
  }

  lemma HandlerOkIsStable(m: Mem, m': Mem, net: set<Request>, net': set<Request>, h: Handler)
    requires HandlerOk(m, net, h) && Grows(m, m') && net <= net'
    ensures HandlerOk(m', net', h)
  {
  }

  /** What a step does to the disk, in terms of whole ledger operations. */
  function DiskOp(b: Bank, net: set<Request>, a: Action): Option<Op>
    requires Enabled(b, net, a)
  {
    match a
    case Admit(h, ok) => Some(OpAdmit(b.handlers[h].req.cycle, b.handlers[h].req.fence, ok))
    case CommitEntry(h, ok) => Some(OpCommit(b.handlers[h].entry, ok))
    case RevokeMandate(c, ok) => Some(OpRevoke(c, ok))
    case Restart(_) => Some(OpRestart)
    case CrashWhileAdmitting(h, _) => Some(OpCrashInAdmit(b.handlers[h].req.cycle, b.handlers[h].req.fence))
    case CrashWhileCommitting(h, _) => Some(OpCrashInCommit(b.handlers[h].entry))
    case _ => None
  }

  lemma StepRunsItsDiskOp(b: Bank, net: set<Request>, a: Action)
    requires Inv(b, net) && Enabled(b, net, a)
    ensures var op := DiskOp(b, net, a);
            var seed := if a.Restart? || a.CrashWhileAdmitting? || a.CrashWhileCommitting? then a.seed else 0;
            Apply(b, net, a).disk == if op.None? then b.disk else RunOp(b.disk, op.value, seed)
    ensures Sound(Apply(b, net, a).disk)
    ensures Grows(b.disk.mem, Apply(b, net, a).disk.mem)
    ensures IsPrefix(b.disk.log, Apply(b, net, a).disk.log)
  {
    var op := DiskOp(b, net, a);
    var seed := if a.Restart? || a.CrashWhileAdmitting? || a.CrashWhileCommitting? then a.seed else 0;
    if op.Some? {
      CrashAfterWriteIsACrashAfterwards(b.disk, op.value, seed);
    }
  }

  lemma StepKeepsEntriesOk(b: Bank, net: set<Request>, a: Action)
    requires Inv(b, net) && Enabled(b, net, a)
    ensures EntriesOk(Apply(b, net, a).disk.mem, net)
  {
    StepRunsItsDiskOp(b, net, a);
    var op := DiskOp(b, net, a);
    if op.Some? {
      match op.value
      case OpAdmit(c, f, ok) => AdmitKeepsEntriesOk(b, net, a.h, ok);
      case OpCommit(e, ok) => CommitKeepsEntriesOk(b, net, a.h, ok);
      case OpCrashInAdmit(c, f) =>
        CrashAfterWriteIsACrashAfterwards(b.disk, op.value, a.seed);
        AdmitKeepsEntriesOk(b, net, a.h, true);
      case OpCrashInCommit(e) =>
        CrashAfterWriteIsACrashAfterwards(b.disk, op.value, a.seed);
        CommitKeepsEntriesOk(b, net, a.h, true);
      case OpRestart => ReopenRestores(b.disk, a.seed);
      case _ =>
    }
  }

  lemma AdmitKeepsEntriesOk(b: Bank, net: set<Request>, h: nat, writeOk: bool)
    requires Inv(b, net) && h in b.handlers && b.handlers[h].Received?
    ensures EntriesOk(AdmitFence(b.disk, b.handlers[h].req.cycle, b.handlers[h].req.fence, writeOk).0.mem, net)
  {
    var r := b.handlers[h].req;
    assert HandlerOk(b.disk.mem, net, b.handlers[h]);
    assert Heard(net, r.cycle, r.fence);
    if r.cycle in b.disk.mem.fences {
      assert b.disk.mem.fences[r.cycle] > 0;
    }
  }

  lemma CommitKeepsEntriesOk(b: Bank, net: set<Request>, h: nat, writeOk: bool)
    requires Inv(b, net) && h in b.handlers && b.handlers[h].Decided?
    ensures EntriesOk(Commit(b.disk, b.handlers[h].entry, writeOk).0.mem, net)
  {
    assert HandlerOk(b.disk.mem, net, b.handlers[h]);
  }

  lemma StepKeepsHandlersOk(b: Bank, net: set<Request>, a: Action)
    requires Inv(b, net) && Enabled(b, net, a)
    ensures HandlersWellFormed(Apply(b, net, a))
    ensures var b' := Apply(b, net, a);
            forall h | h in b'.handlers :: HandlerOk(b'.disk.mem, net, b'.handlers[h])
  {
    var b' := Apply(b, net, a);
    StepRunsItsDiskOp(b, net, a);
    forall h | h in b'.handlers
      ensures HandlerOk(b'.disk.mem, net, b'.handlers[h])
    {
      StepKeepsHandlerOk(b, net, a, h);
    }
  }

  lemma StepKeepsHandlerOk(b: Bank, net: set<Request>, a: Action, h: nat)
    requires Inv(b, net) && Enabled(b, net, a) && h in Apply(b, net, a).handlers
    ensures HandlerOk(Apply(b, net, a).disk.mem, net, Apply(b, net, a).handlers[h])
  {
    hide AuthorsUnique, EntriesOk, Sound;
    StepRunsItsDiskOp(b, net, a);
    if h in b.handlers {
      HandlerOkIsStable(b.disk.mem, Apply(b, net, a).disk.mem, net, net, b.handlers[h]);
    }
  }

  /** A handler that is an author after a step was one before, or committed the entry just now. */
  lemma StepKeepsAuthorsUnique(b: Bank, net: set<Request>, a: Action)
    requires Inv(b, net) && Enabled(b, net, a)
    ensures AuthorsUnique(Apply(b, net, a))
  {
    var b' := Apply(b, net, a);
    forall h1, h2 | h1 in b'.handlers && h2 in b'.handlers && Author(b'.handlers[h1], b'.handlers[h2].req.key)
                    && Author(b'.handlers[h2], b'.handlers[h2].req.key)
      ensures h1 == h2
    {
      AuthorHasEntry(b, net, a, h1);
      AuthorHasEntry(b, net, a, h2);
    }
  }

  lemma AuthorHasEntry(b: Bank, net: set<Request>, a: Action, h: nat)
    requires Inv(b, net) && Enabled(b, net, a)
    requires h in Apply(b, net, a).handlers
    ensures var b' := Apply(b, net, a);
            var key := b'.handlers[h].req.key;
            Author(b'.handlers[h], key) ==>
              || (h in b.handlers && b.handlers[h].req.key == key && Author(b.handlers[h], key)
                && key in b.disk.mem.debits)
              || (a == CommitEntry(h, true) && key !in b.disk.mem.debits && b.handlers[h].req.key == key)
  {
    if h in b.handlers {
      assert HandlerOk(b.disk.mem, net, b.handlers[h]);
      NewAuthor(b, net, a, h);
    }
  }

  /** A handler becomes the author of an entry only by committing it under a free key. */
  lemma NewAuthor(b: Bank, net: set<Request>, a: Action, h: nat)
    requires Enabled(b, net, a) && HandlersWellFormed(b) && h in b.handlers && HandlerOk(b.disk.mem, net, b.handlers[h])
    ensures var b' := Apply(b, net, a);
            var key := b.handlers[h].req.key;
            && h in b'.handlers && b'.handlers[h].req.key == key
            && (Author(b'.handlers[h], key) ==>
                  || (Author(b.handlers[h], key) && key in b.disk.mem.debits)
                  || (a == CommitEntry(h, true) && key !in b.disk.mem.debits))
  {
    hide EntryOk, NewEntry, HashOf, WellFormed, Decision, Reopen, RunOp, AdmitFence, Revoke;
  }

  /** Every step of the bank keeps its invariant. */
  lemma StepKeepsInv(b: Bank, net: set<Request>, a: Action)
    requires Inv(b, net) && Enabled(b, net, a)
    ensures Inv(Apply(b, net, a), net)
  {
    StepRunsItsDiskOp(b, net, a);
    StepKeepsEntriesOk(b, net, a);
    StepKeepsHandlersOk(b, net, a);
    StepKeepsAuthorsUnique(b, net, a);
  }

  /** More requests on the network do not disturb the bank. */
  lemma NetworkMayGrow(b: Bank, net: set<Request>, net': set<Request>)
    requires Inv(b, net) && net <= net'
    ensures Inv(b, net')
  {
    forall c | c in b.disk.mem.fences
      ensures Heard(net', c, b.disk.mem.fences[c])
    {
      var r :| r in net && r.cycle == c && r.fence == b.disk.mem.fences[c];
      assert r in net';
    }
  }

  // ---------------------------------------------------------------------------------------
  // Runs of the bank

  /** A bank run: every state follows from the one before by an enabled step. */
  ghost predicate Run(states: seq<Bank>, actions: seq<Action>, net: set<Request>) {
    && |states| == |actions| + 1
    && Inv(states[0], net)
    && forall i | 0 <= i < |actions| ::
         && Enabled(states[i], net, actions[i])
         && HandlersWellFormed(states[i])
         && states[i + 1] == Apply(states[i], net, actions[i])
  }

  lemma {:induction false} RunKeepsInv(states: seq<Bank>, actions: seq<Action>, net: set<Request>, k: nat)
    requires Run(states, actions, net) && k < |states|
    ensures Inv(states[k], net)
  {
    if k > 0 {
      RunKeepsInv(states, actions, net, k - 1);
      StepKeepsInv(states[k - 1], net, actions[k - 1]);
    }
  }

  lemma {:induction false} RunOnlyGrows(states: seq<Bank>, actions: seq<Action>, net: set<Request>, j: nat, k: nat)
    requires Run(states, actions, net) && j <= k < |states|
    ensures Grows(states[j].disk.mem, states[k].disk.mem)
    ensures IsPrefix(states[j].disk.log, states[k].disk.log)
  {
    if j < k {
      RunOnlyGrows(states, actions, net, j, k - 1);
      RunKeepsInv(states, actions, net, k - 1);
      StepRunsItsDiskOp(states[k - 1], net, actions[k - 1]);
      var l0, l1, l2 := states[j].disk.log, states[k - 1].disk.log, states[k].disk.log;
      assert l2[..|l0|] == l2[..|l1|][..|l0|];
    }
  }

  /** Under any interleaving of handlers, drops, restarts and crashes: a key has at most one
      entry in the log; every 200 reply carries that entry's outcome, matches its request hash
      and keeps doing so for the rest of the run; at most one such reply says it is not a replay. */
  lemma RepliesAgreeWithTheLedger(states: seq<Bank>, actions: seq<Action>, net: set<Request>, j: nat, k: nat, h: nat)
    requires Run(states, actions, net) && j <= k < |states|
    requires h in states[j].handlers && states[j].handlers[h].Done? && states[j].handlers[h].reply.Ok?
    ensures OneEntryPerKey(states[k].disk.log)
    ensures var req, reply := states[j].handlers[h].req, states[j].handlers[h].reply;
            && WellFormed(req)
            && exists d :: DebitEntry(d) in states[k].disk.log && d.key == req.key
                           && d.outcome == reply.outcome && d.code == reply.code && d.hash == HashOf(req)
    ensures forall g | g in states[j].handlers && states[j].handlers[g].Done?
                       && states[j].handlers[g].reply.Ok?
                       && states[j].handlers[g].req.key == states[j].handlers[h].req.key
                       && !states[j].handlers[g].reply.replayed && !states[j].handlers[h].reply.replayed :: g == h
  {
    RunKeepsInv(states, actions, net, j);
    RunKeepsInv(states, actions, net, k);
    RunOnlyGrows(states, actions, net, j, k);
    var req := states[j].handlers[h].req;
    assert HandlerOk(states[j].disk.mem, net, states[j].handlers[h]);
    var d := states[k].disk.mem.debits[req.key];
    IndexIsTheLog(states[k].disk.log);
    assert d.key == req.key;
    assert DebitEntry(d) in states[k].disk.log;
  }

  /** The fence gate: a request is refused as stale exactly when its fence is below the highest
      fence any admitted request of its cycle has carried. */
  lemma StaleExactlyBelowTheMark(b: Bank, net: set<Request>, h: nat, writeOk: bool)
    requires Inv(b, net) && Enabled(b, net, Admit(h, writeOk))
    ensures var r := b.handlers[h].req;
            var b' := Apply(b, net, Admit(h, writeOk));
            && (b'.handlers[h] == Done(r, StaleFence) <==> r.fence < Highest(b.disk.mem, r.cycle))
            && (b'.handlers[h] == Admitted(r) ==> Highest(b'.disk.mem, r.cycle) == r.fence)
            && (b'.handlers[h] == Done(r, ServerError) <==> r.fence > Highest(b.disk.mem, r.cycle) && !writeOk)
  {
  }

  // ---------------------------------------------------------------------------------------
  // What a duplicate is answered

  /** The log entry was made for the same cycle, attempt number, amount and rail. */
  predicate SameDebit(d: Debit, req: Request) {
    && d.cycle == req.cycle && AttemptNumberFromKey(req.cycle, req.key) == Some(d.attempt)
    && d.amountPaise == req.amountPaise && d.hash.rail == req.rail
  }

  /** The answer a duplicate is owed: the entry's outcome, as a replay, for the same debit; a conflict
      for a different one under the same key. */
  ghost predicate AnsweredFromLog(log: seq<Entry>, after: Handler, req: Request) {
    forall d: Debit | DebitEntry(d) in log && d.key == req.key ::
      after == if SameDebit(d, req) then Done(req, Ok(d.outcome, d.code, true)) else Done(req, IdempotencyConflict)
  }

  ghost predicate KeyInLog(log: seq<Entry>, key: string) {
    exists d: Debit :: DebitEntry(d) in log && d.key == key
  }

  /** The request hash agrees exactly for the same debit. */
  lemma HashTellsDebits(d: Debit, req: Request)
    requires EntryOk(d) && WellFormed(req) && d.key == req.key
    ensures d.hash == HashOf(req) <==> SameDebit(d, req)
  {
  }

  /** Looking up a key: a duplicate is answered from the log, and the handler goes on if and only if
      the log has no entry for the key. Nothing is written. */
  lemma LookUpAnswersFromLog(b: Bank, net: set<Request>, h: nat)
    requires Inv(b, net) && Enabled(b, net, LookUp(h))
    ensures var req, after := b.handlers[h].req, Apply(b, net, LookUp(h)).handlers[h];
            && AnsweredFromLog(b.disk.log, after, req)
            && (after == Missed(req) <==> !KeyInLog(b.disk.log, req.key))
    ensures Apply(b, net, LookUp(h)).disk == b.disk
  {
    var req := b.handlers[h].req;
    IndexIsTheLog(b.disk.log);
    if req.key in b.disk.mem.debits {
      EntryInLog(b, net, req);
    }
  }

  /** Committing: on a key taken meanwhile the answer is again the log's and nothing is written; on a
      free key the entry decided is appended, or the write fails. */
  lemma CommitAnswersFromLog(b: Bank, net: set<Request>, h: nat, writeOk: bool)
    requires Inv(b, net) && Enabled(b, net, CommitEntry(h, writeOk))
    ensures var req, entry, b' := b.handlers[h].req, b.handlers[h].entry, Apply(b, net, CommitEntry(h, writeOk));
            && AnsweredFromLog(b.disk.log, b'.handlers[h], req)
            && (KeyInLog(b.disk.log, req.key) ==> b'.disk == b.disk)
            && (!KeyInLog(b.disk.log, req.key) ==>
                  if writeOk
                  then b'.handlers[h] == Committed(req, entry) && b'.disk.log == b.disk.log + [DebitEntry(entry)]
                  else b'.handlers[h] == Done(req, ServerError) && b'.disk == b.disk)
  {
    var req := b.handlers[h].req;
    assert HandlerOk(b.disk.mem, net, b.handlers[h]);
    IndexIsTheLog(b.disk.log);
    if req.key in b.disk.mem.debits {
      EntryInLog(b, net, req);
    }
  }

  /** The one entry a taken key has. */
  lemma EntryInLog(b: Bank, net: set<Request>, req: Request)
    requires Inv(b, net) && req.key in b.disk.mem.debits && WellFormed(req)
    ensures var d := b.disk.mem.debits[req.key];
            && d.key == req.key && DebitEntry(d) in b.disk.log && (d.hash == HashOf(req) <==> SameDebit(d, req))
    ensures forall e: Debit | DebitEntry(e) in b.disk.log && e.key == req.key :: e == b.disk.mem.debits[req.key]
  {
    IndexIsTheLog(b.disk.log);
    HashTellsDebits(b.disk.mem.debits[req.key], req);
  }

  /** A request is taken on if its key is the printed key of one of the cycle's attempts and its
      amount positive; it is malformed for an empty cycle, a non-positive amount, or a key that does
      not begin with the cycle and a colon. */
  lemma WhatIsMalformed(b: Bank, net: set<Request>, h: nat, req: Request, n: int)
    requires Inv(b, net) && Enabled(b, net, Accept(h, req)) && 1 <= n <= INT64_MAX
    ensures var after := Apply(b, net, Accept(h, req)).handlers[h];
            && (req.cycle != "" && req.amountPaise > 0 && req.key == NewIdempotencyKey(req.cycle, n) ==>
                  after == Received(req))
            && (req.cycle == "" || req.amountPaise <= 0 || !HasPrefix(req.key, req.cycle + ":") ==>
                  after == Done(req, MalformedRequest))
  {
    AttemptNumberRoundTrip(req.cycle, n);
  }

  /** The first answer: the handler that committed an entry answers with that entry, not as a replay. */
  lemma FirstAnswerIsTheEntry(b: Bank, net: set<Request>, h: nat)
    requires Inv(b, net) && Enabled(b, net, Answer(h))
    ensures var req, after := b.handlers[h].req, Apply(b, net, Answer(h)).handlers[h];
            exists d: Debit :: DebitEntry(d) in b.disk.log && d.key == req.key
              && after == Done(req, Ok(d.outcome, d.code, false))
  {
    var req := b.handlers[h].req;
    assert HandlerOk(b.disk.mem, net, b.handlers[h]);
    IndexIsTheLog(b.disk.log);
    assert DebitEntry(b.disk.mem.debits[req.key]) in b.disk.log;
  }

  /** The entry a handler decides on is for its own request, under its own fence. */
  lemma DecidedEntryIsTheRequests(b: Bank, net: set<Request>, h: nat, outcome: Outcome, code: Option<FailureCode>,
                                  at: Time)
    requires Inv(b, net) && Enabled(b, net, Decide(h, outcome, code, at))
    ensures var req, after := b.handlers[h].req, Apply(b, net, Decide(h, outcome, code, at)).handlers[h];
            && after.Decided? && after.req == req && SameDebit(after.entry, req)
            && after.entry.key == req.key && after.entry.fence == req.fence
            && after.entry.outcome == outcome && after.entry.code == code && after.entry.at == at
  {
  }

}
