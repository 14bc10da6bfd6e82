/** internal/provider/ledger.go: an append-only log with three in-memory indexes, rebuilt by
    replaying the log whenever the bank restarts. */
module Ledger {
  import opened Domain
  import opened Keys

  /** A debit request as it arrives at the bank. */
  datatype Request = Request(cycle: string, key: string, fence: int, amountPaise: int, rail: Rail)

  /** RequestHash, modelled as its preimage: an ideal hash without collisions. */
  datatype Hash = Hash(cycle: string, attempt: int, amountPaise: int, rail: Rail)

  function RequestHash(r: Request, attempt: int): Hash {
    Hash(r.cycle, attempt, r.amountPaise, r.rail)
  }

  datatype Debit = Debit(key: string, hash: Hash, cycle: string, attempt: int, fence: int,
                         outcome: Outcome, code: Option<FailureCode>, amountPaise: int, at: Time)

  datatype Entry =
    | HeaderEntry(seed: int)
    | DebitEntry(debit: Debit)
    | FenceEntry(cycle: string, fence: int)
    | RevokeEntry(cycle: string)

  /** The in-memory indexes. */
  datatype Mem = Mem(debits: map<string, Debit>, fences: map<string, int>, revoked: set<string>)

  const EMPTY_MEM := Mem(map[], map[], {})

  /** Reading a Go map: an absent cycle has fence zero. */
  function Highest(m: Mem, cycle: string): int {
    if cycle in m.fences then m.fences[cycle] else 0
  }

  /** One line of `replay`: a later debit overwrites an earlier one, a fence only raises the mark. */
  function ReplayEntry(m: Mem, e: Entry): Mem {
    match e
    case HeaderEntry(_) => m
    case DebitEntry(d) => m.(debits := m.debits[d.key := d])
    case FenceEntry(c, f) => if f > Highest(m, c) then m.(fences := m.fences[c := f]) else m
    case RevokeEntry(c) => m.(revoked := m.revoked + {c})
  }

  function Replay(log: seq<Entry>): Mem {
    if log == [] then EMPTY_MEM
    else ReplayEntry(Replay(log[..|log| - 1]), log[|log| - 1])
  }

  /** Every header of the file carries the configured seed. */
  predicate SeedsAgree(log: seq<Entry>, seed: int) {
    forall i | 0 <= i < |log| && log[i].HeaderEntry? :: log[i].seed == seed
  }

  /** No idempotency key has two debit entries. */
  ghost predicate OneEntryPerKey(log: seq<Entry>) {
    forall i, j | 0 <= i < j < |log| && log[i].DebitEntry? && log[j].DebitEntry? ::
      log[i].debit.key != log[j].debit.key
  }

  lemma ReplayAppend(log: seq<Entry>, e: Entry)
    ensures Replay(log + [e]) == ReplayEntry(Replay(log), e)
  {
    assert (log + [e])[..|log|] == log;
  }

  /** With one entry per key, the index holds exactly the log's debit entries, so it does not
      matter that replay keeps the last entry of a key while a running bank keeps the first. */
  lemma {:induction false} IndexIsTheLog(log: seq<Entry>)
    requires OneEntryPerKey(log)
    ensures forall d: Debit :: DebitEntry(d) in log <==> d.key in Replay(log).debits && Replay(log).debits[d.key] == d
  {
    if log != [] {
      var front, last := log[..|log| - 1], log[|log| - 1];
      assert log == front + [last];
      assert OneEntryPerKey(front) by {
        forall i, j | 0 <= i < j < |front| && front[i].DebitEntry? && front[j].DebitEntry?
          ensures front[i].debit.key != front[j].debit.key
        {
          assert log[i] == front[i] && log[j] == front[j];
        }
      }
      IndexIsTheLog(front);
      forall d: Debit
        ensures DebitEntry(d) in log <==> d.key in Replay(log).debits && Replay(log).debits[d.key] == d
      {
        assert DebitEntry(d) in log <==> DebitEntry(d) in front || DebitEntry(d) == last;
        if last.DebitEntry? && DebitEntry(d) in front {
          var i :| 0 <= i < |front| && front[i] == DebitEntry(d);
          assert log[i] == DebitEntry(d) && log[|log| - 1] == last;
        }
      }
    }
  }

  /** Every indexed debit is filed under its own key. */
  lemma {:induction false} IndexKeysMatch(log: seq<Entry>)
    ensures forall k | k in Replay(log).debits :: Replay(log).debits[k].key == k
  {
    if log != [] {
      IndexKeysMatch(log[..|log| - 1]);
    }
  }

  /** Committing an absent key keeps one entry per key. */
  lemma CommitKeepsOneEntryPerKey(log: seq<Entry>, d: Debit)
    requires OneEntryPerKey(log)
    requires d.key !in Replay(log).debits
    ensures OneEntryPerKey(log + [DebitEntry(d)])
  {
    IndexIsTheLog(log);
    var longer := log + [DebitEntry(d)];
    forall i, j | 0 <= i < j < |longer| && longer[i].DebitEntry? && longer[j].DebitEntry?
      ensures longer[i].debit.key != longer[j].debit.key
    {
      assert i < |log| && longer[i] == log[i];
      assert log[i] in log && DebitEntry(log[i].debit) == log[i];
      if j < |log| {
        assert longer[j] == log[j];
      }
    }
  }

  // ---------------------------------------------------------------------------------------
  // The operations, as functions on the file and the indexes. `writeOk` says whether the
  // append to the file succeeds; a failed append has no effect.

  datatype Disk = Disk(log: seq<Entry>, mem: Mem)

  function Append(d: Disk, e: Entry): Disk {
    Disk(d.log + [e], ReplayEntry(d.mem, e))
  }

  datatype Admission = Admission(highest: int, admitted: bool, failed: bool)

  function AdmitFence(d: Disk, cycle: string, fence: int, writeOk: bool): (Disk, Admission) {
    var highest := Highest(d.mem, cycle);
    if fence < highest then (d, Admission(highest, false, false))
    else if fence == highest then (d, Admission(fence, true, false))
    else if writeOk then (Append(d, FenceEntry(cycle, fence)), Admission(fence, true, false))
    else (d, Admission(highest, false, true))
  }

  datatype Commitment = Commitment(stored: Debit, raced: bool, failed: bool)

  function Commit(d: Disk, e: Debit, writeOk: bool): (Disk, Commitment) {
    if e.key in d.mem.debits then (d, Commitment(d.mem.debits[e.key], true, false))
    else if writeOk then (Append(d, DebitEntry(e)), Commitment(e, false, false))
    else (d, Commitment(e, false, true))
  }

  function Revoke(d: Disk, cycle: string, writeOk: bool): Disk {
    if cycle in d.mem.revoked || !writeOk then d else Append(d, RevokeEntry(cycle))
  }

  /** OpenLedger on an existing file with agreeing seeds: replay, then a header if all three
      indexes are still empty. */
  function Reopen(log: seq<Entry>, seed: int): Disk {
    var mem := Replay(log);
    if mem == EMPTY_MEM then Disk(log + [HeaderEntry(seed)], mem) else Disk(log, mem)
  }

  /** What holds of the bank's disk and memory between any two operations. */
  ghost predicate Sound(d: Disk) {
    d.mem == Replay(d.log) && OneEntryPerKey(d.log)
  }

  /** Committed debits are permanent, high-water marks never fall, revocations stay. */
  ghost predicate Grows(m: Mem, m': Mem) {
    && (forall k | k in m.debits :: k in m'.debits && m'.debits[k] == m.debits[k])
    && (forall c :: Highest(m, c) <= Highest(m', c))
    && m.revoked <= m'.revoked
  }

  lemma AdmitFenceKeepsSound(d: Disk, cycle: string, fence: int, writeOk: bool)
    requires Sound(d)
    ensures Sound(AdmitFence(d, cycle, fence, writeOk).0)
    ensures Grows(d.mem, AdmitFence(d, cycle, fence, writeOk).0.mem)
  {
    ReplayAppend(d.log, FenceEntry(cycle, fence));
  }

  lemma CommitKeepsSound(d: Disk, e: Debit, writeOk: bool)
    requires Sound(d)
    ensures Sound(Commit(d, e, writeOk).0)
    ensures Grows(d.mem, Commit(d, e, writeOk).0.mem)
  {
    ReplayAppend(d.log, DebitEntry(e));
    if e.key !in d.mem.debits {
      CommitKeepsOneEntryPerKey(d.log, e);
    }
  }

  lemma RevokeKeepsSound(d: Disk, cycle: string, writeOk: bool)
    requires Sound(d)
    ensures Sound(Revoke(d, cycle, writeOk))
    ensures Grows(d.mem, Revoke(d, cycle, writeOk).mem)
  {
    ReplayAppend(d.log, RevokeEntry(cycle));
  }

  /** A restart at any moment between operations loses nothing: the indexes come back as they were. */
  lemma ReopenRestores(d: Disk, seed: int)
    requires Sound(d)
    ensures Sound(Reopen(d.log, seed)) && Reopen(d.log, seed).mem == d.mem
    ensures Grows(d.mem, Reopen(d.log, seed).mem)
  {
    ReplayAppend(d.log, HeaderEntry(seed));
  }

  predicate IsPrefix(a: seq<Entry>, b: seq<Entry>) {
    |a| <= |b| && b[..|a|] == a
  }

  // ---------------------------------------------------------------------------------------
  // Whole lives of a ledger: operations, restarts, and crashes after the log write but before
  // the index update, in any order.

  datatype Op =
    | OpAdmit(cycle: string, fence: int, writeOk: bool)
    | OpCommit(debit: Debit, writeOk: bool)
    | OpRevoke(cycle: string, writeOk: bool)
    | OpRestart
    | OpCrashInAdmit(cycle: string, fence: int)
    | OpCrashInCommit(debit: Debit)
    | OpCrashInRevoke(cycle: string)

  /** A crash inside an operation writes the line that operation would write, if any; the
      process that comes up afterwards knows only the file. */
  function RunOp(d: Disk, op: Op, seed: int): Disk {
    match op
    case OpAdmit(c, f, ok) => AdmitFence(d, c, f, ok).0
    case OpCommit(e, ok) => Commit(d, e, ok).0
    case OpRevoke(c, ok) => Revoke(d, c, ok)
    case OpRestart => Reopen(d.log, seed)
    case OpCrashInAdmit(c, f) =>
      Reopen(if f > Highest(d.mem, c) then d.log + [FenceEntry(c, f)] else d.log, seed)
    case OpCrashInCommit(e) =>
      Reopen(if e.key !in d.mem.debits then d.log + [DebitEntry(e)] else d.log, seed)
    case OpCrashInRevoke(c) =>
      Reopen(if c !in d.mem.revoked then d.log + [RevokeEntry(c)] else d.log, seed)
  }

  function RunOps(d: Disk, ops: seq<Op>, seed: int): Disk
    decreases |ops|
  {
    if ops == [] then d else RunOps(RunOp(d, ops[0], seed), ops[1..], seed)
  }

  /** The same operation with every crash replaced by finishing the operation. */
  function Finished(op: Op): Op {
    match op
    case OpCrashInAdmit(c, f) => OpAdmit(c, f, true)
    case OpCrashInCommit(e) => OpCommit(e, true)
    case OpCrashInRevoke(c) => OpRevoke(c, true)
    case _ => op
  }

  /** A crash between the log write and the index update is indistinguishable, after the
      restart, from a crash just after the operation finished. */
  lemma CrashAfterWriteIsACrashAfterwards(d: Disk, op: Op, seed: int)
    requires Sound(d)
    ensures Sound(RunOp(d, op, seed))
    ensures RunOp(d, op, seed).mem == RunOp(d, Finished(op), seed).mem
    ensures IsPrefix(d.log, RunOp(d, op, seed).log)
    ensures Grows(d.mem, RunOp(d, op, seed).mem)
  {
    if Crashes(op) {
      FinishedKeepsSound(d, Finished(op), seed);
      CrashReopens(d, op, seed);
      ReopenRestores(RunOp(d, Finished(op), seed), seed);
    } else {
      FinishedKeepsSound(d, op, seed);
    }
  }

  predicate Crashes(op: Op) {
    op.OpCrashInAdmit? || op.OpCrashInCommit? || op.OpCrashInRevoke?
  }

  lemma FinishedKeepsSound(d: Disk, op: Op, seed: int)
    requires Sound(d) && !Crashes(op)
    ensures Sound(RunOp(d, op, seed)) && Grows(d.mem, RunOp(d, op, seed).mem) && IsPrefix(d.log, RunOp(d, op, seed).log)
  {
    match op
    case OpAdmit(c, f, ok) => AdmitFenceKeepsSound(d, c, f, ok);
    case OpCommit(e, ok) => CommitKeepsSound(d, e, ok);
    case OpRevoke(c, ok) => RevokeKeepsSound(d, c, ok);
    case OpRestart => ReopenRestores(d, seed);
  }

  /** The file left by the crash is the file the finished operation leaves. */
  lemma CrashReopens(d: Disk, op: Op, seed: int)
    requires Crashes(op)
    ensures RunOp(d, op, seed) == Reopen(RunOp(d, Finished(op), seed).log, seed)
  {
  }

  /** After any operations, restarts and crashes the indexes equal the replay of the log, no key
      has two entries, nothing written is ever lost, and every committed debit is permanent. */
  lemma {:induction false} LedgerSurvivesEverything(d: Disk, ops: seq<Op>, seed: int)
    requires Sound(d)
    ensures Sound(RunOps(d, ops, seed))
    ensures IsPrefix(d.log, RunOps(d, ops, seed).log)
    ensures Grows(d.mem, RunOps(d, ops, seed).mem)
    decreases |ops|
  {
    if ops != [] {
      var next := RunOp(d, ops[0], seed);
      CrashAfterWriteIsACrashAfterwards(d, ops[0], seed);
      LedgerSurvivesEverything(next, ops[1..], seed);
      var end := RunOps(next, ops[1..], seed);
      assert end.log[..|d.log|] == end.log[..|next.log|][..|d.log|];
    }
  }
}
