/** The ledger as the bank process holds it: a file that outlives the process and maps updated
    in place (internal/provider/ledger.go:44-205). Every method is one mutex-guarded critical
    section; each is proved equal to its function in module Ledger. */
module LedgerProcess {
  import opened Domain
  import opened Ledger

  /** The ledger file: what survives the bank process. */
  class LedgerFile {
    var lines: seq<Entry>

    constructor ()
      ensures lines == []
    {
      lines := [];
    }
  }

  datatype OpenError = SeedMismatch | WriteFailed

  datatype OpenResult = Opened(ledger: BankLedger) | NotOpened(error: OpenError)

  class BankLedger {
    const seed: int
    const file: LedgerFile
    var debits: map<string, Debit>
    var fences: map<string, int>
    var revoked: set<string>

    ghost function State(): Disk
      reads this, file
    {
      Disk(file.lines, Mem(debits, fences, revoked))
    }

    ghost predicate Valid()
      reads this, file
    {
      Sound(State())
    }

    /** A process with empty indexes, before `replay`. */
    constructor (file: LedgerFile, seed: int)
      ensures this.file == file && this.seed == seed
      ensures debits == map[] && fences == map[] && revoked == {}
    {
      this.file := file;
      this.seed := seed;
      debits, fences, revoked := map[], map[], {};
    }

    /** OpenLedger: replay the file, and write a header if nothing was found in it. */
    static method OpenLedger(file: LedgerFile, seed: int, writeOk: bool) returns (r: OpenResult)
      modifies file
      ensures r.Opened? <==>
                SeedsAgree(old(file.lines), seed) && (writeOk || Replay(old(file.lines)) != EMPTY_MEM)
      ensures r.Opened? ==>
                && fresh(r.ledger) && r.ledger.file == file && r.ledger.seed == seed
                && r.ledger.State() == Reopen(old(file.lines), seed)
                && (OneEntryPerKey(old(file.lines)) ==> r.ledger.Valid())
      ensures r.NotOpened? ==> file.lines == old(file.lines)
      ensures r.NotOpened? ==> r == NotOpened(if SeedsAgree(old(file.lines), seed) then WriteFailed else SeedMismatch)
    {
      var l := new BankLedger(file, seed);
      var agreed := l.ReplayFile();
      if !agreed {
        return NotOpened(SeedMismatch);
      }
      if |l.debits| == 0 && |l.fences| == 0 && |l.revoked| == 0 {
        if !writeOk {
          return NotOpened(WriteFailed);
        }
        ReplayAppend(file.lines, HeaderEntry(seed));
        file.lines := file.lines + [HeaderEntry(seed)];
      }
      return Opened(l);
    }

    /** `replay`: read the file line by line from the start, stopping at a foreign header. */
    method ReplayFile() returns (agreed: bool)
      requires debits == map[] && fences == map[] && revoked == {}
      modifies this
      ensures agreed <==> SeedsAgree(file.lines, seed)
      ensures agreed ==> Mem(debits, fences, revoked) == Replay(file.lines)
    {
      var line := 0;
      while line < |file.lines|
        invariant 0 <= line <= |file.lines|
        invariant SeedsAgree(file.lines[..line], seed)
        invariant Mem(debits, fences, revoked) == Replay(file.lines[..line])
      {
        var e := file.lines[line];
        assert file.lines[..line + 1] == file.lines[..line] + [e];
        ReplayAppend(file.lines[..line], e);
        match e {
          case HeaderEntry(s) =>
            if s != seed {
              return false;
            }
          case DebitEntry(d) => debits := debits[d.key := d];
          case FenceEntry(c, f) =>
            if f > (if c in fences then fences[c] else 0) {
              fences := fences[c := f];
            }
          case RevokeEntry(c) => revoked := revoked + {c};
        }
        line := line + 1;
      }
      assert file.lines[..line] == file.lines;
      return true;
    }

    method Lookup(key: string) returns (found: Option<Debit>)
      requires Valid()
      ensures found.Some? <==> exists d :: DebitEntry(d) in file.lines && d.key == key
      ensures found.Some? ==> DebitEntry(found.value) in file.lines && found.value.key == key
    {
      IndexIsTheLog(file.lines);
      if key in debits {
        ghost var d := debits[key];
        IndexKeysMatch(file.lines);
        assert DebitEntry(d) in file.lines;
        found := Some(debits[key]);
      } else {
        found := None;
      }
    }

    method AdmitFence(cycle: string, fence: int, writeOk: bool) returns (a: Admission)
      requires Valid()
      modifies this, file
      ensures Valid()
      ensures (State(), a) == Ledger.AdmitFence(old(State()), cycle, fence, writeOk)
    {
      hide Sound;
      AdmitFenceKeepsSound(State(), cycle, fence, writeOk);
      var highest := if cycle in fences then fences[cycle] else 0;
      if fence < highest {
        return Admission(highest, false, false);
      }
      if fence > highest {
        if !writeOk {
          return Admission(highest, false, true);
        }
        file.lines := file.lines + [FenceEntry(cycle, fence)];
        fences := fences[cycle := fence];
      }
      return Admission(fence, true, false);
    }

    method RevokeMandate(cycle: string, writeOk: bool) returns (failed: bool)
      requires Valid()
      modifies this, file
      ensures Valid()
      ensures State() == Ledger.Revoke(old(State()), cycle, writeOk)
      ensures failed <==> cycle !in old(revoked) && !writeOk
      ensures !failed ==> cycle in revoked
    {
      RevokeKeepsSound(State(), cycle, writeOk);
      if cycle in revoked {
        return false;
      }
      if !writeOk {
        return true;
      }
      file.lines := file.lines + [RevokeEntry(cycle)];
      revoked := revoked + {cycle};
      return false;
    }

    method Commit(e: Debit, writeOk: bool) returns (c: Commitment)
      requires Valid()
      modifies this, file
      ensures Valid()
      ensures (State(), c) == Ledger.Commit(old(State()), e, writeOk)
    {
      CommitKeepsSound(State(), e, writeOk);
      if e.key in debits {
        return Commitment(debits[e.key], true, false);
      }
      if !writeOk {
        return Commitment(e, false, true);
      }
      file.lines := file.lines + [DebitEntry(e)];
      debits := debits[e.key := e];
      return Commitment(e, false, false);
    }
  }

  /** Reopening the file of a live ledger, whatever it has been through, gives the same indexes. */
  method Restart(l: BankLedger, writeOk: bool) returns (r: OpenResult)
    requires l.Valid() && SeedsAgree(l.file.lines, l.seed)
    modifies l.file
    ensures r.Opened? <==> writeOk || old(l.State().mem) != EMPTY_MEM
    ensures r.Opened? ==> r.ledger.Valid() && r.ledger.State().mem == old(l.State().mem)
  {
    ReopenRestores(l.State(), l.seed);
    r := BankLedger.OpenLedger(l.file, l.seed, writeOk);
  }
}
