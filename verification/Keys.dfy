/** Idempotency keys (internal/domain/id.go, internal/provider/api.go): how they are printed
    from a cycle and a sequence number, and how the bank parses them back. */
module Keys {
  import opened Domain

  predicate IsDigit(c: char) {
    '0' <= c <= '9'
  }

  predicate AllDigits(s: string) {
    forall i | 0 <= i < |s| :: IsDigit(s[i])
  }

  function Digit(n: nat): char
    requires n < 10
  {
    '0' + n as char
  }

  function DigitValue(c: char): nat
    requires IsDigit(c)
  {
    (c - '0') as nat
  }

  /** Decimal digits of a natural number, as strconv.Itoa prints them. */
  function NatToString(n: nat): (s: string)
    ensures |s| > 0 && AllDigits(s)
  {
    if n < 10 then [Digit(n)] else NatToString(n / 10) + [Digit(n % 10)]
  }

  function Itoa(n: int): string {
    if n < 0 then "-" + NatToString(-n) else NatToString(n)
  }

  /** Value of a string of digits, read left to right. */
  function StringToNat(s: string): nat
    requires AllDigits(s)
  {
    if s == "" then 0 else 10 * StringToNat(s[..|s| - 1]) + DigitValue(s[|s| - 1])
  }

  const INT64_MAX: int := 0x7fff_ffff_ffff_ffff

  /** strconv.Atoi: an optional sign, at least one digit, nothing else, and a value that fits
      in 64 bits. */
  function Atoi(s: string): Option<int> {
    var signed := s != "" && (s[0] == '-' || s[0] == '+');
    var digits := if signed then s[1..] else s;
    if digits == "" || !AllDigits(digits) then None
    else
      var v: int := StringToNat(digits);
      if signed && s[0] == '-' then (if v <= INT64_MAX + 1 then Some(-v) else None)
      else if v <= INT64_MAX then Some(v) else None
  }

  /** domain.NewIdempotencyKey. */
  function NewIdempotencyKey(cycleId: string, seqNo: int): string {
    cycleId + ":" + Itoa(seqNo)
  }

  predicate HasPrefix(s: string, prefix: string) {
    |prefix| <= |s| && s[..|prefix|] == prefix
  }

  /** provider.AttemptNumberFromKey: the number after "cycleId:", if it is at least 1. */
  function AttemptNumberFromKey(cycleId: string, key: string): Option<int> {
    var prefix := cycleId + ":";
    if !HasPrefix(key, prefix) then None
    else
      match Atoi(key[|prefix|..])
      case None => None
      case Some(n) => if n < 1 then None else Some(n)
  }

  lemma {:induction false} PrintedDigitsReadBack(n: nat)
    ensures StringToNat(NatToString(n)) == n
  {
    if n < 10 {
      assert NatToString(n)[..0] == "";
    } else {
      PrintedDigitsReadBack(n / 10);
      var s := NatToString(n);
      assert s[..|s| - 1] == NatToString(n / 10);
    }
  }

  /** The bank recovers the sequence number from every key the store prints for an attempt. */
  lemma AttemptNumberRoundTrip(cycleId: string, seqNo: int)
    requires 1 <= seqNo <= INT64_MAX
    ensures AttemptNumberFromKey(cycleId, NewIdempotencyKey(cycleId, seqNo)) == Some(seqNo)
  {
    var key := NewIdempotencyKey(cycleId, seqNo);
    var prefix := cycleId + ":";
    assert key[..|prefix|] == prefix;
    assert key[|prefix|..] == NatToString(seqNo);
    assert IsDigit(NatToString(seqNo)[0]);
    PrintedDigitsReadBack(seqNo);
  }

  /** Of the printed keys exactly those of numbers from one to the largest 64-bit one are accepted. */
  lemma PrintedKeysAccepted(cycleId: string, seqNo: int)
    ensures AttemptNumberFromKey(cycleId, NewIdempotencyKey(cycleId, seqNo))
         == if 1 <= seqNo <= INT64_MAX then Some(seqNo) else None
  {
    var key := NewIdempotencyKey(cycleId, seqNo);
    var prefix := cycleId + ":";
    assert key[..|prefix|] == prefix;
    assert key[|prefix|..] == Itoa(seqNo);
    if seqNo < 0 {
      assert Itoa(seqNo)[1..] == NatToString(-seqNo);
      PrintedDigitsReadBack(-seqNo);
    } else {
      assert IsDigit(NatToString(seqNo)[0]);
      PrintedDigitsReadBack(seqNo);
    }
  }

  /** What follows the prefix in a key the bank accepts contains no colon. */
  lemma NumberHasNoColon(s: string)
    requires Atoi(s).Some?
    ensures forall i | 0 <= i < |s| :: s[i] != ':'
  {
    forall i | 0 <= i < |s|
      ensures s[i] != ':'
    {
      if (s[0] == '-' || s[0] == '+') && i > 0 {
        assert s[1..][i - 1] == s[i];
      }
    }
  }

  /** A key is accepted for at most one cycle, whatever characters cycle names contain: the
      split point is its last colon. */
  lemma KeyHasOneOwner(c: string, d: string, key: string)
    requires AttemptNumberFromKey(c, key).Some?
    requires AttemptNumberFromKey(d, key).Some?
    ensures c == d
  {
    if |c| < |d| {
      OwnerNotShorter(c, d, key);
    } else if |d| < |c| {
      OwnerNotShorter(d, c, key);
    } else {
      assert c == (c + ":")[..|c|] == key[..|c| + 1][..|c|];
      assert d == (d + ":")[..|d|] == key[..|d| + 1][..|d|];
    }
  }

  lemma OwnerNotShorter(c: string, d: string, key: string)
    requires AttemptNumberFromKey(c, key).Some?
    requires AttemptNumberFromKey(d, key).Some?
    ensures |c| >= |d|
  {
    NumberHasNoColon(key[|c| + 1..]);
    assert key[|d|] == (d + ":")[|d|];
  }

  /** Distinct attempts never share a key: neither within a cycle nor across cycles. */
  lemma KeysAreInjective(c: string, m: int, d: string, n: int)
    requires 1 <= m <= INT64_MAX && 1 <= n <= INT64_MAX
    requires NewIdempotencyKey(c, m) == NewIdempotencyKey(d, n)
    ensures c == d && m == n
  {
    AttemptNumberRoundTrip(c, m);
    AttemptNumberRoundTrip(d, n);
    KeyHasOneOwner(c, d, NewIdempotencyKey(c, m));
  }
}
