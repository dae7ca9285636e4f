/** Decimal and boolean text as Go's strconv prints and parses it. */
module Decimal {
  import opened Results

  const TWO_63: nat := 0x8000_0000_0000_0000
  const TWO_64: nat := 0x1_0000_0000_0000_0000

  type u64 = n: nat | n < 0x1_0000_0000_0000_0000
  type i64 = n: int | -0x8000_0000_0000_0000 <= n < 0x8000_0000_0000_0000

  /** Conversion of an unsigned 64-bit value to a signed one: the bits are kept. */
  function ToInt64(n: u64): i64 {
    if n < TWO_63 then n else n - TWO_64
  }

  /** Conversion of a signed 64-bit value to an unsigned one: the bits are kept. */
  function ToUint64(n: i64): u64 {
    if n < 0 then n + TWO_64 else n
  }

  predicate IsDigit(c: char) {
    '0' <= c <= '9'
  }

  function Digit(d: nat): (c: char)
    requires d < 10
    ensures IsDigit(c) && c as int - '0' as int == d
  {
    ('0' as int + d) as char
  }

  function PrintNat(n: nat): (s: string)
    ensures |s| > 0 && forall i | 0 <= i < |s| :: IsDigit(s[i])
  {
    if n < 10 then [Digit(n)] else PrintNat(n / 10) + [Digit(n % 10)]
  }

  function Magnitude(n: int): nat {
    if n < 0 then -n else n
  }

  function Itoa(n: i64): string {
    if n < 0 then "-" + PrintNat(Magnitude(n)) else PrintNat(Magnitude(n))
  }

  /** The number a non-empty run of digits denotes. */
  function ParseDigits(s: string): Option<nat> {
    if |s| == 0 || !IsDigit(s[|s| - 1]) then
      None
    else
      var d := s[|s| - 1] as int - '0' as int;
      if |s| == 1 then
        Some(d)
      else
        match ParseDigits(s[..|s| - 1])
        case None => None
        case Some(v) => Some(v * 10 + d)
  }

  function ParseUint64(s: string): Option<u64> {
    match ParseDigits(s)
    case Some(v) => if v < TWO_64 then Some(v as u64) else None
    case None => None
  }

  function ParseInt64(s: string): Option<i64> {
    if |s| > 0 && s[0] == '-' then
      match ParseDigits(s[1..])
      case Some(v) => if v <= TWO_63 then Some(0 - v as int) else None
      case None => None
    else
      match ParseDigits(if |s| > 0 && s[0] == '+' then s[1..] else s)
      case Some(v) => if v < TWO_63 then Some(v as i64) else None
      case None => None
  }

  function FormatBool(b: bool): string {
    if b then "true" else "false"
  }

  function ParseBool(s: string): Option<bool> {
    if s in ["1", "t", "T", "true", "TRUE", "True"] then Some(true)
    else if s in ["0", "f", "F", "false", "FALSE", "False"] then Some(false)
    else None
  }

  lemma {:induction false} PrintedNatParses(n: nat)
    ensures ParseDigits(PrintNat(n)) == Some(n)
  {
    if n >= 10 {
      PrintedNatParses(n / 10);
      var s := PrintNat(n);
      assert s[..|s| - 1] == PrintNat(n / 10);
    }
  }

  /** Printing a signed number and parsing it gives it back, for every 64-bit value. */
  lemma PrintedIntParses(n: i64)
    ensures ParseInt64(Itoa(n)) == Some(n)
    ensures n >= 0 ==> ParseUint64(Itoa(n)) == Some(n)
  {
    PrintedNatParses(Magnitude(n));
    if n < 0 {
      assert Itoa(n)[1..] == PrintNat(Magnitude(n));
    }
  }

  lemma PrintedBoolParses(b: bool)
    ensures ParseBool(FormatBool(b)) == Some(b)
  {
    assert "true"[0] == 't' && "1"[0] == '1';
    assert "false"[0] == 'f' && |"false"| == 5;
  }

  /** Exactly the non-empty runs of digits are numbers. */
  lemma {:induction false} NumbersAreDigits(s: string)
    ensures ParseDigits(s).Some? <==> s != "" && forall i | 0 <= i < |s| :: IsDigit(s[i])
  {
    if |s| > 1 {
      NumbersAreDigits(s[..|s| - 1]);
      assert forall i | 0 <= i < |s| - 1 :: s[..|s| - 1][i] == s[i];
    }
  }
}
