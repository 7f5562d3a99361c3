/** Decimal numerals as Go prints them with %d and reads them with %d and strconv.Atoi. */
module Decimal {
  import opened Prelude

  const MIN_INT: int := -0x8000_0000_0000_0000
  const MAX_INT: int := 0x7fff_ffff_ffff_ffff

  predicate IsDigit(c: char) {
    '0' <= c <= '9'
  }

  predicate AllDigits(s: string) {
    forall c <- s :: IsDigit(c)
  }

  function Digit(v: int): char
    requires 0 <= v < 10
  {
    ('0' as int + v) as char
  }

  function Print(n: nat): (s: string)
    ensures s != "" && AllDigits(s)
  {
    if n < 10 then [Digit(n)] else Print(n / 10) + [Digit(n % 10)]
  }

  function PrintInt(n: int): string {
    if n < 0 then "-" + Print(-n) else Print(n)
  }

  /** The number a string of digits denotes. */
  function Value(s: string): nat
    requires AllDigits(s)
  {
    if s == "" then 0 else
      assert s[|s| - 1] in s;
      10 * Value(s[..|s| - 1]) + (s[|s| - 1] as int - '0' as int)
  }

  lemma {:induction false} ValuePrint(n: nat)
    ensures Value(Print(n)) == n
  {
    if n < 10 {
      assert Print(n)[..0] == "";
      assert Value(Print(n)[..0]) == 0;
    } else {
      var s := Print(n);
      assert s[..|s| - 1] == Print(n / 10);
      ValuePrint(n / 10);
    }
  }

  /** How many leading characters of `s` are digits. */
  function DigitRun(s: string): (k: nat)
    ensures k <= |s| && AllDigits(s[..k]) && (k < |s| ==> !IsDigit(s[k]))
  {
    if s == "" || !IsDigit(s[0]) then 0
    else
      var k := DigitRun(s[1..]);
      assert s[..k + 1] == [s[0]] + s[1..][..k];
      k + 1
  }

  lemma {:induction false} DigitRunOfDigits(s: string)
    requires AllDigits(s)
    ensures DigitRun(s) == |s|
  {
    if s == "" {
    } else {
      assert s[0] in s && forall c <- s[1..] :: c in s;
      DigitRunOfDigits(s[1..]);
    }
  }

  /** Reads an optional sign and digits; returns the number if it fits, and what is left of the text. */
  function ScanSigned(s: string): Option<(int, string)> {
    var signed := s != "" && (s[0] == '+' || s[0] == '-');
    var t := if signed then s[1..] else s;
    var k := DigitRun(t);
    if k == 0 then None
    else
      var m: int := Value(t[..k]);
      var v := if signed && s[0] == '-' then -m else m;
      if MIN_INT <= v <= MAX_INT then Some((v, t[k..])) else None
  }

  /** strconv.Atoi: the whole text must be a numeral in range. */
  function Atoi(s: string): Option<int> {
    match ScanSigned(s)
    case None => None
    case Some((v, rest)) => if rest == "" then Some(v) else None
  }

  lemma ScanSignedPrintInt(n: int)
    requires MIN_INT <= n <= MAX_INT
    ensures ScanSigned(PrintInt(n)) == Some((n, ""))
  {
    var m: nat := if n < 0 then -n else n;
    var t := Print(m);
    ValuePrint(m);
    DigitRunOfDigits(t);
    assert t[..|t|] == t && t[0] in t;
    assert t[|t|..] == "";
    var s := PrintInt(n);
    if n < 0 {
      assert s[0] == '-' && s[1..] == t;
    } else {
      assert s == t && IsDigit(s[0]);
    }
  }

  lemma {:induction false} DigitRunOfPrefix(s: string, rest: string)
    requires AllDigits(s) && (rest == "" || !IsDigit(rest[0]))
    ensures DigitRun(s + rest) == |s|
  {
    if s == "" {
      assert s + rest == rest;
    } else {
      assert s[0] in s && forall c <- s[1..] :: c in s;
      assert (s + rest)[1..] == s[1..] + rest;
      DigitRunOfPrefix(s[1..], rest);
    }
  }

  /** A number is read with either sign or none, up to the first character that is no digit. */
  lemma ReadsSignedNumber(n: nat, sign: string, rest: string)
    requires n <= MAX_INT && sign in {"", "+", "-"} && (rest == "" || !IsDigit(rest[0]))
    ensures var value: int := if sign == "-" then 0 - n else n;
            ScanSigned(sign + Print(n) + rest) == Some((value, rest))
  {
    hide Print, Value, DigitRun;
    var digits := Print(n);
    ValuePrint(n);
    DigitRunOfPrefix(digits, rest);
    assert digits[0] in digits;
    assert (digits + rest)[..|digits|] == digits && (digits + rest)[|digits|..] == rest;
    var s := sign + digits + rest;
    if sign == "" {
      assert s == digits + rest && s[0] == digits[0];
    } else {
      assert s[0] == sign[0] && s[1..] == digits + rest;
    }
  }

  /** Most significant digit first, and a minus sign in front. */
  lemma PrintedNumbers()
    ensures PrintInt(0) == "0" && PrintInt(120) == "120" && PrintInt(-7) == "-7"
  {
    assert Print(12) == Print(1) + "2";
    assert Print(120) == Print(12) + "0";
  }

  /** Reading a printed number gives it back, for every 64-bit integer. */
  lemma AtoiPrintInt(n: int)
    requires MIN_INT <= n <= MAX_INT
    ensures Atoi(PrintInt(n)) == Some(n)
  {
    ScanSignedPrintInt(n);
  }
}
