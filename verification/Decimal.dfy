/**
  Decimal text of integers: what ll2string prints, what atoi and strtol read from the
  front of a line, and what the strict string2ll accepts.
 */
module Decimal {
  import opened Text

  predicate IsDigit(c: char) {
    '0' <= c <= '9'
  }

  function DigitValue(c: char): (d: nat)
    requires IsDigit(c)
    ensures d < 10
  {
    c as int - '0' as int
  }

  function DigitChar(d: nat): (c: char)
    requires d < 10
    ensures IsDigit(c) && DigitValue(c) == d
  {
    '0' + d as char
  }

  predicate AllDigits(s: string) {
    forall i :: 0 <= i < |s| ==> IsDigit(s[i])
  }

  /** Canonical decimal: no leading zero except for "0" itself. */
  function Print(n: nat): (s: string)
    ensures |s| > 0 && AllDigits(s)
    ensures s[0] == '0' <==> n == 0
    ensures n == 0 ==> s == "0"
  {
    if n < 10 then [DigitChar(n)] else Print(n / 10) + [DigitChar(n % 10)]
  }

  function PrintInt(n: int): (s: string)
    ensures |s| > 0
  {
    if n < 0 then "-" + Print(-n) else Print(n)
  }

  /** Value of the longest digit prefix of s, continuing from acc. */
  function Scan(s: string, acc: nat): (n: nat)
    ensures n >= acc
  {
    if s == "" || !IsDigit(s[0]) then acc else Scan(s[1..], 10 * acc + DigitValue(s[0]))
  }

  function SkipSpace(s: string): string {
    if s != "" && IsSpace(s[0]) then SkipSpace(s[1..]) else s
  }

  /** strtol / atoi in base 10: white space, one sign, then the digit prefix. */
  function Strtol(s: string): int {
    var u := SkipSpace(s);
    if u != "" && u[0] == '-' then 0 - Scan(u[1..], 0)
    else if u != "" && u[0] == '+' then Scan(u[1..], 0)
    else Scan(u, 0)
  }

  const LLONG_MAX: int := 0x7fff_ffff_ffff_ffff
  const LLONG_MIN: int := -0x8000_0000_0000_0000

  datatype Parsed = Number(value: int) | NotANumber

  predicate Canonical(s: string) {
    s == "0" || (s != "" && AllDigits(s) && s[0] != '0')
  }

  /** string2ll: the whole string must be a canonical decimal that fits a long long. */
  function Strict(s: string): Parsed {
    var body := if s != "" && s[0] == '-' then s[1..] else s;
    if !Canonical(body) || s == "-0" then NotANumber
    else
      var v := if s[0] == '-' then 0 - Scan(body, 0) else Scan(body, 0);
      if LLONG_MIN <= v <= LLONG_MAX then Number(v) else NotANumber
  }

  lemma {:induction false} ScanConcat(a: string, b: string, acc: nat)
    requires AllDigits(a)
    ensures Scan(a + b, acc) == Scan(b, Scan(a, acc))
  {
    if a == "" {
      assert a + b == b;
    } else {
      assert (a + b)[1..] == a[1..] + b;
      ScanConcat(a[1..], b, 10 * acc + DigitValue(a[0]));
    }
  }

  /** Printing then scanning gives the number back. */
  lemma {:induction false} ScanPrint(n: nat)
    ensures Scan(Print(n), 0) == n
  {
    if n < 10 {
      assert Print(n)[1..] == "";
    } else {
      var d := [DigitChar(n % 10)];
      ScanPrint(n / 10);
      ScanConcat(Print(n / 10), d, 0);
      assert d[1..] == "";
    }
  }

  /** atoi and strtol read a printed number whatever follows it, up to the next digit. */
  lemma StrtolPrint(n: nat, rest: string)
    requires rest == "" || !IsDigit(rest[0])
    ensures Strtol(Print(n) + rest) == n
  {
    ScanPrint(n);
    ScanConcat(Print(n), rest, 0);
    assert IsDigit((Print(n) + rest)[0]);
  }

  predicate Blank(s: string) {
    forall i :: 0 <= i < |s| ==> IsSpace(s[i])
  }

  lemma {:induction false} SkipsBlank(blank: string, s: string)
    requires Blank(blank) && (s == "" || !IsSpace(s[0]))
    ensures SkipSpace(blank + s) == s
  {
    if blank == "" {
      assert blank + s == s;
    } else {
      assert (blank + s)[1..] == blank[1..] + s;
      SkipsBlank(blank[1..], s);
    }
  }

  lemma StrtolSkips(blank: string, s: string)
    requires Blank(blank) && (s == "" || !IsSpace(s[0]))
    ensures Strtol(blank + s) == Strtol(s)
  {
    hide Scan;
    hide SkipSpace;
    SkipsBlank(blank, s);
    SkipsBlank("", s);
    assert "" + s == s;
  }

  lemma StrtolSign(sign: char, n: nat, rest: string)
    requires sign in {'-', '+'} && (rest == "" || !IsDigit(rest[0]))
    ensures Strtol([sign] + (Print(n) + rest)) == if sign == '-' then 0 - n else n
  {
    var t := Print(n) + rest;
    var s := [sign] + t;
    ScanPrint(n);
    ScanConcat(Print(n), rest, 0);
    hide Print;
    assert s[1..] == t && SkipSpace(s) == s;
  }

  lemma StrtolNothing(rest: string)
    requires rest == "" || (!IsDigit(rest[0]) && !IsSpace(rest[0]) && rest[0] !in {'+', '-'})
    ensures Strtol(rest) == 0
  {
  }

  /** White space in front is skipped, one sign counts, and the number ends before the first character
      that is no digit; a text that does not start that way is zero. */
  lemma StrtolMeans(blank: string, n: nat, rest: string)
    requires Blank(blank) && (rest == "" || !IsDigit(rest[0]))
    ensures Strtol(blank + (Print(n) + rest)) == n
    ensures Strtol(blank + (['-'] + (Print(n) + rest))) == 0 - n
    ensures Strtol(blank + (['+'] + (Print(n) + rest))) == n
    ensures rest == "" || (!IsSpace(rest[0]) && rest[0] !in {'+', '-'}) ==> Strtol(blank + rest) == 0
  {
    hide Strtol;
    var t := Print(n) + rest;
    assert IsDigit(t[0]);
    hide Print;
    StrtolPrint(n, rest);
    StrtolSkips(blank, t);
    StrtolSign('-', n, rest);
    StrtolSkips(blank, ['-'] + t);
    StrtolSign('+', n, rest);
    StrtolSkips(blank, ['+'] + t);
    if rest == "" || (!IsSpace(rest[0]) && rest[0] !in {'+', '-'}) {
      StrtolNothing(rest);
      StrtolSkips(blank, rest);
    }
  }

  lemma StrictPrintInt(n: int)
    requires LLONG_MIN <= n <= LLONG_MAX
    ensures Strict(PrintInt(n)) == Number(n)
  {
    if n < 0 {
      ScanPrint(-n);
      assert PrintInt(n)[1..] == Print(-n);
      assert PrintInt(n)[1] != '0';
    } else {
      ScanPrint(n);
      assert IsDigit(PrintInt(n)[0]);
    }
  }

  /** Digits without a leading zero are the print of their number. */
  lemma {:induction false} PrintScan(s: string)
    requires Canonical(s)
    ensures Print(Scan(s, 0)) == s
    decreases |s|
  {
    var n := |s| - 1;
    var t, d := s[..n], s[n..];
    assert s == t + d;
    ScanConcat(t, d, 0);
    assert d[1..] == "" && d[0] == s[n];
    if t == "" {
      assert Scan(t, 0) == 0;
      OneDigit(s[0]);
      assert s == [s[0]];
    } else {
      assert t[0] == s[0];
      PrintScan(t);
      var m := Scan(t, 0);
      assert m > 0;
      assert Scan(s, 0) == 10 * m + DigitValue(s[n]);
      OneDigit(s[n]);
    }
  }

  lemma OneDigit(c: char)
    requires IsDigit(c)
    ensures DigitChar(DigitValue(c)) == c
  {
  }

  /** string2ll accepts exactly what is printed for 64 bit numbers, nothing else. */
  lemma StrictIff(s: string, n: int)
    ensures Strict(s) == Number(n) <==> LLONG_MIN <= n <= LLONG_MAX && s == PrintInt(n)
  {
    if Strict(s) == Number(n) {
      if s[0] == '-' {
        PrintScan(s[1..]);
        assert s == "-" + s[1..];
      } else {
        PrintScan(s);
      }
    }
    if LLONG_MIN <= n <= LLONG_MAX { StrictPrintInt(n); }
  }

  /** Whenever the strict parser accepts, strtoll on the same text agrees with it. */
  lemma StrictAgreesWithStrtol(s: string)
    requires Strict(s).Number?
    ensures Strtol(s) == Strict(s).value
  {
    if s[0] == '-' {
      assert !IsSpace(s[0]);
    } else {
      assert IsDigit(s[0]);
    }
  }

  lemma {:induction false} PrintLength(n: nat, bound: nat, digits: nat)
    requires digits >= 1 && n < bound && bound <= Pow10(digits)
    ensures |Print(n)| <= digits
    decreases digits
  {
    if n >= 10 {
      PrintLength(n / 10, Pow10(digits - 1), digits - 1);
    }
  }

  function Pow10(k: nat): (p: nat)
    ensures p >= 1
  {
    if k == 0 then 1 else 10 * Pow10(k - 1)
  }
}
