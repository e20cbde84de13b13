/** Unsigned numbers in decimal, as printf writes them and strtoul reads them. */
module Decimal {
  import opened CString

  const ULLONG_LIMIT: nat := 0x1_0000_0000_0000_0000

  predicate IsDigit(c: char) {
    '0' <= c <= '9'
  }

  function DigitChar(d: nat): char
    requires d < 10
  {
    '0' + d as char
  }

  function DigitValue(c: char): nat
    requires IsDigit(c)
  {
    c as nat - '0' as nat
  }

  /** The number without leading zeros, as "%lu" prints it. */
  function Print(n: nat): (s: string)
    ensures s != [] && forall i :: 0 <= i < |s| ==> IsDigit(s[i])
  {
    if n < 10 then [DigitChar(n)] else Print(n / 10) + [DigitChar(n % 10)]
  }

  /** The value of a run of digits. */
  function Value(s: string): nat
    requires forall i :: 0 <= i < |s| ==> IsDigit(s[i])
  {
    if s == [] then 0 else 10 * Value(s[..|s| - 1]) + DigitValue(s[|s| - 1])
  }

  lemma DigitCharIs(d: nat)
    requires d < 10
    ensures DigitChar(d) == "0123456789"[d]
  {
    assert d in {0, 1, 2, 3, 4, 5, 6, 7, 8, 9};
  }

  /** The usual digits, the least significant one last. */
  lemma PrintedDigits(n: nat)
    ensures n < 10 ==> Print(n) == ["0123456789"[n]]
    ensures n >= 10 ==> Print(n) == Print(n / 10) + ["0123456789"[n % 10]]
  {
    DigitCharIs(n % 10);
  }

  lemma {:induction false} ValueOfPrint(n: nat)
    ensures Value(Print(n)) == n
  {
    if n >= 10 {
      ValueOfPrint(n / 10);
      assert Print(n)[..|Print(n)| - 1] == Print(n / 10);
    } else {
      assert Value([]) == 0;
    }
  }

  lemma PrintIsInjective(m: nat, n: nat)
    requires Print(m) == Print(n)
    ensures m == n
  {
    ValueOfPrint(m);
    ValueOfPrint(n);
  }

  function DigitCount(s: string): (n: nat)
    ensures n <= |s|
    ensures forall i :: 0 <= i < n ==> IsDigit(s[i])
    ensures n < |s| ==> !IsDigit(s[n])
  {
    if s != [] && IsDigit(s[0]) then 1 + DigitCount(s[1..]) else 0
  }

  function SkipSpaces(s: string): (r: string)
    ensures |r| <= |s|
  {
    if s != [] && IsSpace(s[0]) then SkipSpaces(s[1..]) else s
  }

  /** Too large a number saturates; a minus sign negates modulo 2^64. */
  function Converted(negative: bool, v: nat): (r: nat)
    ensures r < ULLONG_LIMIT
  {
    if v >= ULLONG_LIMIT then ULLONG_LIMIT - 1 else if negative && v > 0 then ULLONG_LIMIT - v else v
  }

  /** strtoull(s, &end, 10): the value and what is left at end; without digits nothing is consumed. */
  function Strtoull(s: string): (r: (nat, string))
    ensures r.0 < ULLONG_LIMIT
  {
    var t := SkipSpaces(s);
    var signed := t != [] && (t[0] == '-' || t[0] == '+');
    var digits := if signed then t[1..] else t;
    var n := DigitCount(digits);
    if n == 0 then (0, s)
    else (Converted(t[0] == '-', Value(digits[..n])), digits[n..])
  }

  lemma {:induction false} BlanksSkipped(s: string) returns (k: nat)
    ensures k <= |s| && SkipSpaces(s) == s[k..] && forall i :: 0 <= i < k ==> IsSpace(s[i])
  {
    if s != [] && IsSpace(s[0]) {
      k := BlanksSkipped(s[1..]);
      assert forall i :: 1 <= i <= k ==> s[i] == s[1..][i - 1];
      k := k + 1;
    } else {
      k := 0;
    }
  }

  lemma StrtoullRest(s: string)
    requires NoNul(s)
    ensures NoNul(Strtoull(s).1)
  {
    var k := BlanksSkipped(s);
  }

  lemma {:induction false} DigitsOfPrefix(digits: string, rest: string)
    requires forall i :: 0 <= i < |digits| ==> IsDigit(digits[i])
    requires rest != [] ==> !IsDigit(rest[0])
    ensures DigitCount(digits + rest) == |digits|
  {
    if digits == [] {
      assert digits + rest == rest;
    } else {
      assert (digits + rest)[1..] == digits[1..] + rest;
      DigitsOfPrefix(digits[1..], rest);
    }
  }

  lemma {:induction false} SkipBlanks(blanks: string, rest: string)
    requires forall i :: 0 <= i < |blanks| ==> IsSpace(blanks[i])
    requires rest != [] ==> !IsSpace(rest[0])
    ensures SkipSpaces(blanks + rest) == rest
  {
    if blanks == [] {
      assert blanks + rest == rest;
    } else {
      assert (blanks + rest)[1..] == blanks[1..] + rest;
      SkipBlanks(blanks[1..], rest);
    }
  }

  /** The texts that strtoull reads a number from: white space, a sign, digits. */
  ghost predicate IsNumeral(blanks: string, sign: string, digits: string) {
    && (forall i :: 0 <= i < |blanks| ==> blanks[i] in {' ', '\t', '\n', '\U{000B}', '\U{000C}', '\r'})
    && sign in {"", "+", "-"}
    && digits != "" && (forall i :: 0 <= i < |digits| ==> '0' <= digits[i] <= '9')
  }

  lemma SignedDigits(sign: string, after: string)
    requires sign in {"", "+", "-"} && after != "" && IsDigit(after[0])
    ensures
      var t := sign + after;
      t != "" && !IsSpace(t[0]) && (t[0] == '-' <==> sign == "-") && (t[0] == '+' <==> sign == "+") &&
      t[|sign|..] == after
  {
    if sign == "" {
      assert sign + after == after;
    }
  }

  /** strtoull on a text whose parts have been told apart. */
  lemma StrtoullFrom(s: string, t: string, sign: string, after: string, n: nat)
    requires t == SkipSpaces(s) && t != "" && |sign| <= |t| && t[|sign|..] == after
    requires sign in {"", "+", "-"} && (t[0] == '-' <==> sign == "-") && (t[0] == '+' <==> sign == "+")
    requires 0 < n == DigitCount(after)
    ensures Strtoull(s) == (Converted(sign == "-", Value(after[..n])), after[n..])
  {
    assert sign == "" ==> t[|sign|..] == t;
  }

  lemma NumeralParts(blanks: string, sign: string, digits: string, rest: string)
    requires IsNumeral(blanks, sign, digits) && (rest != [] ==> !IsDigit(rest[0]))
    ensures SkipSpaces(blanks + (sign + (digits + rest))) == sign + (digits + rest)
    ensures (sign + (digits + rest))[|sign|..] == digits + rest && sign + (digits + rest) != ""
    ensures (sign + (digits + rest))[0] == '-' <==> sign == "-"
    ensures (sign + (digits + rest))[0] == '+' <==> sign == "+"
    ensures DigitCount(digits + rest) == |digits|
    ensures (digits + rest)[..|digits|] == digits && (digits + rest)[|digits|..] == rest
  {
    SignedDigits(sign, digits + rest);
    SkipBlanks(blanks, sign + (digits + rest));
    DigitsOfPrefix(digits, rest);
  }

  lemma StrtoullOfNumeral(blanks: string, sign: string, digits: string, rest: string)
    requires IsNumeral(blanks, sign, digits) && (rest != [] ==> !IsDigit(rest[0]))
    ensures Strtoull(blanks + (sign + (digits + rest))) == (Converted(sign == "-", Value(digits)), rest)
  {
    var after := digits + rest;
    NumeralParts(blanks, sign, digits, rest);
    StrtoullFrom(blanks + (sign + after), sign + after, sign, after, |digits|);
  }

  lemma Rejoin(s: string, k: nat, j: nat, n: nat)
    requires k + j + n <= |s|
    ensures s == s[..k] + (s[k..][..j] + (s[k..][j..][..n] + s[k..][j..][n..]))
  {
    var t := s[k..];
    var after := t[j..];
    assert after == after[..n] + after[n..];
    assert t == t[..j] + after;
    assert s == s[..k] + t;
  }

  /** Without a number nothing is consumed; otherwise what is consumed is a numeral. */
  lemma StrtoullConsumes(s: string) returns (blanks: string, sign: string, digits: string)
    ensures if Strtoull(s).1 == s then Strtoull(s).0 == 0
      else IsNumeral(blanks, sign, digits) && s == blanks + (sign + (digits + Strtoull(s).1))
  {
    var k := BlanksSkipped(s);
    var t := s[k..];
    var j := if t != [] && (t[0] == '-' || t[0] == '+') then 1 else 0;
    var n := DigitCount(t[j..]);
    blanks, sign, digits := s[..k], t[..j], t[j..][..n];
    if n > 0 {
      Rejoin(s, k, j, n);
      assert Strtoull(s).1 == t[j..][n..];
      assert sign in {"", "+", "-"} by {
        assert j == 1 ==> t[..1] == [t[0]];
      }
    }
  }

  /** A printed number is read back, cut off at the largest unsigned long long. */
  lemma StrtoullOfPrint(n: nat, unit: string)
    requires unit != [] ==> !IsDigit(unit[0])
    ensures Strtoull(Print(n) + unit) == (if n < ULLONG_LIMIT then n else ULLONG_LIMIT - 1, unit)
  {
    StrtoullOfNumeral("", "", Print(n), unit);
    ValueOfPrint(n);
    assert "" + ("" + (Print(n) + unit)) == Print(n) + unit;
  }
}
