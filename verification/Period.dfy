/** tools/tools-common.c: periods on the command line and in line attributes. */
module Period {
  import opened Wrappers
  import opened CString
  import opened Decimal

  const LLONG_MAX: nat := 0x7FFF_FFFF_FFFF_FFFF

  /** Microseconds per unit; without a unit the number counts milliseconds. */
  function UnitOf(unit: string): Option<nat> {
    if unit == "" || unit == "ms" then Some(1000)
    else if unit == "us" then Some(1)
    else if unit == "s" then Some(1000000)
    else if unit == "m" || unit == "u" then Some(60000000)
    else None
  }

  /** What a text means as a period: -1 for an unknown unit or a product above LLONG_MAX. The
      product is taken modulo 2^64. */
  function PeriodOf(option: string): int {
    var (p, unit) := Strtoull(option);
    var m := UnitOf(unit);
    if m.None? then -1
    else
      var product := p * m.value % ULLONG_LIMIT;
      if product > LLONG_MAX then -1 else product
  }

  /** The terminating NUL. */
  function CharAt(s: string, i: nat): char {
    if i < |s| then s[i] else NUL
  }

  /** parse_period */
  method ParsePeriod(option: string) returns (ret: int)
    requires NoNul(option)
    ensures ret == PeriodOf(option)
  {
    var (p, rest) := Strtoull(option);
    StrtoullRest(option);
    var m, end := 0, 0;
    if CharAt(rest, end) == 'u' {
      m := 1;
      end := end + 1;
    } else if CharAt(rest, end) == 'm' {
      m := 1000;
      end := end + 1;
    } else if CharAt(rest, end) == 's' {
      m := 1000000;
    } else if CharAt(rest, end) != NUL {
      return -1;
    }
    if m != 0 {
      if CharAt(rest, end) == NUL {
        m := 60000000;
      } else if CharAt(rest, end) == 's' {
        end := end + 1;
      } else {
        return -1;
      }
    } else {
      m := 1000;
    }
    p := p * m % ULLONG_LIMIT;
    if CharAt(rest, end) != NUL || p > LLONG_MAX {
      return -1;
    }
    ret := p;
  }

  lemma ModBelow(x: nat)
    ensures x < ULLONG_LIMIT ==> x % ULLONG_LIMIT == x
    ensures x % ULLONG_LIMIT == x ==> x < ULLONG_LIMIT
  {
  }

  /** The units and what they count in microseconds. Without a unit the number counts
      milliseconds; a single u is taken for minutes, as m is. */
  lemma KnownUnits(n: nat, unit: string, factor: nat)
    requires (unit, factor) in {("us", 1), ("ms", 1000), ("", 1000), ("s", 1000000), ("m", 60000000), ("u", 60000000)}
    ensures PeriodOf(Print(n) + unit) == n * factor <==> n * factor <= 0x7FFF_FFFF_FFFF_FFFF
  {
    StrtoullOfPrint(n, unit);
    ModBelow(n * factor);
    assert n >= ULLONG_LIMIT ==> n * factor >= n;
  }

  lemma UnknownUnit(n: nat, unit: string)
    requires unit !in {"us", "ms", "", "s", "m", "u"} && !IsDigit(unit[0])
    ensures PeriodOf(Print(n) + unit) == -1
  {
    StrtoullOfPrint(n, unit);
  }

  lemma NumberThenUnit(n: nat, unit: string)
    requires n < ULLONG_LIMIT && UnitOf(unit).Some?
    ensures
      var product := n * UnitOf(unit).value % ULLONG_LIMIT;
      PeriodOf(Print(n) + unit) == if product > LLONG_MAX then -1 else product
  {
    StrtoullOfPrint(n, unit);
  }

  /** A number and a unit are read as their product exactly when that fits a long long. */
  lemma NumberAndUnit(n: nat, unit: string)
    requires n < ULLONG_LIMIT && UnitOf(unit).Some?
    ensures PeriodOf(Print(n) + unit) == n * UnitOf(unit).value <==> n * UnitOf(unit).value <= LLONG_MAX
    ensures LLONG_MAX < n * UnitOf(unit).value < ULLONG_LIMIT ==> PeriodOf(Print(n) + unit) == -1
  {
    NumberThenUnit(n, unit);
    ModBelow(n * UnitOf(unit).value);
  }

  /** print_debounce: the number and unit after "debounce-period=", nothing for zero. */
  function DebounceText(debounce: nat): string {
    if debounce == 0 then ""
    else if debounce % 1000000 == 0 then Print(debounce / 1000000) + "s"
    else if debounce % 1000 == 0 then Print(debounce / 1000) + "ms"
    else Print(debounce) + "us"
  }

  lemma Multiples(n: nat, x: nat, y: nat)
    requires x == n * 1000000 && y == n * 1000
    ensures x % 1000000 == 0 && x / 1000000 == n
    ensures y % 1000 == 0 && y / 1000 == n
  {
  }

  lemma Divides(n: nat, y: nat)
    requires y == n * 1000 && n % 1000 != 0
    ensures y % 1000000 != 0 && n % 1000000 != 0
  {
    assert y == 1000000 * (n / 1000) + 1000 * (n % 1000);
    assert n == 1000 * (1000 * (n / 1000000)) + n % 1000000;
  }

  /** A period is printed in the coarsest unit that divides it. */
  lemma CoarsestUnit(n: nat)
    requires n > 0
    ensures DebounceText(n * 1000000) == Print(n) + "s"
    ensures n % 1000 != 0 ==> DebounceText(n * 1000) == Print(n) + "ms"
    ensures n % 1000 != 0 ==> DebounceText(n) == Print(n) + "us"
  {
    Multiples(n, n * 1000000, n * 1000);
    if n % 1000 != 0 {
      Divides(n, n * 1000);
    }
  }

  /** Printer and parser agree on every period that the parser can return at all. */
  lemma PrintedPeriodParses(d: nat)
    requires 0 < d < ULLONG_LIMIT
    ensures PeriodOf(DebounceText(d)) == if d <= LLONG_MAX then d else -1
  {
    if d % 1000000 == 0 {
      NumberAndUnit(d / 1000000, "s");
    } else if d % 1000 == 0 {
      NumberAndUnit(d / 1000, "ms");
    } else {
      NumberAndUnit(d, "us");
    }
  }

  lemma WrappedProduct(x: nat)
    requires x == 18446744073709552000
    ensures x % ULLONG_LIMIT == 384
  {
  }

  /** Beyond 2^64 the product wraps instead of being rejected. */
  lemma WrappedPeriod(n: nat)
    requires n == 18446744073709552
    ensures n * 1000 > LLONG_MAX && PeriodOf(Print(n) + "ms") == 384
  {
    NumberThenUnit(n, "ms");
    WrappedProduct(n * 1000);
  }
}
