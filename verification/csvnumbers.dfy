/** The numbers in a report cell: the `%d` and `%.Nf` forms the writer prints, and the
    scanner the loader reads them back with. Amounts are exact reals. */
module CsvNumbers {
  import opened Types

  // ---- Digits ---------------------------------------------------------------------------

  predicate IsDigit(c: char)
  {
    '0' <= c <= '9'
  }

  predicate AllDigits(s: string)
  {
    forall i :: 0 <= i < |s| ==> IsDigit(s[i])
  }

  function DigitChar(d: nat): (c: char)
    requires d < 10
    ensures IsDigit(c)
  {
    '0' + d as char
  }

  function DigitValue(c: char): nat
    requires IsDigit(c)
  {
    c as int - '0' as int
  }

  function Value(digits: string): nat
    requires AllDigits(digits)
  {
    if digits == [] then 0 else 10 * Value(digits[..|digits| - 1]) + DigitValue(digits[|digits| - 1])
  }

  function Decimal(n: nat): (s: string)
    ensures s != [] && AllDigits(s)
  {
    (if n < 10 then "" else Decimal(n / 10)) + [DigitChar(n % 10)]
  }

  function Pow10(n: nat): (p: nat)
    ensures p >= 1
  {
    if n == 0 then 1 else 10 * Pow10(n - 1)
  }

  /** The last `places` digits of `n`, with leading zeros. */
  function Padded(n: nat, places: nat): (s: string)
    ensures |s| == places && AllDigits(s)
  {
    if places == 0 then "" else Padded(n / 10, places - 1) + [DigitChar(n % 10)]
  }

  lemma {:induction false} DecimalValue(n: nat)
    ensures Value(Decimal(n)) == n
  {
    var s := Decimal(n);
    if n < 10 {
      assert s[..|s| - 1] == [];
    } else {
      DecimalValue(n / 10);
      assert s[..|s| - 1] == Decimal(n / 10);
    }
  }

  lemma {:induction false} PaddedValue(n: nat, places: nat)
    requires n < Pow10(places)
    ensures Value(Padded(n, places)) == n
  {
    if places > 0 {
      var s := Padded(n, places);
      PaddedValue(n / 10, places - 1);
      assert s[..|s| - 1] == Padded(n / 10, places - 1);
    }
  }

  // ---- Scanning -------------------------------------------------------------------------

  /** How many digits `s` begins with. */
  function DigitRun(s: string): (n: nat)
    ensures n <= |s| && AllDigits(s[..n])
    ensures n < |s| ==> !IsDigit(s[n])
  {
    if s == [] || !IsDigit(s[0]) then 0
    else
      var n := 1 + DigitRun(s[1..]);
      assert s[..n] == [s[0]] + s[1..][..n - 1];
      n
  }

  function SkipBlanks(s: string): string
  {
    if s != [] && (s[0] == ' ' || s[0] == '\t') then SkipBlanks(s[1..]) else s
  }

  function DropSign(s: string): string
  {
    if s != [] && (s[0] == '+' || s[0] == '-') then s[1..] else s
  }

  predicate IsNegative(s: string)
  {
    s != [] && s[0] == '-'
  }

  /** Scans an integer and ignores whatever follows its digits. */
  function ScanInt(s: string): Option<int>
  {
    var t := SkipBlanks(s);
    var u := DropSign(t);
    var n := DigitRun(u);
    if n == 0 then None else
      var size: int := Value(u[..n]);
      Some(if IsNegative(t) then -size else size)
  }

  /** Scans a decimal amount and ignores whatever follows it. */
  function ScanAmount(s: string): Option<real>
  {
    var t := SkipBlanks(s);
    var u := DropSign(t);
    var n := DigitRun(u);
    var rest := u[n..];
    var fraction := if rest != [] && rest[0] == '.' then rest[1..] else [];
    var m := DigitRun(fraction);
    if n + m == 0 then None
    else
      var size := Value(u[..n]) as real + Value(fraction[..m]) as real / Pow10(m) as real;
      Some(if IsNegative(t) then -size else size)
  }

  /** An empty cell leaves the zero the record starts with. */
  function IntCell(cell: string): Option<int>
  {
    if cell == "" then Some(0) else ScanInt(cell)
  }

  function AmountCell(cell: string): Option<real>
  {
    if cell == "" then Some(0.0) else ScanAmount(cell)
  }

  // ---- Printing -------------------------------------------------------------------------

  function FormatInt(n: int): string
  {
    if n < 0 then "-" + Decimal(-n) else Decimal(n)
  }

  function Abs(x: real): (a: real)
    ensures a >= 0.0
  {
    if x < 0.0 then -x else x
  }

  /** The integer next to `x`, the even one of two that are equally near. */
  function NearestEven(x: real): (n: nat)
    requires x >= 0.0
    ensures x - 0.5 <= n as real <= x + 0.5
    ensures n as real - x == 0.5 || x - n as real == 0.5 ==> n % 2 == 0
  {
    var low := x.Floor;
    var rest := x - low as real;
    if rest < 0.5 || (rest == 0.5 && low % 2 == 0) then low else low + 1
  }

  lemma ProductNonNegative(a: real, b: real)
    requires a >= 0.0 && b >= 0.0
    ensures a * b >= 0.0
  {
  }

  /** How many `unit`-ths the size of `x` rounds to. */
  function Parts(x: real, unit: nat): (n: nat)
    requires unit > 0
    ensures Abs(x) * unit as real - 0.5 <= n as real <= Abs(x) * unit as real + 0.5
  {
    ProductNonNegative(Abs(x), unit as real);
    NearestEven(Abs(x) * unit as real)
  }

  function Sign(x: real): string
  {
    if x < 0.0 then "-" else ""
  }

  function FixedDigits(n: nat, unit: nat, places: nat): string
    requires unit > 0
  {
    Decimal(n / unit) + "." + Padded(n % unit, places)
  }

  function FormatFixed(x: real, places: nat): string
    requires places > 0
  {
    Sign(x) + FixedDigits(Parts(x, Pow10(places)), Pow10(places), places)
  }

  function WithSign(x: real, size: real): real
  {
    if x < 0.0 then -size else size
  }

  /** The amount a cell with `places` decimals stands for. */
  function Rounded(x: real, places: nat): real
  {
    WithSign(x, Parts(x, Pow10(places)) as real / Pow10(places) as real)
  }

  // ---- Round trips ----------------------------------------------------------------------

  lemma {:induction false} RunThenOther(digits: string, tail: string)
    requires AllDigits(digits) && (tail != [] ==> !IsDigit(tail[0]))
    ensures DigitRun(digits + tail) == |digits|
    ensures (digits + tail)[..|digits|] == digits && (digits + tail)[|digits|..] == tail
  {
    if digits == [] {
      assert digits + tail == tail;
    } else {
      assert (digits + tail)[1..] == digits[1..] + tail;
      RunThenOther(digits[1..], tail);
    }
  }

  lemma ScanAfterSign(sign: string, rest: string)
    requires sign == "" || sign == "-"
    requires rest != [] && IsDigit(rest[0])
    ensures SkipBlanks(sign + rest) == sign + rest && DropSign(sign + rest) == rest
    ensures IsNegative(sign + rest) <==> sign == "-"
  {
    if sign == "" {
      assert sign + rest == rest;
    } else {
      assert (sign + rest)[0] == '-' && (sign + rest)[1..] == rest;
    }
  }

  /** An integer cell reads back as the integer printed, whatever text follows its digits. */
  lemma IntRoundTrip(n: int, tail: string)
    requires tail != [] ==> !IsDigit(tail[0])
    ensures ScanInt(FormatInt(n) + tail) == Some(n)
  {
    hide Decimal, Value, DigitRun, SkipBlanks, DropSign, IsNegative;
    var size := if n < 0 then -n else n;
    var sign, digits := if n < 0 then "-" else "", Decimal(size);
    assert FormatInt(n) + tail == sign + (digits + tail);
    ScanAfterSign(sign, digits + tail);
    RunThenOther(digits, tail);
    DecimalValue(size);
  }

  lemma SplitQuotient(n: nat, unit: nat)
    requires unit > 0
    ensures (n / unit) as real + (n % unit) as real / unit as real == n as real / unit as real
  {
    var q, r, u := (n / unit) as real, (n % unit) as real, unit as real;
    assert n == (n / unit) * unit + n % unit;
    assert n as real == q * u + r;
    assert (q * u + r) / u == q + r / u;
  }

  lemma DigitsRoundTrip(sign: string, n: nat, places: nat)
    requires sign == "" || sign == "-"
    requires places > 0
    ensures var unit := Pow10(places);
            var size := n as real / unit as real;
            ScanAmount(sign + FixedDigits(n, unit, places)) == Some(if sign == "-" then -size else size)
  {
    hide Pow10, Value, Decimal, Padded, DigitRun, SkipBlanks, DropSign, IsNegative;
    var unit := Pow10(places);
    var whole, fraction := Decimal(n / unit), Padded(n % unit, places);
    var tail := "." + fraction;
    assert FixedDigits(n, unit, places) == whole + tail;
    ScanAfterSign(sign, whole + tail);
    RunThenOther(whole, tail);
    assert tail[1..] == fraction;
    assert fraction + [] == fraction;
    RunThenOther(fraction, []);
    DecimalValue(n / unit);
    PaddedValue(n % unit, places);
    SplitQuotient(n, unit);
  }

  /** An amount cell reads back as the amount it was rounded to. */
  lemma AmountRoundTrip(x: real, places: nat)
    requires places > 0
    ensures ScanAmount(FormatFixed(x, places)) == Some(Rounded(x, places))
  {
    hide ScanAmount, FixedDigits, Pow10, Parts;
    DigitsRoundTrip(Sign(x), Parts(x, Pow10(places)), places);
  }

  lemma NearInUnits(n: real, x: real, u: real)
    requires u > 0.0 && x * u - 0.5 <= n <= x * u + 0.5
    ensures -0.5 <= (n / u - x) * u <= 0.5
  {
    var q := n / u;
    assert q * u == n;
    assert (q - x) * u == q * u - x * u;
  }

  /** Rounding moves an amount by at most half a unit of its last place. */
  lemma RoundedIsNear(x: real, places: nat)
    ensures -0.5 <= (Rounded(x, places) - x) * Pow10(places) as real <= 0.5
  {
    hide Pow10, Parts;
    var u, n := Pow10(places) as real, Parts(x, Pow10(places)) as real;
    NearInUnits(n, Abs(x), u);
    var q := n / u;
    if x < 0.0 {
      assert (Rounded(x, places) - x) * u == -((q - Abs(x)) * u);
    }
  }

  lemma WholeStaysPut(n: nat)
    ensures NearestEven(n as real) == n
  {
  }

  lemma PartsOfParts(n: nat, unit: nat, x: real)
    requires unit > 0 && Abs(x) == n as real / unit as real
    ensures Parts(x, unit) == n
  {
    assert Abs(x) * unit as real == n as real;
    WholeStaysPut(n);
  }

  /** Rounding a rounded amount changes nothing. */
  lemma RoundedTwice(x: real, places: nat)
    ensures Rounded(Rounded(x, places), places) == Rounded(x, places)
  {
    hide Pow10, Parts;
    var unit := Pow10(places);
    var n := Parts(x, unit);
    var size := n as real / unit as real;
    assert size >= 0.0 by {
      QuotientNonNegative(n, unit);
    }
    PartsOfParts(n, unit, Rounded(x, places));
  }

  lemma QuotientNonNegative(n: nat, unit: nat)
    requires unit > 0
    ensures n as real / unit as real >= 0.0
    ensures n as real / unit as real == 0.0 ==> n == 0
  {
    var q, u := n as real / unit as real, unit as real;
    assert q * u == n as real;
  }
}
