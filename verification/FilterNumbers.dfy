/** The numeric operands of filters, in 64-bit arithmetic that wraps around (core/filters.go:491-567). */
module FilterNumbers {
  import opened Prelude

  const TWO_63: int := 0x8000_0000_0000_0000
  const TWO_64: int := 0x1_0000_0000_0000_0000

  predicate IsDigit(c: char) { '0' <= c <= '9' }

  function DigitValue(c: char): nat
    requires IsDigit(c)
  {
    c as nat - '0' as nat
  }

  predicate AllDigits(s: string) { forall i :: 0 <= i < |s| ==> IsDigit(s[i]) }

  /** The number that a string of digits denotes, with no bound. */
  function Value(s: string): nat
    requires AllDigits(s)
  {
    if s == "" then 0 else 10 * Value(s[..|s| - 1]) + DigitValue(s[|s| - 1])
  }

  /** Digits, at least one, without a leading zero unless the number is zero. */
  predicate IsNumeral(s: string) { s != "" && AllDigits(s) && (s[0] == '0' ==> s == "0") }

  /** What 64 bits hold of the value of a string of digits. */
  function Wrapped(s: string): nat
    requires AllDigits(s)
  {
    Value(s) % TWO_64
  }

  /** The overflow test, `n2 < n` at every digit, never fires. */
  predicate NoWrapSeen(s: string)
    requires AllDigits(s)
  {
    forall k :: 0 <= k < |s| ==> Wrapped(s[..k]) <= Wrapped(s[..k + 1])
  }

  /** What parsing an unsigned operand yields, by the theorems below. */
  function Unsigned(s: string): Option<nat> {
    if IsNumeral(s) && NoWrapSeen(s) then Some(Wrapped(s)) else None
  }

  lemma WrappedStep(s: string, k: nat)
    requires AllDigits(s) && k < |s|
    ensures Wrapped(s[..k + 1]) == (Wrapped(s[..k]) * 10 % TWO_64 + DigitValue(s[k])) % TWO_64
  {
    var t := s[..k + 1];
    assert t[..|t| - 1] == s[..k];
    var v, d := Value(s[..k]), DigitValue(s[k]);
    assert Value(t) == 10 * v + d;
    ModStep(v, d);
  }

  lemma ModStep(v: nat, d: nat)
    ensures (10 * v + d) % TWO_64 == ((v % TWO_64) * 10 % TWO_64 + d) % TWO_64
  {
    var q, r := v / TWO_64, v % TWO_64;
    assert v == q * TWO_64 + r;
    var q2, r2 := (r * 10) / TWO_64, (r * 10) % TWO_64;
    assert r * 10 == q2 * TWO_64 + r2;
    ModUnique(10 * v + d, (10 * q + q2), r2 + d);
  }

  lemma ModUnique(a: nat, q: nat, b: nat)
    requires a == q * TWO_64 + b
    ensures a % TWO_64 == b % TWO_64
  {
    var qb, rb := b / TWO_64, b % TWO_64;
    assert a == (q + qb) * TWO_64 + rb;
    var qa, ra := a / TWO_64, a % TWO_64;
    assert (q + qb - qa) * TWO_64 == ra - rb;
  }

  lemma NoWrapPrefix(s: string, i: nat)
    requires AllDigits(s) && i <= |s| && NoWrapSeen(s)
    ensures NoWrapSeen(s[..i])
  {
    forall k | 0 <= k < i ensures Wrapped(s[..i][..k]) <= Wrapped(s[..i][..k + 1]) {
      assert s[..i][..k] == s[..k] && s[..i][..k + 1] == s[..k + 1];
    }
  }

  lemma NoWrapExtends(s: string, i: nat)
    requires i < |s| && AllDigits(s[..i + 1])
    ensures NoWrapSeen(s[..i + 1]) <==> NoWrapSeen(s[..i]) && Wrapped(s[..i]) <= Wrapped(s[..i + 1])
  {
    var t := s[..i + 1];
    assert t[..i] == s[..i] && t[..i + 1] == t;
    if NoWrapSeen(t) { NoWrapPrefix(t, i); assert Wrapped(t[..i]) <= Wrapped(t[..i + 1]); }
    if NoWrapSeen(s[..i]) {
      forall k | 0 <= k < i ensures Wrapped(t[..k]) <= Wrapped(t[..k + 1]) {
        assert s[..i][..k] == t[..k] && s[..i][..k + 1] == t[..k + 1];
      }
    }
  }

  /** What the loop does with one more digit. */
  lemma DigitStep(s: string, i: nat)
    requires i < |s| && AllDigits(s[..i + 1])
    ensures Wrapped(s[..i + 1]) == (Wrapped(s[..i]) * 10 % TWO_64 + DigitValue(s[i])) % TWO_64
  {
    var t := s[..i + 1];
    WrappedStep(t, i);
    assert t[..i] == s[..i] && t[..i + 1] == t;
  }

  lemma ZeroIsParsed()
    ensures Unsigned("0") == Some(0)
  {
    assert "0"[..0] == "" && "0"[..1] == "0";
    assert Value("0") == 0;
  }

  lemma WrapRejects(s: string, i: nat)
    requires i < |s| && AllDigits(s[..i + 1]) && Wrapped(s[..i + 1]) < Wrapped(s[..i])
    ensures Unsigned(s).None?
  {
  }

  /** The digit loop. The only error it can miss is a wrap-around that leaves a larger number. */
  method ParseUnsigned(s: string) returns (n: nat, ok: bool)
    ensures ok <==> Unsigned(s).Some?
    ensures n == if ok then Unsigned(s).value else 0
    ensures ok ==> n < TWO_64
  {
    if |s| == 0 {
      return 0, false;
    }
    if s == "0" {
      ZeroIsParsed();
      return 0, true;
    }
    n := 0;
    for i := 0 to |s|
      invariant AllDigits(s[..i]) && n == Wrapped(s[..i]) && n < TWO_64 && NoWrapSeen(s[..i])
      invariant i > 0 ==> s[0] != '0'
    {
      var c := s[i];
      if !IsDigit(c) || (i == 0 && c == '0') {
        return 0, false;
      }
      assert s[..i + 1] == s[..i] + [c];
      DigitStep(s, i);
      NoWrapExtends(s, i);
      var n2 := (n * 10 % TWO_64 + DigitValue(c)) % TWO_64;
      if n2 < n {
        WrapRejects(s, i);
        return 0, false;
      }
      n := n2;
    }
    assert s[..|s|] == s;
    return n, true;
  }

  // ---- Exactness ----------------------------------------------------------------------------------------

  lemma {:induction false} ValueGrows(s: string, k: nat)
    requires AllDigits(s) && k <= |s|
    ensures Value(s[..k]) <= Value(s)
    decreases |s|
  {
    if k == |s| {
      assert s[..k] == s;
    } else {
      assert s[..|s| - 1][..k] == s[..k];
      ValueGrows(s[..|s| - 1], k);
    }
  }

  lemma NoWrapInRange(s: string)
    requires AllDigits(s) && Value(s) < TWO_64
    ensures NoWrapSeen(s)
  {
    forall k | 0 <= k < |s| ensures Wrapped(s[..k]) <= Wrapped(s[..k + 1]) {
      ValueGrows(s, k + 1);
      assert s[..k + 1][..k] == s[..k];
      ValueGrows(s[..k + 1], k);
    }
  }

  /** An unsigned operand is accepted with its own value if and only if it is a numeral of 64 bits. */
  lemma UnsignedIsExactInRange(s: string)
    ensures (IsNumeral(s) && Value(s) < 0x1_0000_0000_0000_0000) <==>
            (Unsigned(s).Some? && IsNumeral(s) && Unsigned(s).value == Value(s))
  {
    if IsNumeral(s) && Value(s) < TWO_64 { NoWrapInRange(s); }
  }

  lemma {:induction false} ValueBound(s: string)
    requires AllDigits(s)
    ensures |s| <= 19 ==> Value(s) < 10_000_000_000_000_000_000
    ensures Value(s) < Pow10(|s|)
  {
    if s != "" { ValueBound(s[..|s| - 1]); }
    if |s| <= 19 { Pow10AtMost(|s|); }
  }

  function Pow10(n: nat): nat { if n == 0 then 1 else 10 * Pow10(n - 1) }

  lemma Pow10AtMost(n: nat)
    requires n <= 19
    ensures Pow10(n) <= 10_000_000_000_000_000_000
  {
    assert Pow10(5) == 100_000;
    assert Pow10(10) == 10_000_000_000;
    assert Pow10(15) == 1_000_000_000_000_000;
    assert Pow10(19) == 10_000_000_000_000_000_000;
    Pow10Grows(n, 19);
  }

  lemma {:induction false} Pow10Grows(m: nat, n: nat)
    requires m <= n
    ensures Pow10(m) <= Pow10(n)
    decreases n - m
  {
    if m < n { Pow10Grows(m + 1, n); }
  }

  /** Of any length: a numeral is rejected if and only if, from the twentieth digit on, some digit leaves less in 64
      bits than there was before it. One that is accepted is taken for what 64 bits hold of it. */
  lemma NumeralRejected(s: string)
    requires IsNumeral(s)
    ensures Unsigned(s).None? <==> exists k :: 19 <= k < |s| && Value(s[..k + 1]) % TWO_64 < Value(s[..k]) % TWO_64
    ensures Unsigned(s).Some? ==> Unsigned(s).value == Value(s) % TWO_64
  {
    if Unsigned(s).None? {
      var k :| 0 <= k < |s| && Wrapped(s[..k + 1]) < Wrapped(s[..k]);
      if k < 19 { FirstDigitsFit(s, k); }
      assert Value(s[..k + 1]) % TWO_64 < Value(s[..k]) % TWO_64;
    }
    if exists k :: 19 <= k < |s| && Value(s[..k + 1]) % TWO_64 < Value(s[..k]) % TWO_64 {
      var k :| 19 <= k < |s| && Value(s[..k + 1]) % TWO_64 < Value(s[..k]) % TWO_64;
      assert Wrapped(s[..k + 1]) < Wrapped(s[..k]);
    }
  }

  lemma FirstDigitsFit(s: string, k: nat)
    requires AllDigits(s) && k < |s| && k < 19
    ensures Wrapped(s[..k]) <= Wrapped(s[..k + 1])
  {
    ValueBound(s[..k + 1]);
    ValueGrows(s[..k + 1], k);
    assert s[..k + 1][..k] == s[..k];
  }

  /** A twenty-digit numeral out of range is rejected, as documented, if and only if what is left of
      it in 64 bits is less than its first nineteen digits. */
  lemma TwentyDigitsRejected(s: string)
    requires IsNumeral(s) && |s| == 20
    ensures Unsigned(s).None? <==> Value(s) % TWO_64 < Value(s) / 10
  {
    FirstNineteenDigits(s);
    assert s[..20] == s;
    NoWrapExtends(s, 19);
  }

  lemma FirstNineteenDigits(s: string)
    requires AllDigits(s) && |s| == 20
    ensures NoWrapSeen(s[..19]) && Wrapped(s[..19]) == Value(s) / 10
  {
    ValueBound(s[..19]);
    NoWrapInRange(s[..19]);
  }

  /** Thirty billion billions is not a 64-bit number, and is accepted as another one. */
  lemma OverflowIsMissed()
    ensures var s := "30000000000000000000";
            Unsigned(s) == Some(11_553_255_926_290_448_384) && Value(s) == 30_000_000_000_000_000_000
  {
    var s := "30000000000000000000";
    ThreeAndZeros(s, 1);
    ThreeAndZeros(s, 20);
    TwentyDigitsRejected(s);
    assert Pow10(5) == 100_000 && Pow10(10) == 10_000_000_000 && Pow10(15) == 1_000_000_000_000_000 && Pow10(19) == 10_000_000_000_000_000_000;
    assert s[..20] == s;
  }

  lemma {:induction false} ThreeAndZeros(s: string, k: nat)
    requires 1 <= k <= |s| && s[0] == '3' && forall i :: 1 <= i < |s| ==> s[i] == '0'
    ensures AllDigits(s) && Value(s[..k]) == 3 * Pow10(k - 1)
    decreases k
  {
    assert s[..k][..k - 1] == s[..k - 1];
    if k == 1 { assert s[..0] == ""; } else { ThreeAndZeros(s, k - 1); }
  }

  // ---- Printing -------------------------------------------------------------------------------------------

  function Digit(d: nat): char
    requires d < 10
  {
    ('0' as nat + d) as char
  }

  function Format(n: nat): string { if n < 10 then [Digit(n)] else Format(n / 10) + [Digit(n % 10)] }

  /** Printing a number and reading it back gives the number. */
  lemma {:induction false} FormatIsNumeral(n: nat)
    ensures IsNumeral(Format(n)) && Value(Format(n)) == n && (Format(n)[0] == '0' <==> n == 0)
  {
    var s := Format(n);
    if n < 10 {
      assert s[..0] == "";
    } else {
      FormatIsNumeral(n / 10);
      assert s[..|s| - 1] == Format(n / 10);
    }
  }

  lemma UnsignedRoundTrip(n: nat)
    requires n < TWO_64
    ensures Unsigned(Format(n)) == Some(n)
  {
    FormatIsNumeral(n);
    UnsignedIsExactInRange(Format(n));
  }

  // ---- Signed operands --------------------------------------------------------------------------------------

  /** The two's complement reading of the low 64 bits. */
  function ToInt64(x: int): int { (x + TWO_63) % TWO_64 - TWO_63 }

  predicate HasSign(s: string) { s != "" && (s[0] == '-' || s[0] == '+') }

  function Magnitude(s: string): string { if HasSign(s) then s[1..] else s }

  predicate Negative(s: string) { s != "" && s[0] == '-' }

  /** The number that an optional sign and a numeral denote, with no bound. */
  function SignedValue(s: string): int
    requires IsNumeral(Magnitude(s))
  {
    var v: int := Value(Magnitude(s));
    if Negative(s) then -v else v
  }

  /** What parsing a signed operand yields. */
  function Signed(s: string): Option<int> {
    match Unsigned(Magnitude(s))
    case None => None
    case Some(n) =>
      var v: int := n;
      if v <= (if Negative(s) then TWO_63 else TWO_63 - 1) then Some(if Negative(s) then -v else v) else None
  }

  method ParseInt(s: string) returns (v: int, ok: bool)
    ensures ok <==> Signed(s).Some?
    ensures v == if ok then Signed(s).value else 0
  {
    if |s| == 0 {
      assert Magnitude(s) == "";
      return 0, false;
    }
    if s == "0" {
      UnsignedRoundTrip(0);
      assert Format(0) == "0";
      return 0, true;
    }
    var sign := 1;
    var rest := s;
    if s[0] == '-' {
      sign := -1;
      rest := s[1..];
    } else if s[0] == '+' {
      rest := s[1..];
    }
    var un, valid := ParseUnsigned(rest);
    if !valid {
      return 0, false;
    }
    if sign < 0 && un > TWO_63 {
      return 0, false;
    }
    if sign > 0 && un > TWO_63 - 1 {
      return 0, false;
    }
    return ToInt64(sign * ToInt64(un)), true;
  }

  /** A signed operand is accepted with its own value if and only if it is a 64-bit number. */
  lemma SignedIsExactInRange(s: string)
    ensures (IsNumeral(Magnitude(s)) && -0x8000_0000_0000_0000 <= SignedValue(s) < 0x8000_0000_0000_0000) <==>
            (Signed(s).Some? && IsNumeral(Magnitude(s)) && Signed(s).value == SignedValue(s))
  {
    UnsignedIsExactInRange(Magnitude(s));
  }

  function FormatInt(v: int): string { if v < 0 then "-" + Format(-v) else Format(v) }

  lemma SignedRoundTrip(v: int)
    requires -TWO_63 <= v < TWO_63
    ensures Signed(FormatInt(v)) == Some(v)
  {
    var n := if v < 0 then -v else v;
    FormatIsNumeral(n);
    UnsignedRoundTrip(n);
    assert v < 0 ==> FormatInt(v)[1..] == Format(n);
    assert v >= 0 ==> IsDigit(Format(n)[0]);
  }

  // ---- Years ---------------------------------------------------------------------------------------------------

  const MIN_YEAR := 1
  const MAX_YEAR := 9999

  /** What parsing a year yields: one to four digits, leading zeros included, other than zero. */
  function Year(s: string): Option<nat> {
    if 1 <= |s| <= 4 && AllDigits(s) && MIN_YEAR <= Value(s) <= MAX_YEAR then Some(Value(s)) else None
  }

  lemma FourDigits(s: string)
    requires AllDigits(s) && |s| <= 4
    ensures Value(s) <= 9999
  {
    ValueBound(s);
    assert Pow10(0) == 1 && Pow10(1) == 10 && Pow10(2) == 100 && Pow10(3) == 1000 && Pow10(4) == 10_000;
  }

  method ParseYear(s: string) returns (year: nat, ok: bool)
    ensures ok <==> Year(s).Some?
    ensures year == if ok then Year(s).value else 0
    ensures ok <==> 1 <= |s| <= 4 && AllDigits(s) && Value(s) != 0
    ensures ok ==> year == Value(s)
  {
    if |s| == 0 || |s| > 4 {
      return 0, false;
    }
    if AllDigits(s) { FourDigits(s); }
    year := 0;
    for i := 0 to |s|
      invariant AllDigits(s[..i]) && year == Value(s[..i]) <= MAX_YEAR
    {
      if !IsDigit(s[i]) {
        return 0, false;
      }
      assert s[..i + 1][..i] == s[..i];
      year := year * 10 + DigitValue(s[i]);
      assert year == Value(s[..i + 1]);
      if year > MAX_YEAR {
        if AllDigits(s) { ValueGrows(s, i + 1); }
        return 0, false;
      }
    }
    assert s[..|s|] == s;
    if year < MIN_YEAR {
      return 0, false;
    }
    return year, true;
  }

  lemma {:induction false} FormatLength(n: nat, k: nat)
    requires k > 0 && n < Pow10(k)
    ensures 1 <= |Format(n)| <= k
  {
    if n >= 10 { FormatLength(n / 10, k - 1); }
  }

  lemma YearRoundTrip(y: nat)
    requires 1 <= y <= 9999
    ensures Year(Format(y)) == Some(y)
  {
    FormatIsNumeral(y);
    assert Pow10(1) == 10 && Pow10(2) == 100 && Pow10(3) == 1000 && Pow10(4) == 10_000;
    FormatLength(y, 4);
  }
}
