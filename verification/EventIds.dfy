/** Event identifiers: RFC 3339 timestamps with a trimmed fraction, compared as strings. */
module EventIds {

  /** String comparison, character by character. */
  predicate Less(a: string, b: string) {
    b != [] && (a == [] || a[0] < b[0] || (a[0] == b[0] && Less(a[1..], b[1..])))
  }

  function Digit(n: nat): char {
    ((n % 10) + '0' as int) as char
  }

  /** The last `width` decimal digits of n. */
  function Padded(n: nat, width: nat): (s: string)
    ensures |s| == width && forall i | 0 <= i < width :: '0' <= s[i] <= '9'
  {
    if width == 0 then [] else Padded(n / 10, width - 1) + [Digit(n)]
  }

  /** Without trailing zeros. */
  function Trim(s: string): (t: string)
    ensures t <= s && (t != [] ==> t[|t| - 1] != '0') && forall i | |t| <= i < |s| :: s[i] == '0'
  {
    if s == [] || s[|s| - 1] != '0' then s else Trim(s[..|s| - 1])
  }

  const NANO_DIGITS := 9

  function Fraction(nanos: nat): string {
    Trim(Padded(nanos, NANO_DIGITS))
  }

  /** time.RFC3339Nano in UTC; `second` is the rendering up to the whole second. */
  function EventId(second: string, nanos: nat): string {
    second + (if Fraction(nanos) == [] then "Z" else "." + Fraction(nanos) + "Z")
  }

  function Pow10(n: nat): nat {
    if n == 0 then 1 else 10 * Pow10(n - 1)
  }

  // ---- String order -----------------------------------------------------------------

  /** The first difference decides. */
  lemma {:induction false} DifferenceDecides(a: string, b: string, i: nat)
    requires i < |a| && i < |b| && a[..i] == b[..i] && a[i] != b[i]
    ensures Less(a, b) <==> a[i] < b[i]
  {
    if i > 0 {
      assert a[0] == a[..i][0] == b[0];
      assert a[1..][..i - 1] == a[..i][1..] == b[1..][..i - 1];
      DifferenceDecides(a[1..], b[1..], i - 1);
    }
  }

  lemma {:induction false} FindDifference(a: string, b: string) returns (i: nat)
    requires !(a <= b) && !(b <= a)
    ensures i < |a| && i < |b| && a[..i] == b[..i] && a[i] != b[i]
  {
    i := 0;
    while i < |a| && i < |b| && a[i] == b[i]
      invariant i <= |a| && i <= |b| && a[..i] == b[..i]
    {
      i := i + 1;
    }
  }

  lemma {:induction false} AppendLess(a: string, b: string, c: char, d: char)
    requires |a| == |b|
    ensures Less(a + [c], b + [d]) <==> Less(a, b) || (a == b && c < d)
  {
    if a != [] {
      assert (a + [c])[1..] == a[1..] + [c] && (b + [d])[1..] == b[1..] + [d];
      AppendLess(a[1..], b[1..], c, d);
      assert a == b <==> a[0] == b[0] && a[1..] == b[1..];
    }
  }

  lemma {:induction false} PaddedInjective(m: nat, n: nat, width: nat)
    requires m < Pow10(width) && n < Pow10(width)
    ensures Padded(m, width) == Padded(n, width) <==> m == n
  {
    if width > 0 {
      PaddedInjective(m / 10, n / 10, width - 1);
      var a, b := Padded(m, width), Padded(n, width);
      assert a[..width - 1] == Padded(m / 10, width - 1) && b[..width - 1] == Padded(n / 10, width - 1);
      assert a[width - 1] == Digit(m) && b[width - 1] == Digit(n);
    }
  }

  /** Numbers of equal width compare as their digit strings do. */
  lemma {:induction false} PaddedOrder(m: nat, n: nat, width: nat)
    requires m < Pow10(width) && n < Pow10(width)
    ensures Less(Padded(m, width), Padded(n, width)) <==> m < n
  {
    if width > 0 {
      PaddedOrder(m / 10, n / 10, width - 1);
      PaddedInjective(m / 10, n / 10, width - 1);
      AppendLess(Padded(m / 10, width - 1), Padded(n / 10, width - 1), Digit(m), Digit(n));
    }
  }

  /** A string of zeros from i on is below any other digit string with the same start. */
  lemma {:induction false} ZerosBelow(a: string, b: string, i: nat)
    requires |a| == |b| && i <= |a| && a[..i] == b[..i] && a != b
    requires forall k | i <= k < |a| :: a[k] == '0'
    requires forall k | 0 <= k < |b| :: '0' <= b[k]
    ensures Less(a, b)
    decreases |a| - i
  {
    assert a[..|a|] == a && b[..|b|] == b;
    if a[i] == b[i] {
      assert a[..i + 1] == a[..i] + [a[i]] && b[..i + 1] == b[..i] + [b[i]];
      ZerosBelow(a, b, i + 1);
    } else {
      DifferenceDecides(a, b, i);
    }
  }

  // ---- Identifier order versus time order -------------------------------------------------

  /** A fraction that extends another one is later in time ... */
  lemma ExtensionIsLater(x: nat, y: nat)
    requires x < Pow10(NANO_DIGITS) && y < Pow10(NANO_DIGITS) && Fraction(x) < Fraction(y)
    ensures x < y
  {
    var f, g := Fraction(x), Fraction(y);
    var a, b := Padded(x, NANO_DIGITS), Padded(y, NANO_DIGITS);
    assert a[..|f|] == f && b[..|g|] == g && b[..|f|] == g[..|f|] == f;
    assert b[|g| - 1] != '0' && a[|g| - 1] == '0';
    ZerosBelow(a, b, |f|);
    PaddedOrder(x, y, NANO_DIGITS);
  }

  /** ... but its identifier is the smaller string, because 'Z' follows every digit and '.'. */
  lemma ExtensionSortsBefore(second: string, x: nat, y: nat)
    requires Fraction(x) < Fraction(y)
    ensures Less(EventId(second, y), EventId(second, x)) && !Less(EventId(second, x), EventId(second, y))
  {
    var f, g := Fraction(x), Fraction(y);
    var a, b := EventId(second, x), EventId(second, y);
    var i := |second| + (if f == [] then 0 else 1 + |f|);
    assert g[|f|] == Padded(y, NANO_DIGITS)[|f|];
    assert a[i] == 'Z' && b[i] == (if f == [] then '.' else g[|f|]) && a[..i] == b[..i];
    DifferenceDecides(a, b, i);
    DifferenceDecides(b, a, i);
  }

  /** Fractions that differ before either ends compare like the times. */
  lemma DifferenceAgrees(second: string, x: nat, y: nat)
    requires x < Pow10(NANO_DIGITS) && y < Pow10(NANO_DIGITS)
    requires !(Fraction(x) <= Fraction(y)) && !(Fraction(y) <= Fraction(x))
    ensures Less(EventId(second, x), EventId(second, y)) <==> x < y
  {
    var f, g := Fraction(x), Fraction(y);
    var i := FindDifference(f, g);
    var a, b := Padded(x, NANO_DIGITS), Padded(y, NANO_DIGITS);
    assert a[..i] == f[..i] && b[..i] == g[..i] && a[i] == f[i] && b[i] == g[i];
    DifferenceDecides(a, b, i);
    PaddedOrder(x, y, NANO_DIGITS);
    SameAfterDot(second, f, g, i);
  }

  lemma SameAfterDot(second: string, f: string, g: string, i: nat)
    requires i < |f| && i < |g| && f[..i] == g[..i] && f[i] != g[i]
    ensures Less(second + ("." + f + "Z"), second + ("." + g + "Z")) <==> f[i] < g[i]
  {
    var a, b, k := second + ("." + f + "Z"), second + ("." + g + "Z"), |second| + 1 + i;
    assert a[k] == f[i] && b[k] == g[i];
    assert a[..k] == second + "." + f[..i] && b[..k] == second + "." + g[..i];
    DifferenceDecides(a, b, k);
  }

  lemma {:induction false} Irreflexive(a: string)
    ensures !Less(a, a)
  {
    if a != [] {
      Irreflexive(a[1..]);
    }
  }

  /** Within a second the identifiers sort like the times exactly when neither trimmed fraction is a
      proper prefix of the other. */
  lemma IdOrderIsTimeOrder(second: string, x: nat, y: nat)
    requires x < Pow10(NANO_DIGITS) && y < Pow10(NANO_DIGITS)
    ensures (Less(EventId(second, x), EventId(second, y)) <==> x < y) &&
            (Less(EventId(second, y), EventId(second, x)) <==> y < x)
            <==> !(Fraction(x) < Fraction(y)) && !(Fraction(y) < Fraction(x))
  {
    if Fraction(x) == Fraction(y) {
      EqualFractions(x, y);
      Irreflexive(EventId(second, x));
    } else if Fraction(x) < Fraction(y) {
      ExtensionIsLater(x, y);
      ExtensionSortsBefore(second, x, y);
    } else if Fraction(y) < Fraction(x) {
      ExtensionIsLater(y, x);
      ExtensionSortsBefore(second, y, x);
    } else {
      DifferenceAgrees(second, x, y);
      DifferenceAgrees(second, y, x);
    }
  }

  lemma EqualFractions(x: nat, y: nat)
    requires x < Pow10(NANO_DIGITS) && y < Pow10(NANO_DIGITS) && Fraction(x) == Fraction(y)
    ensures x == y
  {
    var a, b := Padded(x, NANO_DIGITS), Padded(y, NANO_DIGITS);
    assert forall i | 0 <= i < |Fraction(x)| :: a[i] == Fraction(x)[i] == b[i];
    assert a == b;
    PaddedInjective(x, y, NANO_DIGITS);
  }

  /** Across seconds rendered in the same width, the seconds decide. */
  lemma SecondsDecide(s: string, t: string, x: nat, y: nat)
    requires |s| == |t| && s != t
    ensures Less(EventId(s, x), EventId(t, y)) <==> Less(s, t)
  {
    var i := FindDifference(s, t);
    var a, b := EventId(s, x), EventId(t, y);
    assert a[..i] == s[..i] && b[..i] == t[..i] && a[i] == s[i] && b[i] == t[i];
    DifferenceDecides(a, b, i);
    DifferenceDecides(s, t, i);
  }

  // ---- Reading identifiers back ------------------------------------------------------------

  /** The nanoseconds of an instant within its second. */
  type Nanos = n: nat | n < 1_000_000_000

  predicate AllDigits(s: string) {
    forall i | 0 <= i < |s| :: '0' <= s[i] <= '9'
  }

  function DigitsValue(s: string): nat
    requires AllDigits(s)
  {
    if s == [] then 0 else 10 * DigitsValue(s[..|s| - 1]) + (s[|s| - 1] as int - '0' as int)
  }

  lemma {:induction false} PaddedValue(n: nat, width: nat)
    requires n < Pow10(width)
    ensures DigitsValue(Padded(n, width)) == n
  {
    if width > 0 {
      PaddedValue(n / 10, width - 1);
      assert Padded(n, width)[..width - 1] == Padded(n / 10, width - 1);
    }
  }

  lemma {:induction false} TrimValue(s: string)
    requires AllDigits(s)
    ensures AllDigits(Trim(s)) && DigitsValue(s) == DigitsValue(Trim(s)) * Pow10(|s| - |Trim(s)|)
  {
    if s != [] && s[|s| - 1] == '0' {
      var front := s[..|s| - 1];
      TrimValue(front);
      assert Trim(s) == Trim(front);
      hide Trim, DigitsValue;
      TenMore(DigitsValue(Trim(front)), |front| - |Trim(front)|);
      ZeroMore(s);
    } else {
      hide DigitsValue;
      assert Pow10(0) == 1;
    }
  }

  lemma TenMore(v: nat, k: nat)
    ensures v * Pow10(k + 1) == 10 * (v * Pow10(k))
  {
  }

  lemma ZeroMore(s: string)
    requires AllDigits(s) && s != [] && s[|s| - 1] == '0'
    ensures DigitsValue(s) == 10 * DigitsValue(s[..|s| - 1])
  {
  }

  /** An identifier is the second, then the nanoseconds as a decimal fraction without trailing zeros
      unless they are zero, then Z. */
  lemma IdReadsBack(second: string, n: Nanos)
    ensures EventId(second, n) == second + (if n == 0 then "Z" else "." + Fraction(n) + "Z")
    ensures |Fraction(n)| <= 9 && AllDigits(Fraction(n)) && DigitsValue(Fraction(n)) * Pow10(9 - |Fraction(n)|) == n
    ensures n != 0 ==> Fraction(n) != [] && Fraction(n)[|Fraction(n)| - 1] != '0'
  {
    hide Trim, Padded, Pow10;
    NanosFit(n);
    PaddedValue(n, 9);
    TrimValue(Padded(n, 9));
    if n == 0 && Fraction(n) != [] {
      LastDigitCounts(Fraction(n));
      PowPositive(9 - |Fraction(n)|);
      Positive(DigitsValue(Fraction(n)), Pow10(9 - |Fraction(n)|));
    }
  }

  lemma NanosFit(n: Nanos)
    ensures n < Pow10(NANO_DIGITS) && NANO_DIGITS == 9
  {
    assert Pow10(3) == 1000;
    assert Pow10(6) == 1_000_000;
  }

  lemma {:induction false} PowPositive(n: nat)
    ensures Pow10(n) > 0
  {
    if n > 0 {
      PowPositive(n - 1);
    }
  }

  lemma Positive(a: nat, b: nat)
    requires a > 0 && b > 0
    ensures a * b > 0
  {
  }

  lemma LastDigitCounts(s: string)
    requires AllDigits(s) && s != [] && s[|s| - 1] != '0'
    ensures DigitsValue(s) > 0
  {
  }
}
