/**
 * Decimal integers as Go's `strconv.Atoi` reads them and as `fmt`'s `%d` verb
 * writes them, on a platform whose `int` is 64 bits wide.
 *
 * `Atoi` has two paths: a fast path for strings of 1 to 18 bytes, and
 * `ParseInt(s, 10, 0)` for everything else. Both are modelled, and
 * `Atoi`'s contract is that they agree.
 */
module GoStrconv {
  import opened Wrappers

  const MinInt64: int := -0x8000_0000_0000_0000
  const MaxInt64: int := 0x7FFF_FFFF_FFFF_FFFF
  const MaxUint64: int := 0xFFFF_FFFF_FFFF_FFFF

  /** Go's `int` on a 64-bit platform. */
  type Int64 = x: int | MinInt64 <= x <= MaxInt64

  /** The two `Err` values of a `*strconv.NumError`. */
  datatype NumErrorKind = ErrSyntax | ErrRange

  predicate IsDigit(c: char) {
    '0' <= c <= '9'
  }

  function DigitValue(c: char): (d: nat)
    requires IsDigit(c)
    ensures d < 10
  {
    c as int - '0' as int
  }

  function DigitChar(d: nat): (c: char)
    requires d < 10
    ensures IsDigit(c) && DigitValue(c) == d
  {
    ('0' as int + d) as char
  }

  predicate AllDigits(s: string) {
    forall i :: 0 <= i < |s| ==> IsDigit(s[i])
  }

  function Pow10(n: nat): (p: nat)
    ensures p >= 1
  {
    if n == 0 then 1 else 10 * Pow10(n - 1)
  }

  /** The value of the digit string `s` read after the digits whose value is `acc`. */
  function Eval(s: string, acc: nat): nat
    requires AllDigits(s)
    decreases |s|
  {
    if s == [] then acc
    else
      Eval(s[1..], acc * 10 + DigitValue(s[0]))
  }

  // ---------------------------------------------------------------------------
  // The grammar Atoi accepts, stated independently of the scanning code.

  /** An optional `+` or `-` followed by one or more decimal digits. */
  predicate IsIntLiteral(s: string) {
    (|s| >= 1 && AllDigits(s)) ||
    (|s| >= 2 && (s[0] == '+' || s[0] == '-') && AllDigits(s[1..]))
  }

  function LiteralValue(s: string): int
    requires IsIntLiteral(s)
  {
    if s[0] == '-' then -(Eval(s[1..], 0) as int)
    else if s[0] == '+' then Eval(s[1..], 0)
    else Eval(s, 0)
  }

  /** Digits without a leading zero, or the single digit `0`. */
  predicate IsCanonicalNat(s: string) {
    |s| >= 1 && AllDigits(s) && (s[0] == '0' ==> s == "0")
  }

  /** The form `%d` writes: no `+`, no leading zero, and no `-0`. */
  predicate IsCanonicalLiteral(s: string) {
    IsCanonicalNat(s) || (|s| >= 2 && s[0] == '-' && IsCanonicalNat(s[1..]) && s[1] != '0')
  }

  /** A literal whose value fits Go's 64-bit `int`. */
  predicate IsInt64Literal(s: string) {
    IsIntLiteral(s) && MinInt64 <= LiteralValue(s) <= MaxInt64
  }

  // ---------------------------------------------------------------------------
  // Formatting: `fmt.Sprintf("%d", n)`.

  function FormatNat(n: nat): (s: string)
    ensures IsCanonicalNat(s)
    ensures s[0] == '0' <==> n == 0
  {
    if n < 10 then [DigitChar(n)] else FormatNat(n / 10) + [DigitChar(n % 10)]
  }

  /** Decimal rendering of `n`: a `-` for negative values, no sign otherwise, no leading zeros. */
  function FormatInt(n: int): (s: string)
    ensures IsCanonicalLiteral(s)
    ensures IsIntLiteral(s) && LiteralValue(s) == n
  {
    if n < 0 then
      assert ("-" + FormatNat(-n))[1..] == FormatNat(-n);
      FormatNatValue(-n);
      "-" + FormatNat(-n)
    else
      FormatNatValue(n);
      FormatNat(n)
  }

  /** `%d` is the only canonical rendering: a canonical literal is the rendering of its own value. */
  lemma CanonicalLiteralIsFormatInt(s: string)
    requires IsCanonicalLiteral(s)
    ensures IsIntLiteral(s) && s == FormatInt(LiteralValue(s))
  {
    if IsCanonicalNat(s) {
      CanonicalNatIsFormatNat(s);
    } else {
      var t := s[1..];
      assert s == "-" + t;
      CanonicalNatIsFormatNat(t);
      PositiveValue(t);
    }
  }

  /** Two canonical literals with the same value are the same text. */
  lemma CanonicalLiteralUnique(a: string, b: string)
    requires IsCanonicalLiteral(a) && IsCanonicalLiteral(b)
    requires IsIntLiteral(a) && IsIntLiteral(b) && LiteralValue(a) == LiteralValue(b)
    ensures a == b
  {
    CanonicalLiteralIsFormatInt(a);
    CanonicalLiteralIsFormatInt(b);
  }

  lemma PositiveValue(s: string)
    requires AllDigits(s) && |s| >= 1 && s[0] != '0'
    ensures Eval(s, 0) >= 1
  {
    EvalAtLeast(s[1..], DigitValue(s[0]));
  }

  lemma {:induction false} CanonicalNatIsFormatNat(s: string)
    requires IsCanonicalNat(s)
    ensures s == FormatNat(Eval(s, 0))
    decreases |s|
  {
    var p, c := s[..|s| - 1], s[|s| - 1];
    assert s == p + [c];
    EvalSnoc(p, c, 0);
    if |s| == 1 {
      assert Eval(s, 0) == DigitValue(c);
      assert DigitChar(DigitValue(c)) == c;
    } else {
      assert p[0] == s[0];
      PositiveValue(p);
      CanonicalNatIsFormatNat(p);
      var v := Eval(s, 0);
      assert v / 10 == Eval(p, 0) && v % 10 == DigitValue(c);
      assert DigitChar(DigitValue(c)) == c;
    }
  }

  // ---------------------------------------------------------------------------
  // Parsing: `strconv.ParseUint(s, 10, 64)` and `strconv.ParseInt(s, 10, 0)`.

  /**
   * The digit loop of ParseUint: a non-digit is a syntax error, and a digit that
   * takes the value past the largest uint64 is a range error reported at once,
   * before any later character is looked at.
   */
  function ScanDigits(s: string, acc: nat): Result<nat, NumErrorKind>
    decreases |s|
  {
    if s == [] then Success(acc)
    else if !IsDigit(s[0]) then Failure(ErrSyntax)
    else
      var n := acc * 10 + DigitValue(s[0]);
      if n > MaxUint64 then Failure(ErrRange) else ScanDigits(s[1..], n)
  }

  function ParseUint(s: string): Result<nat, NumErrorKind> {
    if s == [] then Failure(ErrSyntax) else ScanDigits(s, 0)
  }

  /**
   * ParseInt strips one sign and parses the rest as unsigned. A range error
   * from ParseUint stays a range error (ParseUint then returns the maximum,
   * which fails the signed bound check too).
   */
  function ParseInt(s: string): (r: Result<int, NumErrorKind>)
    ensures r.Success? <==> IsInt64Literal(s)
    ensures r.Success? ==> r.value == LiteralValue(s)
    ensures r == Failure(ErrSyntax) ==> !IsIntLiteral(s)
  {
    ParseIntMeaning(s);
    ParseIntRaw(s)
  }

  function ParseIntRaw(s: string): Result<int, NumErrorKind> {
    if s == [] then Failure(ErrSyntax)
    else
      var neg := s[0] == '-';
      var body := if s[0] == '+' || s[0] == '-' then s[1..] else s;
      match ParseUint(body)
      case Failure(k) => Failure(k)
      case Success(u) =>
        if !neg && u > MaxInt64 then Failure(ErrRange)
        else if neg && u > -MinInt64 then Failure(ErrRange)
        else Success(if neg then -(u as int) else u)
  }

  /** The digit loop of Atoi's fast path: no overflow check, since at most 18 digits are read. */
  function FastScan(s: string, acc: nat): Result<nat, NumErrorKind>
    decreases |s|
  {
    if s == [] then Success(acc)
    else if !IsDigit(s[0]) then Failure(ErrSyntax)
    else FastScan(s[1..], acc * 10 + DigitValue(s[0]))
  }

  function FastAtoi(s: string): Result<int, NumErrorKind>
    requires |s| > 0
  {
    var body := if s[0] == '-' || s[0] == '+' then s[1..] else s;
    if body == [] then Failure(ErrSyntax)
    else
      match FastScan(body, 0)
      case Failure(k) => Failure(k)
      case Success(n) => Success(if s[0] == '-' then -(n as int) else n)
  }

  /** `strconv.Atoi`: the fast path for 1 to 18 bytes, ParseInt otherwise; the two agree. */
  function Atoi(s: string): (r: Result<int, NumErrorKind>)
    ensures r == ParseInt(s)
    ensures r.Success? ==> MinInt64 <= r.value <= MaxInt64
  {
    if 0 < |s| < 19 then
      FastPathAgrees(s);
      FastAtoi(s)
    else ParseIntRaw(s)
  }

  // ---------------------------------------------------------------------------
  // Lemmas.

  lemma {:induction false} EvalSnoc(p: string, c: char, acc: nat)
    requires AllDigits(p) && IsDigit(c)
    ensures AllDigits(p + [c])
    ensures Eval(p + [c], acc) == Eval(p, acc) * 10 + DigitValue(c)
    decreases |p|
  {
    assert AllDigits(p + [c]) by {
      forall i | 0 <= i < |p + [c]| ensures IsDigit((p + [c])[i]) {
        if i < |p| { assert (p + [c])[i] == p[i]; }
      }
    }
    if p != [] {
      assert (p + [c])[1..] == p[1..] + [c];
      EvalSnoc(p[1..], c, acc * 10 + DigitValue(p[0]));
    }
  }

  lemma {:induction false} FormatNatValue(n: nat)
    ensures Eval(FormatNat(n), 0) == n
  {
    if n >= 10 {
      FormatNatValue(n / 10);
      EvalSnoc(FormatNat(n / 10), DigitChar(n % 10), 0);
    }
  }

  lemma {:induction false} EvalAtLeast(s: string, acc: nat)
    requires AllDigits(s)
    ensures Eval(s, acc) >= acc
    decreases |s|
  {
    if s != [] {
      EvalAtLeast(s[1..], acc * 10 + DigitValue(s[0]));
    }
  }

  lemma {:induction false} EvalBelow(s: string, acc: nat)
    requires AllDigits(s)
    ensures Eval(s, acc) < (acc + 1) * Pow10(|s|)
    decreases |s|
  {
    if s != [] {
      var n := acc * 10 + DigitValue(s[0]);
      EvalBelow(s[1..], n);
      NextDigitBound(acc, DigitValue(s[0]), |s| - 1);
    }
  }

  /** Reading digit `d` after `acc` keeps `(value + 1) * 10^k` within the bound before it, `(acc + 1) * 10^(k+1)`. */
  lemma NextDigitBound(acc: nat, d: nat, k: nat)
    requires d < 10
    ensures acc * 10 + d + 1 <= (acc * 10 + d + 1) * Pow10(k) <= (acc + 1) * Pow10(k + 1)
  {
    assert Pow10(k + 1) == 10 * Pow10(k);
    ScaleBound(acc * 10 + d + 1, acc + 1, Pow10(k));
  }

  lemma ScaleBound(m: nat, a: nat, p: nat)
    requires 1 <= m <= 10 * a && p >= 1
    ensures m <= m * p <= a * (10 * p)
  {
    assert m * p == m + m * (p - 1);
    assert a * (10 * p) == (10 * a) * p;
    assert (10 * a) * p == m * p + (10 * a - m) * p;
  }

  /** On a digit string, ParseUint's loop succeeds exactly when the value fits in a uint64. */
  lemma {:induction false} ScanDigitsAllDigits(s: string, acc: nat)
    requires AllDigits(s) && acc <= MaxUint64
    ensures ScanDigits(s, acc) == if Eval(s, acc) <= MaxUint64 then Success(Eval(s, acc)) else Failure(ErrRange)
    decreases |s|
  {
    if s != [] {
      assert IsDigit(s[0]);
      var n := acc * 10 + DigitValue(s[0]);
      assert Eval(s, acc) == Eval(s[1..], n);
      if n > MaxUint64 {
        EvalAtLeast(s[1..], n);
        assert ScanDigits(s, acc) == Failure(ErrRange);
      } else {
        assert ScanDigits(s, acc) == ScanDigits(s[1..], n);
        ScanDigitsAllDigits(s[1..], n);
      }
    }
  }

  /** A string with a non-digit never scans successfully. */
  lemma {:induction false} ScanDigitsNonDigit(s: string, acc: nat)
    requires !AllDigits(s)
    ensures ScanDigits(s, acc).Failure?
    decreases |s|
  {
    if IsDigit(s[0]) {
      assert !AllDigits(s[1..]) by {
        var i :| 0 <= i < |s| && !IsDigit(s[i]);
        assert s[1..][i - 1] == s[i];
      }
      var n := acc * 10 + DigitValue(s[0]);
      if n <= MaxUint64 { ScanDigitsNonDigit(s[1..], n); }
    }
  }

  /** While the digits left cannot overflow, the checked loop and the fast loop agree. */
  lemma {:induction false} ScanDigitsShort(s: string, acc: nat)
    requires (acc + 1) * Pow10(|s|) <= MaxUint64 + 1
    ensures ScanDigits(s, acc) == FastScan(s, acc)
    decreases |s|
  {
    if s != [] && IsDigit(s[0]) {
      var n := acc * 10 + DigitValue(s[0]);
      NextDigitBound(acc, DigitValue(s[0]), |s| - 1);
      ScanDigitsShort(s[1..], n);
    }
  }

  lemma {:induction false} FastScanMeaning(s: string, acc: nat)
    ensures AllDigits(s) ==> FastScan(s, acc) == Success(Eval(s, acc))
    ensures !AllDigits(s) ==> FastScan(s, acc) == Failure(ErrSyntax)
    decreases |s|
  {
    if s != [] {
      if IsDigit(s[0]) {
        assert AllDigits(s) <==> AllDigits(s[1..]) by {
          if AllDigits(s[1..]) {
            forall i | 0 <= i < |s| ensures IsDigit(s[i]) { if i > 0 { assert s[i] == s[1..][i - 1]; } }
          }
        }
        FastScanMeaning(s[1..], acc * 10 + DigitValue(s[0]));
      }
    }
  }

  lemma {:induction false} Pow10Monotone(m: nat, n: nat)
    requires m <= n
    ensures Pow10(m) <= Pow10(n)
    decreases n
  {
    if m < n { Pow10Monotone(m, n - 1); }
  }

  lemma Pow10Of18()
    ensures Pow10(18) == 1_000_000_000_000_000_000
  {
    assert Pow10(3) == 1000;
    assert Pow10(6) == 1000 * Pow10(3) by { Pow10Add(3, 3); }
    assert Pow10(9) == 1000 * Pow10(6) by { Pow10Add(6, 3); }
    assert Pow10(18) == Pow10(9) * Pow10(9) by { Pow10Add(9, 9); }
  }

  lemma {:induction false} Pow10Add(m: nat, n: nat)
    ensures Pow10(m + n) == Pow10(m) * Pow10(n)
    decreases n
  {
    if n > 0 {
      Pow10Add(m, n - 1);
      assert Pow10(m + n) == 10 * Pow10(m + n - 1);
    }
  }

  /** Atoi's fast path returns what ParseInt returns, errors included. */
  lemma FastPathAgrees(s: string)
    requires 0 < |s| < 19
    ensures FastAtoi(s) == ParseIntRaw(s)
  {
    var body := if s[0] == '-' || s[0] == '+' then s[1..] else s;
    Pow10Monotone(|body|, 18);
    Pow10Of18();
    if body != [] {
      ScanDigitsShort(body, 0);
      FastScanMeaning(body, 0);
      if AllDigits(body) {
        EvalBelow(body, 0);
      }
    }
  }

  /** ParseInt accepts exactly the in-range literals, with their value. */
  lemma ParseIntMeaning(s: string)
    ensures ParseIntRaw(s).Success? <==> IsInt64Literal(s)
    ensures ParseIntRaw(s).Success? ==> ParseIntRaw(s).value == LiteralValue(s)
    ensures ParseIntRaw(s) == Failure(ErrSyntax) ==> !IsIntLiteral(s)
  {
    if s != [] {
      var body := if s[0] == '+' || s[0] == '-' then s[1..] else s;
      if s[0] == '+' || s[0] == '-' {
        assert IsIntLiteral(s) <==> body != [] && AllDigits(body);
      } else {
        assert IsIntLiteral(s) <==> AllDigits(body);
      }
      if body != [] {
        if AllDigits(body) {
          ScanDigitsAllDigits(body, 0);
        } else {
          ScanDigitsNonDigit(body, 0);
        }
      }
    }
  }

  /** Reading back what `%d` wrote gives the same integer, for every 64-bit int. */
  lemma AtoiFormatInt(n: int)
    requires MinInt64 <= n <= MaxInt64
    ensures Atoi(FormatInt(n)) == Success(n)
  {
  }
}
