/**
 * Go's strconv.ParseInt(s, 10, 64) and strconv.FormatInt(t, 10), which the
 * client uses to canonicalise the numeric fields of a response. Integers are
 * unbounded here; the 64-bit limits of the Go code are written out.
 */
module Strconv {
  import opened Wrappers

  const MaxUint64: int := 0xFFFF_FFFF_FFFF_FFFF
  const MaxInt64: int := 0x7FFF_FFFF_FFFF_FFFF
  const MinInt64: int := -0x8000_0000_0000_0000
  /** ParseUint's overflow guard for base 10: maxUint64 / 10 + 1. */
  const Cutoff: int := MaxUint64 / 10 + 1

  predicate InInt64(t: int) { MinInt64 <= t <= MaxInt64 }

  datatype NumError = ErrSyntax | ErrRange

  /** State of ParseUint's digit loop: the value so far, or the error that stopped it. */
  datatype Scan = Scanned(n: nat) | Stopped(err: NumError)

  /** Result of ParseInt: the value Go returns and the error it reports. */
  datatype IntResult = IntResult(value: int, err: Option<NumError>)

  predicate IsDigit(c: char) { '0' <= c <= '9' }

  predicate AllDigits(s: string) { forall i :: 0 <= i < |s| ==> IsDigit(s[i]) }

  function DigitValue(c: char): (d: nat)
    requires IsDigit(c)
    ensures d < 10
  {
    c as int - '0' as int
  }

  function DigitChar(d: nat): (c: char)
    requires d < 10
    ensures IsDigit(c) && DigitValue(c) == d
  {
    (d + '0' as int) as char
  }

  /**
   * One iteration of ParseUint's loop in base 10: a non-digit is a syntax
   * error; a value that would pass maxUint64 stops the loop with a range error
   * before the remaining characters are looked at.
   */
  function ScanStep(n: nat, c: char): Scan {
    if !IsDigit(c) then Stopped(ErrSyntax)
    else if n >= Cutoff then Stopped(ErrRange)
    else if n * 10 + DigitValue(c) > MaxUint64 then Stopped(ErrRange)
    else Scanned(n * 10 + DigitValue(c))
  }

  /** ParseUint's loop over all of `s`, left to right; the first error stops it. */
  function ScanDigits(s: string): Scan
    decreases |s|
  {
    if s == [] then Scanned(0)
    else
      match ScanDigits(s[..|s| - 1])
      case Stopped(e) => Stopped(e)
      case Scanned(n) => ScanStep(n, s[|s| - 1])
  }

  /** strconv.ParseUint(s, 10, 64): the empty string is a syntax error. */
  function ParseUint(s: string): Scan {
    if s == [] then Stopped(ErrSyntax) else ScanDigits(s)
  }

  /**
   * strconv.ParseInt(s, 10, 64): an optional sign, then ParseUint of the rest.
   * A syntax error yields 0; out-of-range values are clamped to the int64 bounds.
   */
  function ParseInt(s: string): (r: IntResult)
    ensures InInt64(r.value)
    ensures r.err == Some(ErrSyntax) ==> r.value == 0
  {
    if s == [] then IntResult(0, Some(ErrSyntax))
    else
      var neg := s[0] == '-';
      var digits := if s[0] == '+' || s[0] == '-' then s[1..] else s;
      match ParseUint(digits)
      case Stopped(ErrSyntax) => IntResult(0, Some(ErrSyntax))
      case Stopped(ErrRange) => SignedFromUint(neg, MaxUint64)
      case Scanned(un) => SignedFromUint(neg, un)
  }

  /** The tail of ParseInt: apply the sign to the unsigned value, clamping at the int64 bounds. */
  function SignedFromUint(neg: bool, un: nat): (r: IntResult)
    ensures InInt64(r.value)
  {
    if !neg && un > MaxInt64 then IntResult(MaxInt64, Some(ErrRange))
    else if neg && un > -MinInt64 then IntResult(MinInt64, Some(ErrRange))
    else IntResult(if neg then -(un as int) else un as int, None)
  }

  /** The decimal digits of `n`, most significant first, without leading zeros. */
  function Decimal(n: nat): (s: string)
    ensures |s| >= 1 && AllDigits(s)
    ensures s[0] == '0' <==> n == 0
    ensures n == 0 ==> s == "0"
    decreases n
  {
    if n < 10 then [DigitChar(n)] else Decimal(n / 10) + [DigitChar(n % 10)]
  }

  /** strconv.FormatInt(t, 10) (also what fmt's %d prints). */
  function FormatInt(t: int): string {
    if t < 0 then "-" + Decimal(-t) else Decimal(t)
  }

  /** The value of a string of decimal digits (any length, leading zeros allowed). */
  function DigitsValue(s: string): nat
    requires AllDigits(s)
    decreases |s|
  {
    if s == [] then 0 else DigitsValue(s[..|s| - 1]) * 10 + DigitValue(s[|s| - 1])
  }

  /** The shortest decimal form of an integer: `0`, or an optional `-` then a non-zero digit first. */
  predicate IsCanonical(s: string) {
    s == "0" ||
    (|s| >= 1 && s[0] != '-' && AllDigits(s) && s[0] != '0') ||
    (|s| >= 2 && s[0] == '-' && AllDigits(s[1..]) && s[1] != '0')
  }

  /** The value a canonical decimal string denotes. */
  function CanonicalValue(s: string): int
    requires IsCanonical(s)
  {
    if s[0] == '-' then -(DigitsValue(s[1..]) as int) else DigitsValue(s) as int
  }

  lemma {:induction false} DecimalValue(n: nat)
    ensures DigitsValue(Decimal(n)) == n
    decreases n
  {
    if n >= 10 {
      var d := Decimal(n);
      assert d[..|d| - 1] == Decimal(n / 10);
      DecimalValue(n / 10);
    }
  }

  /** FormatInt produces the canonical form of its argument. */
  lemma FormatIntCanonical(t: int)
    ensures IsCanonical(FormatInt(t)) && CanonicalValue(FormatInt(t)) == t
  {
    var s := FormatInt(t);
    if t < 0 {
      var d := Decimal(-t);
      assert s == "-" + d;
      assert s[1..] == d && s[1] == d[0];
      DecimalValue(-t);
      assert |s| >= 2 && s[0] == '-' && AllDigits(s[1..]) && s[1] != '0';
    } else {
      DecimalValue(t);
      assert s == Decimal(t);
      assert s == "0" || (|s| >= 1 && s[0] != '-' && AllDigits(s) && s[0] != '0');
    }
  }

  /** ParseUint's loop on a digit string computes its value, or a range error when it passes maxUint64. */
  lemma {:induction false} ScanAllDigits(s: string)
    requires AllDigits(s)
    ensures ScanDigits(s) == if DigitsValue(s) <= MaxUint64 then Scanned(DigitsValue(s)) else Stopped(ErrRange)
    decreases |s|
  {
    if s != [] {
      var p := s[..|s| - 1];
      assert AllDigits(p);
      ScanAllDigits(p);
    }
  }

  /** Every non-empty digit string, with an optional sign, parses to its value clamped to int64. */
  lemma ParseIntDigits(sign: string, s: string)
    requires sign == "" || sign == "+" || sign == "-"
    requires |s| >= 1 && AllDigits(s)
    ensures ParseInt(sign + s).value == Clamp(if sign == "-" then -(DigitsValue(s) as int) else DigitsValue(s) as int)
  {
    var w := sign + s;
    ScanAllDigits(s);
    var v := DigitsValue(s);
    assert ParseUint(s) == if v <= MaxUint64 then Scanned(v) else Stopped(ErrRange);
    if sign == "" {
      assert w == s && w[0] != '+' && w[0] != '-';
    } else {
      assert w[0] == sign[0] && w[1..] == s;
    }
    assert ParseInt(w) == SignedFromUint(sign == "-", if v <= MaxUint64 then v else MaxUint64);
  }

  function Clamp(v: int): (r: int)
    ensures InInt64(r)
  {
    if v > MaxInt64 then MaxInt64 else if v < MinInt64 then MinInt64 else v
  }

  /**
   * A character that is not a digit, after an optional sign and digits whose
   * value fits in 64 bits, makes ParseInt fail with a syntax error, so the value
   * is 0: this is what happens to fractional (`640.5`) and exponent (`1e3`) forms.
   * (Digits that overflow first stop the scan with a range error instead.)
   */
  lemma ParseIntNonDigit(sign: string, p: string, c: char, q: string)
    requires sign == "" || sign == "+" || sign == "-"
    requires AllDigits(p) && DigitsValue(p) <= MaxUint64 && !IsDigit(c)
    requires sign == "" && p == [] ==> c != '+' && c != '-'
    ensures ParseInt(sign + p + [c] + q) == IntResult(0, Some(ErrSyntax))
  {
    var w := sign + p + [c] + q;
    var rest := p + [c] + q;
    assert w[0] == if sign == "" then rest[0] else sign[0];
    assert (if w[0] == '+' || w[0] == '-' then w[1..] else w) == rest;
    ScanAllDigits(p);
    ScanStopsForever(p + [c], q);
  }

  /**
   * Digits that pass maxUint64 stop ParseUint with a range error before any
   * later character is read, so whatever follows them (a fraction, an
   * exponent, anything) the value is the int64 bound of the sign.
   */
  lemma ParseIntOverflowFirst(sign: string, p: string, q: string)
    requires sign == "" || sign == "+" || sign == "-"
    requires AllDigits(p) && DigitsValue(p) > MaxUint64
    ensures ParseInt(sign + p + q).value == if sign == "-" then MinInt64 else MaxInt64
  {
    var w := sign + p + q;
    var rest := p + q;
    assert p != [];
    assert w[0] == if sign == "" then rest[0] else sign[0];
    assert (if w[0] == '+' || w[0] == '-' then w[1..] else w) == rest;
    ScanAllDigits(p);
    ScanStopsForever(p, q);
  }

  /** Once ParseUint's loop has stopped, further characters do not change its outcome. */
  lemma {:induction false} ScanStopsForever(s: string, t: string)
    requires ScanDigits(s).Stopped?
    ensures ScanDigits(s + t) == ScanDigits(s)
    decreases |t|
  {
    if t == [] {
      assert s + t == s;
    } else {
      var u := s + t;
      assert u[..|u| - 1] == s + t[..|t| - 1];
      ScanStopsForever(s, t[..|t| - 1]);
    }
  }

  /** Parsing the output of FormatInt gives back the int64 value, without error. */
  lemma ParseFormatRoundTrip(t: int)
    requires InInt64(t)
    ensures ParseInt(FormatInt(t)) == IntResult(t, None)
  {
    var n: nat := if t < 0 then -t else t;
    var d := Decimal(n);
    DecimalValue(n);
    ScanAllDigits(d);
    assert ParseUint(d) == Scanned(n);
    if t < 0 {
      var w := "-" + d;
      assert w[0] == '-' && w[1..] == d;
      assert ParseInt(w) == SignedFromUint(true, n);
    } else {
      assert d[0] != '+' && d[0] != '-';
      assert ParseInt(d) == SignedFromUint(false, n);
    }
  }

  /** A digit string without a leading zero is the decimal form of its own value. */
  lemma {:induction false} DecimalOfDigits(d: string)
    requires |d| >= 1 && AllDigits(d) && (|d| == 1 || d[0] != '0')
    ensures Decimal(DigitsValue(d)) == d
    decreases |d|
  {
    var c := d[|d| - 1];
    assert DigitChar(DigitValue(c)) == c;
    if |d| > 1 {
      var p := d[..|d| - 1];
      assert AllDigits(p) && p[0] == d[0];
      DecimalOfDigits(p);
      assert DigitsValue(p) != 0;
      var n := DigitsValue(d);
      assert n / 10 == DigitsValue(p) && n % 10 == DigitValue(c);
      assert d == p + [c];
    }
  }

  /** A canonical string is exactly FormatInt of the value it denotes. */
  lemma CanonicalIsFormatted(s: string)
    requires IsCanonical(s)
    ensures FormatInt(CanonicalValue(s)) == s
  {
    if s[0] == '-' {
      DecimalOfDigits(s[1..]);
      assert s == "-" + s[1..];
    } else {
      DecimalOfDigits(s);
    }
  }

  /** ParseInt reads a canonical string within the int64 range as the value it denotes. */
  lemma ParseCanonical(s: string)
    requires IsCanonical(s) && InInt64(CanonicalValue(s))
    ensures ParseInt(s).value == CanonicalValue(s)
  {
    if s[0] == '-' {
      assert s == "-" + s[1..];
      ParseIntDigits("-", s[1..]);
    } else {
      assert s == "" + s;
      ParseIntDigits("", s);
    }
  }
}
