/** Go's base-10 integer parsing as `processRecord` uses it:
    `strconv.ParseInt(s, 10, 64)` for the timestamp and `strconv.Atoi` for the
    date columns. The functions follow the library's control flow (sign
    handling, the unsigned digit scan with its overflow test, the signed
    cutoff, and Atoi's fast path for short strings); `IsDecimal` and
    `DecimalValue` are the reference grammar they are proved against. */
module Strconv {
  import opened Wrappers
  import opened GoTypes

  /** `strconv.ErrSyntax` and `strconv.ErrRange`. */
  datatype NumErrKind = ErrSyntax | ErrRange

  /** `strconv.NumError`: the failing function, the input and the cause. */
  datatype NumError = NumError(fn: string, num: string, err: NumErrKind)

  const ParseIntFn: string := "ParseInt"
  const AtoiFn: string := "Atoi"

  // ---------------------------------------------------------------------
  // Reference grammar: an optional sign followed by one or more digits.

  predicate IsDigit(c: char) {
    '0' <= c <= '9'
  }

  function DigitOf(c: char): nat
    requires IsDigit(c)
  {
    (c as int) - ('0' as int)
  }

  predicate AllDigits(s: string) {
    forall i :: 0 <= i < |s| ==> IsDigit(s[i])
  }

  /** The value of a digit string, most significant digit first. */
  function DigitsValue(s: string): nat
    requires AllDigits(s)
  {
    if |s| == 0 then 0
    else 10 * DigitsValue(s[..|s| - 1]) + DigitOf(s[|s| - 1])
  }

  function Pow10(n: nat): nat {
    if n == 0 then 1 else 10 * Pow10(n - 1)
  }

  predicate HasSign(s: string) {
    |s| > 0 && (s[0] == '+' || s[0] == '-')
  }

  /** The text after an optional leading sign. */
  function Magnitude(s: string): string {
    if HasSign(s) then s[1..] else s
  }

  predicate IsDecimal(s: string) {
    |Magnitude(s)| > 0 && AllDigits(Magnitude(s))
  }

  function DecimalValue(s: string): int
    requires IsDecimal(s)
  {
    var m: int := DigitsValue(Magnitude(s));
    if |s| > 0 && s[0] == '-' then -m else m
  }

  predicate InInt64(v: int) {
    MinInt64 <= v <= MaxInt64
  }

  // ---------------------------------------------------------------------
  // The library's algorithms.

  /** The digit loop of `ParseUint` for base 10 and 64 bits: a non-digit is
      a syntax error, and an accumulator that would pass the largest uint64
      is a range error reported at once, before any later character is
      looked at. */
  function ScanDigits(s: string, i: nat, acc: uint64): Result<uint64, NumErrKind>
    requires i <= |s|
    decreases |s| - i
  {
    if i == |s| then Success(acc)
    else if !IsDigit(s[i]) then Failure(ErrSyntax)
    else if acc * 10 + DigitOf(s[i]) > MaxUint64 then Failure(ErrRange)
    else ScanDigits(s, i + 1, acc * 10 + DigitOf(s[i]))
  }

  /** `strconv.ParseUint(s, 10, 64)`, error kind only. */
  function ParseUint(s: string): Result<uint64, NumErrKind> {
    if |s| == 0 then Failure(ErrSyntax) else ScanDigits(s, 0, 0)
  }

  /** `strconv.ParseInt(s, 10, 64)`. A syntax error of the unsigned scan is
      returned as is; a range error of the scan saturates to the largest
      uint64 and is then caught by the signed cutoff, 2^63. */
  function ParseInt(s: string): Result<int64, NumError> {
    if |s| == 0 then Failure(NumError(ParseIntFn, s, ErrSyntax))
    else
      var neg := s[0] == '-';
      var u := ParseUint(Magnitude(s));
      if u.Failure? && u.error != ErrRange then Failure(NumError(ParseIntFn, s, u.error))
      else
        var un: int := if u.Success? then u.value else MaxUint64;
        if !neg && un >= 0x8000_0000_0000_0000 then Failure(NumError(ParseIntFn, s, ErrRange))
        else if neg && un > 0x8000_0000_0000_0000 then Failure(NumError(ParseIntFn, s, ErrRange))
        else Success(if neg then -un else un)
  }

  /** The digit loop of Atoi's fast path: no overflow test, since fewer than
      19 bytes cannot overflow. */
  function FastDigits(s: string, i: nat, n: nat): Result<nat, NumErrKind>
    requires i <= |s|
    decreases |s| - i
  {
    if i == |s| then Success(n)
    else if !IsDigit(s[i]) then Failure(ErrSyntax)
    else FastDigits(s, i + 1, n * 10 + DigitOf(s[i]))
  }

  /** `strconv.Atoi` on a 64-bit platform: strings of 1 to 18 characters take
      the fast path, all others go through `ParseInt(s, 10, 0)` with the
      error re-labelled as Atoi's. */
  function Atoi(s: string): Result<int64, NumError> {
    if 0 < |s| < 19 then
      var body := Magnitude(s);
      if |body| < 1 then Failure(NumError(AtoiFn, s, ErrSyntax))
      else
        match FastDigits(body, 0, 0)
        case Failure(k) => Failure(NumError(AtoiFn, s, k))
        case Success(n) =>
          FastDigitsSpec(body, 0, 0);
          DigitsValueBound(body);
          Pow10Monotone(|body|, 18);
          Pow10Values();
          var v: int := n;
          Success(if s[0] == '-' then -v else v)
    else
      ParseInt(s).MapFailure((e: NumError) => e.(fn := AtoiFn))
  }

  // ---------------------------------------------------------------------
  // Lemmas on the reference grammar.

  lemma {:induction false} Pow10Monotone(m: nat, n: nat)
    requires m <= n
    ensures Pow10(m) <= Pow10(n)
    decreases n - m
  {
    if m < n {
      Pow10Monotone(m + 1, n);
    }
  }

  /** The two powers that bound Atoi's fast path (18 digits never reach an
      int64 limit) and the unsigned scan (19 digits never pass uint64). */
  lemma Pow10Values()
    ensures Pow10(18) == 1_000_000_000_000_000_000
    ensures Pow10(19) == 10_000_000_000_000_000_000
  {
    assert Pow10(6) == 1_000_000;
    assert Pow10(12) == 1_000_000_000_000;
  }

  /** A digit string of length n denotes a value below 10^n. */
  lemma {:induction false} DigitsValueBound(s: string)
    requires AllDigits(s)
    ensures DigitsValue(s) < Pow10(|s|)
  {
    if |s| > 0 {
      DigitsValueBound(s[..|s| - 1]);
    }
  }

  /** Extending a digit prefix by one digit. */
  lemma DigitsValueStep(s: string, i: nat)
    requires i < |s| && AllDigits(s[..i + 1])
    ensures AllDigits(s[..i])
    ensures DigitsValue(s[..i + 1]) == 10 * DigitsValue(s[..i]) + DigitOf(s[i])
  {
    assert s[..i + 1][..i] == s[..i];
  }

  /** Values of digit prefixes never decrease. */
  lemma {:induction false} DigitsValuePrefix(s: string, i: nat)
    requires i <= |s| && AllDigits(s)
    ensures AllDigits(s[..i])
    ensures DigitsValue(s[..i]) <= DigitsValue(s)
    decreases |s| - i
  {
    if i == |s| {
      assert s[..i] == s;
    } else {
      DigitsValuePrefix(s, i + 1);
      DigitsValueStep(s, i);
    }
  }

  /** The arithmetic of one more digit after a shifted prefix. */
  lemma ShiftStep(x: int, p: int, y: int, d: int)
    ensures 10 * (x * p + y) + d == x * (10 * p) + (10 * y + d)
  {
  }

  /** Writing digits `b` after digits `a` shifts `a` left by |b| places. */
  lemma {:induction false} DigitsValueConcat(a: string, b: string)
    requires AllDigits(a) && AllDigits(b)
    ensures AllDigits(a + b)
    ensures DigitsValue(a + b) == DigitsValue(a) * Pow10(|b|) + DigitsValue(b)
  {
    if |b| == 0 {
      assert a + b == a;
    } else {
      var n := |b| - 1;
      var b' := b[..n];
      DigitsValueConcat(a, b');
      assert (a + b)[..|a + b| - 1] == a + b';
      assert (a + b)[|a + b| - 1] == b[n];
      var x, p, y, d := DigitsValue(a), Pow10(|b'|), DigitsValue(b'), DigitOf(b[n]);
      assert DigitsValue(a + b) == 10 * (x * p + y) + d;
      assert DigitsValue(b) == 10 * y + d;
      assert Pow10(|b|) == 10 * p;
      ShiftStep(x, p, y, d);
    }
  }

  // ---------------------------------------------------------------------
  // The algorithms against the reference grammar.

  /** The unsigned scan, started on a digit prefix whose value is in the
      accumulator, yields the value of the whole string exactly when the
      string is all digits and fits in a uint64; an all-digit string that
      does not fit is a range error; and a string of at most 19 characters
      can only fail with a syntax error. */
  lemma {:induction false} ScanDigitsSpec(s: string, i: nat, acc: uint64)
    requires i <= |s| && AllDigits(s[..i]) && acc == DigitsValue(s[..i])
    ensures var r := ScanDigits(s, i, acc);
      && (r.Success? <==> AllDigits(s) && DigitsValue(s) <= MaxUint64)
      && (r.Success? ==> r.value == DigitsValue(s))
      && (AllDigits(s) && DigitsValue(s) > MaxUint64 ==> r == Failure(ErrRange))
      && (|s| <= 19 && !AllDigits(s) ==> r == Failure(ErrSyntax))
    decreases |s| - i
  {
    if i == |s| {
      assert s[..i] == s;
    } else if !IsDigit(s[i]) {
    } else {
      assert AllDigits(s[..i + 1]);
      DigitsValueStep(s, i);
      var next := acc * 10 + DigitOf(s[i]);
      if next > MaxUint64 {
        if AllDigits(s) {
          DigitsValuePrefix(s, i + 1);
        }
        if |s| <= 19 {
          DigitsValueBound(s[..i + 1]);
          Pow10Monotone(i + 1, 19);
          Pow10Values();
        }
      } else {
        ScanDigitsSpec(s, i + 1, next);
      }
    }
  }

  /** `ParseUint` accepts exactly the non-empty digit strings that fit in
      64 bits, with their value. */
  lemma ParseUintSpec(s: string)
    ensures var r := ParseUint(s);
      && (r.Success? <==> |s| > 0 && AllDigits(s) && DigitsValue(s) <= MaxUint64)
      && (r.Success? ==> r.value == DigitsValue(s))
      && (|s| > 0 && AllDigits(s) && DigitsValue(s) > MaxUint64 ==> r == Failure(ErrRange))
      && (|s| <= 19 && !(|s| > 0 && AllDigits(s)) ==> r == Failure(ErrSyntax))
  {
    if |s| > 0 {
      assert s[..0] == [];
      ScanDigitsSpec(s, 0, 0);
    }
  }

  /** `ParseInt(s, 10, 64)` succeeds exactly on an optionally signed digit
      string whose value is an int64, and then returns that value; every
      error names ParseInt and the whole input; an in-grammar value outside
      int64 is a range error; and a short malformed input is a syntax
      error. */
  lemma ParseIntSpec(s: string)
    ensures var r := ParseInt(s);
      && (r.Success? <==> IsDecimal(s) && InInt64(DecimalValue(s)))
      && (r.Success? ==> r.value == DecimalValue(s))
      && (r.Failure? ==> r.error.fn == ParseIntFn && r.error.num == s)
      && (IsDecimal(s) && !InInt64(DecimalValue(s)) ==> r.error.err == ErrRange)
      && (!IsDecimal(s) && |s| <= 19 ==> r.error.err == ErrSyntax)
  {
    ParseUintSpec(Magnitude(s));
  }

  /** The fast-path loop computes the value of a digit string and rejects
      anything else as a syntax error. */
  lemma {:induction false} FastDigitsSpec(s: string, i: nat, n: nat)
    requires i <= |s| && AllDigits(s[..i]) && n == DigitsValue(s[..i])
    ensures var r := FastDigits(s, i, n);
      && (r.Success? <==> AllDigits(s))
      && (r.Success? ==> r.value == DigitsValue(s))
      && (r.Failure? ==> r.error == ErrSyntax)
    decreases |s| - i
  {
    if i == |s| {
      assert s[..i] == s;
    } else if IsDigit(s[i]) {
      assert AllDigits(s[..i + 1]);
      DigitsValueStep(s, i);
      FastDigitsSpec(s, i + 1, n * 10 + DigitOf(s[i]));
    } else {
      assert !AllDigits(s) by { assert !IsDigit(s[i]); }
    }
  }

  /** Atoi is ParseInt(s, 10, 64) in every outcome, value and error kind,
      except that its errors name Atoi: the fast path is an optimisation
      that changes no answer. */
  lemma AtoiIsParseInt(s: string)
    ensures Atoi(s).Success? <==> ParseInt(s).Success?
    ensures Atoi(s).Success? ==> Atoi(s).value == ParseInt(s).value
    ensures Atoi(s).Failure? ==> Atoi(s).error == ParseInt(s).error.(fn := AtoiFn)
  {
    ParseIntSpec(s);
    if 0 < |s| < 19 {
      var body := Magnitude(s);
      if |body| >= 1 {
        assert body[..0] == [];
        FastDigitsSpec(body, 0, 0);
        if AllDigits(body) {
          DigitsValueBound(body);
          Pow10Monotone(|body|, 18);
          Pow10Values();
        }
      }
    }
  }

  /** Atoi against the reference grammar: the date columns are accepted
      exactly when they are optionally signed decimal integers that fit in
      a 64-bit int, with no range check beyond that. */
  lemma AtoiSpec(s: string)
    ensures var r := Atoi(s);
      && (r.Success? <==> IsDecimal(s) && InInt64(DecimalValue(s)))
      && (r.Success? ==> r.value == DecimalValue(s))
      && (r.Failure? ==> r.error.fn == AtoiFn && r.error.num == s)
  {
    AtoiIsParseInt(s);
    ParseIntSpec(s);
  }
}
