/**
 * Decimal integers as Go's `strconv` reads and `fmt` writes them:
 * `ParseUint(s, 10, 64)`, `ParseInt(s, 10, 64)` and the `%d` verb.
 */
module Decimal {
  import opened MachineInt

  /** The three ways a Go integer parse can end. */
  datatype ParseResult = Parsed(n: int) | SyntaxError | RangeError

  predicate IsDigit(c: char) { '0' <= c <= '9' }

  predicate AllDigits(s: string) {
    forall i :: 0 <= i < |s| ==> IsDigit(s[i])
  }

  function DigitValue(c: char): nat
    requires IsDigit(c)
  {
    c as int - '0' as int
  }

  function DigitChar(d: nat): (c: char)
    requires d < 10
    ensures IsDigit(c) && DigitValue(c) == d
  {
    ('0' as int + d) as char
  }

  /** The number a string of decimal digits denotes, read most significant first. */
  function DigitsValue(s: string): nat
    requires AllDigits(s)
    decreases |s|
  {
    if |s| == 0 then 0
    else DigitsValue(s[..|s| - 1]) * 10 + DigitValue(s[|s| - 1])
  }

  /**
   * Go's digit loop: left to right, a non-digit is a syntax error and the
   * first digit that takes the accumulator past 2^64 - 1 is a range error,
   * whichever comes first.
   */
  function ScanU64(s: string, i: nat, acc: u64): (r: ParseResult)
    requires i <= |s|
    ensures r.Parsed? ==> 0 <= r.n <= MaxU64
    decreases |s| - i
  {
    if i == |s| then Parsed(acc)
    else if !IsDigit(s[i]) then SyntaxError
    else
      var n := acc * 10 + DigitValue(s[i]);
      if n > MaxU64 then RangeError else ScanU64(s, i + 1, n)
  }

  /** `strconv.ParseUint(s, 10, 64)`. */
  function ParseUint(s: string): (r: ParseResult)
    ensures r.Parsed? ==> 0 <= r.n <= MaxU64
  {
    if |s| == 0 then SyntaxError else ScanU64(s, 0, 0)
  }

  /** `strconv.ParseInt(s, 10, 64)`: an optional sign, then `ParseUint`'s digits within int64. */
  function ParseInt(s: string): ParseResult {
    if |s| == 0 then SyntaxError
    else
      var neg := s[0] == '-';
      var body := if s[0] == '+' || s[0] == '-' then s[1..] else s;
      match ParseUint(body)
      case SyntaxError => SyntaxError
      case RangeError => RangeError
      case Parsed(u) =>
        if !neg && u >= TwoTo63 then RangeError
        else if neg && u > TwoTo63 then RangeError
        else Parsed(if neg then -u else u)
  }

  /** The value Go returns next to the error: 0 after a syntax error, the maximum after a range error. */
  function U64ValueOf(r: ParseResult): int {
    match r
    case Parsed(n) => n
    case SyntaxError => 0
    case RangeError => MaxU64
  }

  /** Decimal rendering of a natural number, no leading zeros. */
  function FormatNat(n: nat): (s: string)
    ensures |s| >= 1 && AllDigits(s)
    decreases n
  {
    if n < 10 then [DigitChar(n)] else FormatNat(n / 10) + [DigitChar(n % 10)]
  }

  /** `fmt`'s `%d` of a signed integer. */
  function FormatInt(n: int): (s: string)
    ensures |s| >= 1
    ensures n < 0 <==> s[0] == '-'
    ensures ',' !in s && '}' !in s && ' ' !in s
  {
    if n < 0 then "-" + FormatNat(-n) else FormatNat(n)
  }

  lemma {:induction false} DigitsValueFormat(n: nat)
    ensures DigitsValue(FormatNat(n)) == n
    decreases n
  {
    if n >= 10 {
      DigitsValueFormat(n / 10);
      var s := FormatNat(n);
      assert s[..|s| - 1] == FormatNat(n / 10);
    }
  }

  /** A digit prefix never denotes more than the whole digit string. */
  lemma {:induction false} DigitsValuePrefix(s: string, j: nat)
    requires AllDigits(s) && j <= |s|
    ensures DigitsValue(s[..j]) <= DigitsValue(s)
    decreases |s| - j
  {
    if j < |s| {
      var t := s[..|s| - 1];
      assert t[..j] == s[..j];
      DigitsValuePrefix(t, j);
    } else {
      assert s[..j] == s;
    }
  }

  lemma {:induction false} ScanAllDigits(s: string, i: nat, acc: u64)
    requires AllDigits(s) && i <= |s|
    requires acc == DigitsValue(s[..i])
    ensures ScanU64(s, i, acc) ==
      (if DigitsValue(s) <= MaxU64 then Parsed(DigitsValue(s)) else RangeError)
    decreases |s| - i
  {
    if i == |s| {
      assert s[..i] == s;
    } else {
      var n := acc * 10 + DigitValue(s[i]);
      assert s[..i + 1][..i] == s[..i];
      assert n == DigitsValue(s[..i + 1]);
      if n > MaxU64 {
        DigitsValuePrefix(s, i + 1);
      } else {
        ScanAllDigits(s, i + 1, n);
      }
    }
  }

  lemma {:induction false} ScanNotAllDigits(s: string, i: nat, acc: u64)
    requires i <= |s|
    requires !AllDigits(s[i..])
    ensures !ScanU64(s, i, acc).Parsed?
    decreases |s| - i
  {
    if IsDigit(s[i]) {
      var n := acc * 10 + DigitValue(s[i]);
      if n <= MaxU64 {
        assert !AllDigits(s[i + 1..]) by {
          var k :| 0 <= k < |s[i..]| && !IsDigit(s[i..][k]);
          assert k != 0;
          assert s[i + 1..][k - 1] == s[i..][k];
        }
        ScanNotAllDigits(s, i + 1, n);
      }
    }
  }

  /**
   * `ParseUint` succeeds exactly on non-empty digit strings whose value fits
   * in 64 bits, and then returns that value; an overflowing digit string is a
   * range error.
   */
  lemma ParseUintSpec(s: string)
    ensures ParseUint(s).Parsed? <==>
      |s| > 0 && AllDigits(s) && DigitsValue(s) <= MaxU64
    ensures ParseUint(s).Parsed? ==> ParseUint(s).n == DigitsValue(s)
    ensures |s| > 0 && AllDigits(s) && DigitsValue(s) > MaxU64 ==> ParseUint(s) == RangeError
    ensures ParseUint(s).Parsed? ==> 0 <= ParseUint(s).n <= MaxU64
  {
    if |s| > 0 {
      if AllDigits(s) {
        assert s[..0] == "";
        ScanAllDigits(s, 0, 0);
      } else {
        assert s[0..] == s;
        ScanNotAllDigits(s, 0, 0);
      }
    }
  }

  /** Reading back a rendered 64-bit unsigned value gives the value. */
  lemma ParseUintFormat(n: nat)
    requires n <= MaxU64
    ensures ParseUint(FormatNat(n)) == Parsed(n)
  {
    DigitsValueFormat(n);
    ParseUintSpec(FormatNat(n));
  }

  /** Reading back a rendered int64 gives the value. */
  lemma ParseIntFormat(n: int)
    requires -TwoTo63 <= n < TwoTo63
    ensures ParseInt(FormatInt(n)) == Parsed(n)
  {
    var s := FormatInt(n);
    if n < 0 {
      assert s[1..] == FormatNat(-n);
      ParseUintFormat(-n);
    } else {
      assert IsDigit(s[0]);
      ParseUintFormat(n);
    }
  }
}
