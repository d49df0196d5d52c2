/**
 * Go's fixed-width integer arithmetic and float-to-integer conversion,
 * written out over Dafny's unbounded integers and reals.
 */
module MachineInt {

  const TwoTo64: int := 0x1_0000_0000_0000_0000
  const TwoTo63: int := 0x8000_0000_0000_0000
  const MaxU64: int := TwoTo64 - 1

  /** Go `uint64`. */
  type u64 = x: int | 0 <= x < TwoTo64

  /** Go `int64`. */
  type i64 = x: int | -TwoTo63 <= x < TwoTo63

  /** Reduction modulo 2^64: the value a `uint64` holds after wrap-around. */
  function WrapU64(x: int): (r: u64)
    ensures 0 <= x < TwoTo64 ==> r == x
    ensures (r - x) % TwoTo64 == 0
  {
    x % TwoTo64
  }

  /** Two's-complement reduction: the value an `int64` holds after wrap-around. */
  function WrapI64(x: int): (r: i64)
    ensures -TwoTo63 <= x < TwoTo63 ==> r == x
    ensures (r - x) % TwoTo64 == 0
  {
    var m := x % TwoTo64;
    if m < TwoTo63 then m else m - TwoTo64
  }

  /** `a - b` on `uint64`. */
  function SubU64(a: u64, b: u64): (r: u64)
    ensures b <= a ==> r == a - b
    ensures a < b ==> r == a - b + TwoTo64
  {
    WrapU64(a - b)
  }

  /** `a + b` on `uint64`. */
  function AddU64(a: u64, b: u64): (r: u64)
    ensures a + b < TwoTo64 ==> r == a + b
    ensures a + b >= TwoTo64 ==> r == a + b - TwoTo64
  {
    WrapU64(a + b)
  }

  /** `uint64(x)` for an `int64` operand: reinterpretation of the bits. */
  function I64ToU64(x: i64): (r: u64)
    ensures 0 <= x ==> r == x
    ensures x < 0 ==> r == x + TwoTo64
  {
    WrapU64(x)
  }

  /** Go's float-to-integer conversion, which truncates toward zero. */
  function Trunc(x: real): (r: int)
    ensures 0.0 <= x ==> r as real <= x < r as real + 1.0
    ensures x < 0.0 ==> r as real - 1.0 < x <= r as real
  {
    if x >= 0.0 then x.Floor else -((-x).Floor)
  }

  function MinInt(a: int, b: int): int { if a <= b then a else b }
  function MaxInt(a: int, b: int): int { if a >= b then a else b }
  function MinReal(a: real, b: real): real { if a <= b then a else b }
  function MaxReal(a: real, b: real): real { if a >= b then a else b }
  function AbsReal(x: real): real { if x < 0.0 then -x else x }
  function Square(x: real): real { x * x }

  /** `min(max(x, lo), hi)`: never above `hi`, never below `lo` when the range is non-empty. */
  function ClampInt(x: int, lo: int, hi: int): (r: int)
    ensures r <= hi
    ensures lo <= hi ==> lo <= r
    ensures lo <= x <= hi ==> r == x
    ensures r == x || r == lo || r == hi
    ensures x < lo <= hi ==> r == lo
    ensures x > hi || hi < lo ==> r == hi
  {
    MinInt(MaxInt(x, lo), hi)
  }

  /** `min(max(x, lo), hi)` on floats. */
  function ClampReal(x: real, lo: real, hi: real): (r: real)
    ensures r <= hi
    ensures lo <= hi ==> lo <= r
    ensures lo <= x <= hi ==> r == x
    ensures r == x || r == lo || r == hi
    ensures x < lo <= hi ==> r == lo
    ensures x > hi || hi < lo ==> r == hi
  {
    MinReal(MaxReal(x, lo), hi)
  }

  /** Reducing an intermediate sum modulo 2^64 does not change the final reduction. */
  lemma WrapAddLeft(x: int, y: int)
    ensures WrapU64(WrapU64(x) + y) == WrapU64(x + y)
  {
    var q := x / TwoTo64;
    assert x == q * TwoTo64 + x % TwoTo64;
    ModShift(x % TwoTo64 + y, q);
  }

  /** Reducing an inner term to int64 does not change the final int64 reduction. */
  lemma WrapI64AddRight(x: int, y: int)
    ensures WrapI64(x + WrapI64(y)) == WrapI64(x + y)
  {
    var w := WrapI64(y);
    var q := (w - y) / TwoTo64;
    assert w - y == q * TwoTo64;
    ModShift(x + y, q);
  }

  lemma {:induction false} ModShift(a: int, q: int)
    ensures (a + q * TwoTo64) % TwoTo64 == a % TwoTo64
    decreases if q < 0 then -q else q
  {
    if q > 0 {
      ModShift(a, q - 1);
      assert a + q * TwoTo64 == (a + (q - 1) * TwoTo64) + TwoTo64;
    } else if q < 0 {
      ModShift(a, q + 1);
      assert a + q * TwoTo64 == (a + (q + 1) * TwoTo64) - TwoTo64;
    }
  }
}
