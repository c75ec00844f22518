/**
 * The parts of Java's numeric semantics that the trial evaluation depends on,
 * stated over Dafny's unbounded `int` and exact `real`: the 32-bit `int`
 * range, integer division (which truncates toward zero), the narrowing cast
 * from `double` to `int`, and a `double` extended with the two infinities
 * that the activation scan uses as starting values.
 */
module JavaNumerics {

  const IntMin: int := -0x8000_0000
  const IntMax: int := 0x7FFF_FFFF

  /** A value of Java's `int` type. */
  type Int32 = x: int | -0x8000_0000 <= x <= 0x7FFF_FFFF

  function Abs(a: int): nat {
    if a < 0 then -a else a
  }

  /**
   * Java's `a / b` on `int`: the quotient truncated toward zero, so the
   * remainder `a - q * b` has the sign of `a` and is smaller than `|b|`.
   * The quotient is not wrapped: for `IntMin / -1`, where Java overflows
   * back to `IntMin`, this gives 2³¹.
   */
  function Div(a: int, b: int): (q: int)
    requires b != 0
    ensures Abs(a - q * b) < Abs(b)
    ensures a >= 0 ==> a - q * b >= 0
    ensures a <= 0 ==> a - q * b <= 0
  {
    var m := Abs(a) / Abs(b);
    var q := if (a < 0) == (b < 0) then m else -m;
    RemainderOfTruncation(a, b, m, q);
    q
  }

  /** The remainder of the truncated quotient is the Euclidean remainder of `|a|` by `|b|`, signed like `a`. */
  lemma RemainderOfTruncation(a: int, b: int, m: int, q: int)
    requires b != 0 && m == Abs(a) / Abs(b)
    requires q == if (a < 0) == (b < 0) then m else -m
    ensures Abs(a - q * b) < Abs(b)
    ensures a >= 0 ==> a - q * b >= 0
    ensures a <= 0 ==> a - q * b <= 0
  {
    var aa: int, bb: int := Abs(a), Abs(b);
    var mb := m * bb;
    assert aa == mb + aa % bb;
    if b < 0 {
      assert q * b == -q * bb;
      assert q * b == (if a < 0 then mb else -mb) * -1;
    } else {
      assert q * b == (if a < 0 then -mb else mb);
    }
    var r := aa % bb;
    assert 0 <= r < bb;
    assert a - q * b == if a < 0 then -r else r;
  }

  /** Truncation of a real toward zero. */
  function Truncate(x: real): (n: int)
    ensures x >= 0.0 ==> n as real <= x < n as real + 1.0
    ensures x < 0.0 ==> n as real - 1.0 < x <= n as real
  {
    if x >= 0.0 then x.Floor else -((-x).Floor)
  }

  /**
   * Java's narrowing cast `(int) x` of a finite `double`: truncate toward
   * zero, then saturate at the bounds of `int`.
   */
  function DoubleToInt(x: real): (n: Int32)
    ensures x >= IntMax as real ==> n == IntMax
    ensures x <= IntMin as real ==> n == IntMin
    ensures IntMin as real < x < IntMax as real ==> n == Truncate(x)
  {
    var t := Truncate(x);
    if t > IntMax then IntMax else if t < IntMin then IntMin else t
  }

  /** The cast keeps a value already of type `int`. */
  lemma DoubleToIntOfInt(n: Int32)
    ensures DoubleToInt(n as real) == n
  {
  }

  /** A `double` that may also be one of the two infinities. */
  datatype Extended = NegInf | Finite(value: real) | PosInf

  /** Java's `d > e` for a finite `d`. */
  predicate Exceeds(d: real, e: Extended) {
    match e
    case NegInf => true
    case Finite(v) => d > v
    case PosInf => false
  }

  /** Java's `d < e` for a finite `d`. */
  predicate Undercuts(d: real, e: Extended) {
    match e
    case NegInf => false
    case Finite(v) => d < v
    case PosInf => true
  }
}
