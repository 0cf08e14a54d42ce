/** Shared value types: optional values, results that carry the Python exception a converter
    raises, and floating-point cells as NumPy/pandas hold them. */
module Base {

  datatype Option<T> = None | Some(value: T)

  /** The Python exception kinds the modelled code can raise. */
  datatype PyError =
    | KeyError(key: string)      // missing dict key or DataFrame column
    | IndexError                 // list / positional index out of range
    | ValueError                 // float() of a non-number, shape mismatch, empty argmax
    | NameError(name: string)    // a local variable that no branch assigned
    | ZeroDivisionError          // Python float division by zero
    | TypeError                  // an argument of the wrong type

  datatype Result<T> = Ok(value: T) | Err(error: PyError)

  /** A float64 cell: a finite value, NaN or an infinity. */
  datatype Num = R(v: real) | NaN | PosInf | NegInf

  /** NumPy division of two finite floats: never raises, yields an infinity or NaN on zero. */
  function NumDiv(a: real, b: real): (q: Num)
    ensures b != 0.0 ==> q == R(a / b)
    ensures b == 0.0 ==> (q == NaN <==> a == 0.0) && (q == PosInf <==> a > 0.0) && (q == NegInf <==> a < 0.0)
  {
    if b != 0.0 then R(a / b)
    else if a > 0.0 then PosInf
    else if a < 0.0 then NegInf
    else NaN
  }

  /** Python `int(v)` of a float: truncation toward zero. */
  function Trunc(v: real): (n: int)
    ensures v >= 0.0 ==> n as real <= v < n as real + 1.0
    ensures v < 0.0 ==> n as real - 1.0 < v <= n as real
  {
    if v >= 0.0 then v.Floor else -((-v).Floor)
  }

  /** Truncating a whole number changes nothing. */
  lemma TruncOfInt(n: int)
    ensures Trunc(n as real) == n
  {
  }

  /** On exact numbers `int(a / h * b)` is the integer quotient of `a * b` by `h`. */
  lemma TruncQuotient(a: nat, b: nat, h: nat)
    requires h > 0
    ensures Trunc(a as real / h as real * b as real) == a * b / h
  {
    CastProduct(a, b);
    DivideThenMultiply(a as real, h as real, b as real);
    FloorQuotient(a * b, h);
  }

  lemma CastProduct(a: int, b: int)
    ensures (a * b) as real == a as real * b as real
  {
  }

  lemma DivideThenMultiply(a: real, h: real, b: real)
    requires h != 0.0
    ensures a / h * b == (a * b) / h
  {
  }

  /** The floor of `n / h` on exact numbers is the integer quotient. */
  lemma FloorQuotient(n: nat, h: nat)
    requires h > 0
    ensures (n as real / h as real).Floor == n / h
  {
    var q, r := n / h, n % h;
    var hr := h as real;
    CastProduct(q, h);
    assert n as real == q as real * hr + r as real;
    var f := r as real / hr;
    assert 0.0 <= f < 1.0;
    assert n as real / hr == q as real + f;
  }

  /** The integer quotient is the largest multiple of `h` not above `n`. */
  lemma QuotientBounds(n: nat, h: nat)
    requires h > 0
    ensures (n / h) * h <= n < (n / h + 1) * h
  {
    var q := n / h;
    assert n == q * h + n % h;
    assert (q + 1) * h == q * h + h;
  }

  /** Multiplying by `h` and then dividing by it gives the number back. */
  lemma CancelFactor(a: nat, h: nat)
    requires h > 0
    ensures a * h / h == a
  {
    QuotientBounds(a * h, h);
    var q := a * h / h;
    FactorOrder(q, a, h);
    FactorOrder(a, q + 1, h);
  }

  /** Products with the same positive factor are ordered as the other factors. */
  lemma FactorOrder(x: int, y: int, h: int)
    requires h > 0
    ensures x * h <= y * h ==> x <= y
    ensures x * h < y * h ==> x < y
  {
  }
}
