/**
 * Python floats idealised as reals. Arithmetic is exact; the one IEEE behaviour the core
 * depends on is kept: dividing by zero yields an infinity (`x / 0` with `x != 0`) or NaN
 * (`0 / 0`), as numpy and pandas do, instead of raising.
 */
module Floats {

  datatype Float = Num(v: real) | Inf(positive: bool) | NaN

  /** The IEEE quotient of two finite values. */
  function Div(a: real, b: real): (r: Float)
    ensures r.Num? <==> b != 0.0
    ensures r.Num? ==> r.v * b == a
    ensures r == NaN <==> a == 0.0 && b == 0.0
    ensures r.Inf? ==> b == 0.0 && (r.positive <==> a > 0.0)
  {
    if b != 0.0 then Num(a / b)
    else if a > 0.0 then Inf(true)
    else if a < 0.0 then Inf(false)
    else NaN
  }

  /** Multiplication by a positive finite constant. */
  function Scale(c: real, x: Float): (r: Float)
    requires c > 0.0
    ensures r.Num? <==> x.Num?
    ensures r.Num? ==> r.v == c * x.v
    ensures !r.Num? ==> r == x
  {
    match x
    case Num(v) => Num(c * v)
    case _ => x
  }

  /** IEEE `x > y`: false whenever either side is NaN. */
  predicate Greater(x: Float, y: Float) {
    match (x, y)
    case (Num(a), Num(b)) => a > b
    case (Inf(p), Num(_)) => p
    case (Num(_), Inf(q)) => !q
    case (Inf(p), Inf(q)) => p && !q
    case _ => false
  }

  /** `x > 0`. */
  predicate Positive(x: Float) {
    Greater(x, Num(0.0))
  }

  /** `Greater` is a strict order: irreflexive, so a tie is never "greater". */
  lemma GreaterIrreflexive(x: Float)
    ensures !Greater(x, x)
  {
  }

  /** `x > 0` for each kind of value. */
  lemma PositiveCases(x: Float)
    ensures Positive(x) <==> (x.Num? && x.v > 0.0) || x == Inf(true)
  {
  }

  /** Scaling both sides by the same positive constant keeps `>`. */
  lemma GreaterScale(c: real, x: Float, y: Float)
    requires c > 0.0
    ensures Greater(Scale(c, x), Scale(c, y)) <==> Greater(x, y)
  {
    if x.Num? && y.Num? {
      assert c * x.v - c * y.v == c * (x.v - y.v);
      if x.v > y.v {
        assert c * (x.v - y.v) > 0.0;
      } else {
        assert c * (x.v - y.v) <= 0.0;
      }
    }
  }
}
