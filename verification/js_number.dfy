/** JavaScript numbers as the claim engine uses them: a finite value or NaN.
    Arithmetic propagates NaN, and every ordering comparison with NaN is false.
    Infinities are not modelled. */
module JsNumber {

  datatype Number = NaN | Num(val: real) {

    /** `typeof x === "number" && !Number.isNaN(x) && x > 0` */
    predicate IsPositive()
    {
      Num? && val > 0.0
    }
  }

  function Add(a: Number, b: Number): Number
  {
    if a.Num? && b.Num? then Num(a.val + b.val) else NaN
  }

  function Sub(a: Number, b: Number): Number
  {
    if a.Num? && b.Num? then Num(a.val - b.val) else NaN
  }

  function Mul(a: Number, b: Number): Number
  {
    if a.Num? && b.Num? then Num(a.val * b.val) else NaN
  }

  function Neg(a: Number): Number
  {
    if a.Num? then Num(-a.val) else NaN
  }

  /** JavaScript `a < b` on numbers: false whenever either side is NaN. */
  predicate Less(a: Number, b: Number)
  {
    a.Num? && b.Num? && a.val < b.val
  }
}
