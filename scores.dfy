/** Log-probability scores as the search strategies see them: a finite value,
    or the negative-infinity sentinel that masking writes (`-math.inf`). */
module Scores {

  datatype Score = NegInf | Fin(v: real)

  /** The order torch compares scores in: -inf is below every finite value. */
  predicate Le(a: Score, b: Score) {
    a.NegInf? || (b.Fin? && a.v <= b.v)
  }

  /** Floating-point addition restricted to the values that occur here:
      -inf absorbs every finite summand (no +inf is ever produced). */
  function Plus(a: Score, b: Score): Score {
    if a.NegInf? || b.NegInf? then NegInf else Fin(a.v + b.v)
  }

  /** Adds a finite real offset (a penalty or a bonus) to a score. */
  function Shift(a: Score, d: real): Score {
    if a.NegInf? then NegInf else Fin(a.v + d)
  }

  /** Le is a total order on scores: it is what makes "descending" meaningful. */
  lemma LeTotal(a: Score, b: Score)
    ensures Le(a, b) || Le(b, a)
    ensures Le(a, b) && Le(b, a) ==> a == b
  {
  }

  lemma LeTrans(a: Score, b: Score, c: Score)
    requires Le(a, b) && Le(b, c)
    ensures Le(a, c)
  {
  }

  /** An offset commutes with adding a score. */
  lemma PlusShift(a: Score, h: Score, d: real)
    ensures Plus(Shift(a, d), h) == Shift(Plus(a, h), d)
  {
  }
}
