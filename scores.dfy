/** Search scores: a real number or one of the two infinities that the
    searches use as the initial best value and as the full alpha-beta window. */
module Scores {

  datatype Score = NegInf | Fin(v: real) | PosInf

  /** The order Python's float comparison gives on finite values and +-inf. */
  predicate Le(a: Score, b: Score) {
    match (a, b)
    case (NegInf, _) => true
    case (_, PosInf) => true
    case (Fin(x), Fin(y)) => x <= y
    case _ => false
  }

  predicate Lt(a: Score, b: Score) {
    !Le(b, a)
  }

  /** Python's `max(a, b)`: the larger value, `a` on a tie. */
  function Max(a: Score, b: Score): (r: Score)
    ensures Le(a, r) && Le(b, r)
    ensures r == a || r == b
  {
    if Lt(a, b) then b else a
  }

  /** Python's `min(a, b)`: the smaller value, `a` on a tie. */
  function Min(a: Score, b: Score): (r: Score)
    ensures Le(r, a) && Le(r, b)
    ensures r == a || r == b
  {
    if Lt(b, a) then b else a
  }

  /** Unary minus; it exchanges the two infinities. */
  function Neg(a: Score): Score {
    match a
    case NegInf => PosInf
    case PosInf => NegInf
    case Fin(x) => Fin(-x)
  }

  /** `x` forced into the window `[lo, hi]`. */
  function Clamp(lo: Score, hi: Score, x: Score): Score {
    Min(hi, Max(lo, x))
  }

  lemma LeTotalOrder(a: Score, b: Score, c: Score)
    ensures Le(a, a)
    ensures Le(a, b) || Le(b, a)
    ensures Le(a, b) && Le(b, a) ==> a == b
    ensures Le(a, b) && Le(b, c) ==> Le(a, c)
  {
  }

  /** Negation reverses the order and undoes itself. */
  lemma NegReverses(a: Score, b: Score)
    ensures Le(a, b) <==> Le(Neg(b), Neg(a))
    ensures Neg(Neg(a)) == a
  {
  }

  lemma MaxAssoc(a: Score, b: Score, c: Score)
    ensures Max(a, Max(b, c)) == Max(Max(a, b), c)
  {
    LeTotalOrder(a, b, c);
    LeTotalOrder(b, c, a);
    LeTotalOrder(a, c, b);
  }

  lemma MinAssoc(a: Score, b: Score, c: Score)
    ensures Min(a, Min(b, c)) == Min(Min(a, b), c)
  {
    LeTotalOrder(a, b, c);
    LeTotalOrder(b, c, a);
    LeTotalOrder(a, c, b);
  }

  /** Clamping the lower end first or the upper end first agrees on a proper window. */
  lemma ClampEitherWay(lo: Score, hi: Score, x: Score)
    requires Le(lo, hi)
    ensures Clamp(lo, hi, x) == Max(lo, Min(hi, x))
  {
    LeTotalOrder(lo, hi, x);
    LeTotalOrder(hi, x, lo);
    LeTotalOrder(lo, x, hi);
  }

  /** Absorption used by the alpha-beta proof at a maximising node. */
  lemma MinMaxAbsorb(hi: Score, x: Score, y: Score)
    ensures Min(hi, Max(Min(hi, x), y)) == Min(hi, Max(x, y))
  {
    LeTotalOrder(hi, x, y);
    LeTotalOrder(x, y, hi);
    LeTotalOrder(hi, y, x);
  }

  /** Absorption used by the alpha-beta proof at a minimising node. */
  lemma MaxMinAbsorb(lo: Score, x: Score, y: Score)
    ensures Max(lo, Min(Max(lo, x), y)) == Max(lo, Min(x, y))
  {
    LeTotalOrder(lo, x, y);
    LeTotalOrder(x, y, lo);
    LeTotalOrder(lo, y, x);
  }
}
