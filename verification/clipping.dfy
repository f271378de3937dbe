/** `np.clip(a, lo, hi)`, which numpy defines as `minimum(maximum(a, lo), hi)`. */
module Clipping {

  /** Clip `x` into [lo, hi]. numpy does not reject lo > hi; every value then
      becomes `hi`. */
  function Clip(x: int, lo: int, hi: int): (r: int)
    ensures lo <= hi ==> lo <= r <= hi
    ensures lo <= x <= hi ==> r == x
    ensures lo <= hi && x < lo ==> r == lo
    ensures x > hi || lo > hi ==> r == hi
  {
    var raised := if x < lo then lo else x;
    if raised > hi then hi else raised
  }

  /** Clipping a clipped value changes nothing. */
  lemma ClipIdempotent(x: int, lo: int, hi: int)
    ensures Clip(Clip(x, lo, hi), lo, hi) == Clip(x, lo, hi)
  {
  }

  /** Clipping preserves order. */
  lemma ClipMonotone(x: int, y: int, lo: int, hi: int)
    requires x <= y
    ensures Clip(x, lo, hi) <= Clip(y, lo, hi)
  {
  }

  /** Bounds of the FICO score and annual income columns. */
  const FicoMin := 580
  const FicoMax := 850
  const IncomeMin := 20000
  const IncomeMax := 300000

  /** Line 56: the rounded normal draw clipped to [580, 850]. */
  function ClipFico(score: int): (r: int)
    ensures FicoMin <= r <= FicoMax
    ensures FicoMin <= score <= FicoMax ==> r == score
  {
    Clip(score, FicoMin, FicoMax)
  }

  /** Line 45: the rounded log-normal draw clipped to [20000, 300000]. */
  function ClipIncome(income: int): (r: int)
    ensures IncomeMin <= r <= IncomeMax
    ensures IncomeMin <= income <= IncomeMax ==> r == income
  {
    Clip(income, IncomeMin, IncomeMax)
  }
}
