/** The default-probability rule and the two-outcome loan-status draw. */
module DefaultRisk {
  import opened Wrappers
  import opened Grades

  /** Outcome of a loan. */
  datatype Status = Default | FullyPaid

  /** Per-grade base default probability. */
  function BaseProbability(g: Grade): (p: real)
    ensures 0.0 < p <= 0.45
  {
    match g
    case A => 0.02
    case B => 0.04
    case C => 0.08
    case D => 0.15
    case E => 0.25
    case F => 0.35
    case G => 0.45
  }

  /** The base table rises strictly from A to G. */
  lemma BaseProbabilityStrictlyIncreasing(g1: Grade, g2: Grade)
    requires Rank(g1) < Rank(g2)
    ensures BaseProbability(g1) < BaseProbability(g2)
  {
  }

  /** `min(dti / 50, 1)`: the share of the maximal surcharge a debt-to-income
      ratio earns. It grows linearly up to a ratio of 50 and is capped there. */
  function DtiFactor(dti: real): (f: real)
    ensures f <= 1.0
    ensures dti >= 50.0 ==> f == 1.0
    ensures dti <= 50.0 ==> f * 50.0 == dti
  {
    if dti / 50.0 < 1.0 then dti / 50.0 else 1.0
  }

  /** Probability that a loan of grade `g` with ratio `dti` defaults. For every
      ratio the script can draw (dti >= 0) it lies between the grade's base and
      twice the base, hence within [0, 0.9]. */
  function DefaultProbability(g: Grade, dti: real): (p: real)
    ensures dti >= 0.0 ==> BaseProbability(g) <= p <= 2.0 * BaseProbability(g)
    ensures dti >= 0.0 ==> 0.0 <= p <= 0.9
  {
    BaseProbability(g) * (1.0 + DtiFactor(dti))
  }

  /** With no debt the probability is exactly the grade's base value. */
  lemma ProbabilityAtZeroDti(g: Grade)
    ensures DefaultProbability(g, 0.0) == BaseProbability(g)
  {
  }

  /** From a ratio of 50 on, the probability is constant at twice the base. */
  lemma ProbabilitySaturates(g: Grade, dti: real)
    requires dti >= 50.0
    ensures DefaultProbability(g, dti) == 2.0 * BaseProbability(g)
  {
  }

  /** For a fixed ratio (any ratio above -50, in particular every drawn one)
      a riskier grade has a strictly higher default probability. */
  lemma ProbabilityStrictlyIncreasingInGrade(g1: Grade, g2: Grade, dti: real)
    requires Rank(g1) < Rank(g2)
    requires dti > -50.0
    ensures DefaultProbability(g1, dti) < DefaultProbability(g2, dti)
  {
    BaseProbabilityStrictlyIncreasing(g1, g2);
    var f := 1.0 + DtiFactor(dti);
    assert f > 0.0;
    MultiplyPositive(BaseProbability(g1), BaseProbability(g2), f);
  }

  lemma MultiplyPositive(a: real, b: real, f: real)
    requires a < b && f > 0.0
    ensures a * f < b * f
  {
  }

  /** For a fixed grade the probability never falls as the ratio grows, and
      two ratios d1 <= d2 give the same probability exactly when they are
      equal or both at or above the cap of 50. */
  lemma ProbabilityMonotoneInDti(g: Grade, d1: real, d2: real)
    requires d1 <= d2
    ensures DefaultProbability(g, d1) <= DefaultProbability(g, d2)
    ensures DefaultProbability(g, d1) == DefaultProbability(g, d2) <==> d1 == d2 || d1 >= 50.0
  {
    var b := BaseProbability(g);
    var f1, f2 := DtiFactor(d1), DtiFactor(d2);
    assert f1 <= f2;
    assert f1 == f2 <==> d1 == d2 || d1 >= 50.0;
    assert b * (1.0 + f1) <= b * (1.0 + f2);
    if f1 < f2 {
      MultiplyPositive(1.0 + f1, 1.0 + f2, b);
    }
  }

  /** `np.random.choice(['Default', 'Fully Paid'], p=[prob, 1 - prob])` with the
      uniform sample `u` in [0, 1) taken as an input. numpy raises when a
      probability is negative, which here means prob < 0 or prob > 1 (the two
      weights always sum to 1); otherwise the first outcome is chosen exactly
      when `u` falls below the first cumulative weight. */
  function ChooseStatus(prob: real, u: real): (r: Option<Status>)
    ensures r.None? <==> prob < 0.0 || 1.0 - prob < 0.0
    ensures r == Some(Default) <==> 0.0 <= prob <= 1.0 && u < prob
    ensures r == Some(FullyPaid) <==> 0.0 <= prob <= 1.0 && prob <= u
  {
    if prob < 0.0 || 1.0 - prob < 0.0 then None
    else if u < prob then Some(Default)
    else Some(FullyPaid)
  }

  /** The status of one row: the draw of line 79 fed with the row's grade and
      ratio. For every ratio the script draws it succeeds (the distribution
      fact behind this is `StatusDrawNeverFails`) and gives Default exactly
      when the sample falls below the row's default probability. */
  function DrawStatus(g: Grade, dti: real, u: real): (r: Option<Status>)
    ensures dti >= 0.0 ==> r.Some?
    ensures r == Some(Default) ==> u < DefaultProbability(g, dti)
    ensures dti >= 0.0 ==> (r == Some(Default) <==> u < DefaultProbability(g, dti))
  {
    ChooseStatus(DefaultProbability(g, dti), u)
  }

  /** For every ratio the script draws, `[prob, 1 - prob]` is a valid
      distribution, so the status draw never raises; this is the reason for
      the success clause of `DrawStatus`. */
  lemma StatusDrawNeverFails(g: Grade, dti: real, u: real)
    requires dti >= 0.0
    ensures 0.0 <= DefaultProbability(g, dti) && 0.0 <= 1.0 - DefaultProbability(g, dti)
    ensures DrawStatus(g, dti, u).Some?
  {
  }

  /** With the same sample, a loan that defaults at some grade also defaults at
      every riskier grade and at every higher ratio: the set of samples that
      lead to default only grows. */
  lemma DefaultPersistsUpward(g1: Grade, g2: Grade, d1: real, d2: real, u: real)
    requires Rank(g1) <= Rank(g2)
    requires 0.0 <= d1 <= d2
    requires DrawStatus(g1, d1, u) == Some(Default)
    ensures DrawStatus(g2, d2, u) == Some(Default)
  {
    ProbabilityMonotoneInDti(g1, d1, d2);
    if Rank(g1) < Rank(g2) {
      ProbabilityStrictlyIncreasingInGrade(g1, g2, d2);
    } else {
      RankInjective(g1, g2);
    }
  }
}
