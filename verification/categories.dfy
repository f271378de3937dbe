/** The two categorical columns of the cleaned table, each a `pd.cut` of a
    numeric column over fixed edges. */
module Categories {
  import opened Wrappers
  import opened Binning
  import opened Clipping

  datatype FicoCategory = VeryPoor | Fair | Good | VeryGood | Excellent
  datatype DtiCategory = VeryLow | Low | Moderate | High | VeryHigh

  const FicoEdges: seq<Edge> :=
    [Finite(0.0), Finite(580.0), Finite(670.0), Finite(740.0), Finite(800.0), Finite(850.0)]
  const DtiEdges: seq<Edge> :=
    [Finite(0.0), Finite(10.0), Finite(20.0), Finite(30.0), Finite(40.0), PosInf]

  /** Position of a category in its label list, which is also its bin index. */
  function FicoRank(c: FicoCategory): (r: nat)
    ensures r < 5
  {
    match c
    case VeryPoor => 0
    case Fair => 1
    case Good => 2
    case VeryGood => 3
    case Excellent => 4
  }

  function FicoLabel(i: nat): (c: FicoCategory)
    requires i < 5
    ensures FicoRank(c) == i
  {
    [VeryPoor, Fair, Good, VeryGood, Excellent][i]
  }

  function DtiRank(c: DtiCategory): (r: nat)
    ensures r < 5
  {
    match c
    case VeryLow => 0
    case Low => 1
    case Moderate => 2
    case High => 3
    case VeryHigh => 4
  }

  function DtiLabel(i: nat): (c: DtiCategory)
    requires i < 5
    ensures DtiRank(c) == i
  {
    [VeryLow, Low, Moderate, High, VeryHigh][i]
  }

  lemma EdgesIncreasing()
    ensures Increasing(FicoEdges)
    ensures Increasing(DtiEdges)
  {
  }

  /** Lines 112-116: the FICO category, right-closed over 0, 580, 670, 740,
      800, 850. Scores at or below 0 or above 850 get no category. */
  function FicoCategoryOf(score: int): (r: Option<FicoCategory>)
    ensures r.None? <==> score <= 0 || score > 850
    ensures r == Some(VeryPoor) <==> 0 < score <= 580
    ensures r == Some(Fair) <==> 580 < score <= 670
    ensures r == Some(Good) <==> 670 < score <= 740
    ensures r == Some(VeryGood) <==> 740 < score <= 800
    ensures r == Some(Excellent) <==> 800 < score <= 850
  {
    EdgesIncreasing();
    match Cut(FicoEdges, score as real)
    case None => None
    case Some(i) => Some(FicoLabel(i))
  }

  /** Lines 119-123: the DTI category, right-closed over 0, 10, 20, 30, 40 and
      an unbounded last bin. A ratio at or below 0 gets no category. */
  function DtiCategoryOf(dti: real): (r: Option<DtiCategory>)
    ensures r.None? <==> dti <= 0.0
    ensures r == Some(VeryLow) <==> 0.0 < dti <= 10.0
    ensures r == Some(Low) <==> 10.0 < dti <= 20.0
    ensures r == Some(Moderate) <==> 20.0 < dti <= 30.0
    ensures r == Some(High) <==> 30.0 < dti <= 40.0
    ensures r == Some(VeryHigh) <==> 40.0 < dti
  {
    EdgesIncreasing();
    match Cut(DtiEdges, dti)
    case None => None
    case Some(i) => Some(DtiLabel(i))
  }

  /** Every clipped FICO score has a category, so the column has no missing
      cells; boundary scores fall into the lower bin. */
  lemma FicoTotalAfterClip(raw: int)
    ensures FicoCategoryOf(ClipFico(raw)).Some?
    ensures FicoCategoryOf(580) == Some(VeryPoor)
    ensures FicoCategoryOf(670) == Some(Fair)
    ensures FicoCategoryOf(740) == Some(Good)
    ensures FicoCategoryOf(800) == Some(VeryGood)
    ensures FicoCategoryOf(850) == Some(Excellent)
  {
  }

  /** A higher score never gets a lower category. */
  lemma FicoCategoryMonotone(s1: int, s2: int)
    requires s1 <= s2
    requires FicoCategoryOf(s1).Some? && FicoCategoryOf(s2).Some?
    ensures FicoRank(FicoCategoryOf(s1).value) <= FicoRank(FicoCategoryOf(s2).value)
  {
    EdgesIncreasing();
    CutMonotone(FicoEdges, s1 as real, s2 as real);
  }

  /** Every positive ratio has a category; a ratio of 0.0, which rounding to
      one decimal can produce, has none. */
  lemma DtiCategoryTotalAbove0(dti: real)
    ensures DtiCategoryOf(dti).Some? <==> dti > 0.0
    ensures DtiCategoryOf(0.0) == None
    ensures DtiCategoryOf(10.0) == Some(VeryLow)
    ensures DtiCategoryOf(40.0) == Some(High)
  {
  }

  /** A higher ratio never gets a lower category. */
  lemma DtiCategoryMonotone(d1: real, d2: real)
    requires d1 <= d2
    requires DtiCategoryOf(d1).Some? && DtiCategoryOf(d2).Some?
    ensures DtiRank(DtiCategoryOf(d1).value) <= DtiRank(DtiCategoryOf(d2).value)
  {
    EdgesIncreasing();
    CutMonotone(DtiEdges, d1, d2);
  }
}
