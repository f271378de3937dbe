/** One row of the raw table and of the cleaned ("golden") table, built from
    the random draws behind it. */
module LoanRecords {
  import opened Wrappers
  import opened Grades
  import opened DefaultRisk
  import opened EmpLength
  import opened Clipping
  import opened Categories

  /** The draws behind one row, already rounded as the script rounds them:
      income to a multiple of 1000, the ratio to one decimal, the FICO score
      to an integer. `statusSample` is the uniform sample of the status draw. */
  datatype Draws = Draws(
    grade: Grade,
    roundedIncome: int,
    empYears: nat,
    dti: real,
    roundedFico: int,
    statusSample: real)

  /** The columns of a raw row that the cleaning step reads or the default rule uses. */
  datatype RawRow = RawRow(
    grade: Grade,
    annualIncome: int,
    empLength: string,
    dti: real,
    ficoScore: int,
    status: Status)

  /** A cleaned row: the raw row with employment length as an integer and the
      two categories added (a missing category is `None`). */
  datatype GoldenRow = GoldenRow(
    raw: RawRow,
    empYears: int,
    ficoCategory: Option<FicoCategory>,
    dtiCategory: Option<DtiCategory>)

  /** The ranges the script's draws fall in: employment length from
      `range(11)` and a ratio from `uniform(0, 50)`. */
  predicate ScriptDraws(d: Draws) {
    d.empYears <= 10 && 0.0 <= d.dti <= 50.0
  }

  /** Builds a raw row; `None` when the status draw raises. Income and score
      are clipped into range, values already in range are kept, the label is
      the rendering of the drawn length and the status is the row's draw. */
  function MakeRawRow(d: Draws): (r: Option<RawRow>)
    ensures r.Some? ==> IncomeMin <= r.value.annualIncome <= IncomeMax
    ensures r.Some? ==> FicoMin <= r.value.ficoScore <= FicoMax
    ensures r.Some? && IncomeMin <= d.roundedIncome <= IncomeMax ==> r.value.annualIncome == d.roundedIncome
    ensures r.Some? && FicoMin <= d.roundedFico <= FicoMax ==> r.value.ficoScore == d.roundedFico
    ensures r.Some? ==> r.value.empLength == Label(d.empYears)
    ensures r.Some? ==> r.value.grade == d.grade && r.value.dti == d.dti
    ensures r.Some? ==> Some(r.value.status) == DrawStatus(d.grade, d.dti, d.statusSample)
    ensures r.None? <==> DrawStatus(d.grade, d.dti, d.statusSample).None?
    ensures d.dti >= 0.0 ==> r.Some?
  {
    match DrawStatus(d.grade, d.dti, d.statusSample)
    case None => None
    case Some(status) =>
      Some(RawRow(d.grade, ClipIncome(d.roundedIncome), Label(d.empYears),
                  d.dti, ClipFico(d.roundedFico), status))
  }

  /** Derives the cleaned row; `None` when the employment length cannot be
      parsed. A derived row keeps the raw row, and its categories are missing
      exactly when the score or ratio falls outside every bin. */
  function MakeGoldenRow(row: RawRow): (r: Option<GoldenRow>)
    ensures r.Some? <==> Parse(row.empLength).Some?
    ensures r.Some? ==> r.value.raw == row
    ensures r.Some? ==> (r.value.ficoCategory.Some? <==> 0 < row.ficoScore <= 850)
    ensures r.Some? ==> (r.value.dtiCategory.Some? <==> row.dti > 0.0)
    ensures r.Some? ==> r.value.ficoCategory == FicoCategoryOf(row.ficoScore)
    ensures r.Some? ==> r.value.dtiCategory == DtiCategoryOf(row.dti)
    ensures forall x: nat :: x <= Int64Max && row.empLength == Label(x) ==> r.Some? && r.value.empYears == x
  {
    assert forall x: nat :: x <= Int64Max && row.empLength == Label(x) ==> Parse(row.empLength) == Some(x) by {
      forall x: nat | x <= Int64Max && row.empLength == Label(x)
        ensures Parse(row.empLength) == Some(x)
      {
        LabelRoundTrip(x);
      }
    }
    match Parse(row.empLength)
    case None => None
    case Some(years) =>
      Some(GoldenRow(row, years, FicoCategoryOf(row.ficoScore), DtiCategoryOf(row.dti)))
  }

  /** For every draw in the script's ranges both tables are built without an
      error; the cleaned row recovers the drawn employment length, always has
      a FICO category (the bin of the clipped score), and has a DTI category
      (the bin of the ratio) exactly when the ratio is positive. */
  lemma PipelineSucceeds(d: Draws)
    requires ScriptDraws(d)
    ensures MakeRawRow(d).Some?
    ensures MakeGoldenRow(MakeRawRow(d).value).Some?
    ensures MakeGoldenRow(MakeRawRow(d).value).value.empYears == d.empYears
    ensures MakeGoldenRow(MakeRawRow(d).value).value.ficoCategory.Some?
    ensures MakeGoldenRow(MakeRawRow(d).value).value.dtiCategory.Some? <==> d.dti > 0.0
    ensures MakeGoldenRow(MakeRawRow(d).value).value.ficoCategory == FicoCategoryOf(ClipFico(d.roundedFico))
    ensures MakeGoldenRow(MakeRawRow(d).value).value.dtiCategory == DtiCategoryOf(d.dti)
    ensures MakeRawRow(d).value.status == Default
            <==> d.statusSample < DefaultProbability(d.grade, d.dti)
  {
    var row := MakeRawRow(d).value;
    LabelRoundTrip(d.empYears);
    FicoTotalAfterClip(d.roundedFico);
    DtiCategoryTotalAbove0(d.dti);
  }
}
