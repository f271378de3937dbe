# Synthetic loan dataset generator — deterministic rules

`src/data/generate_data.py` draws 300 synthetic consumer-loan records, then derives
a cleaned ("golden") table from them. Almost all of it is random sampling and
pandas plumbing. This project models the deterministic rules inside it. Every
random draw becomes an input.

- `DefaultRisk`: the default-probability rule. A per-grade base table is scaled by
  `1 + min(dti/50, 1)`. The result feeds the two-outcome loan-status draw
  `choice(['Default', 'Fully Paid'], p=[prob, 1-prob])`. Its uniform sample is an
  input: the draw picks Default exactly when the sample is below `prob`, and raises
  when a weight is negative.
- `EmpLength`: the employment-length label `"<x> years"` (`"10+ years"` for ten),
  and the cleaning step that parses it back. That step rewrites `"10+ years"`,
  deletes every `" years"` and converts the rest with `int()`.
- `Binning`: `pd.cut` with its default right-closed bins `(e[i], e[i+1]]` and no
  `include_lowest`. A value outside every bin is a missing cell (`None`).
- `Categories`: the FICO categories (edges 0, 580, 670, 740, 800, 850) and the DTI
  categories (edges 0, 10, 20, 30, 40, +infinity), built on `Binning.Cut`.
- `Clipping`: `np.clip` and the FICO `[580, 850]` and income `[20000, 300000]` clamps.
- `LoanRecords`: one raw row and one cleaned row built from the draws behind them,
  with the end-to-end guarantee that the pipeline never raises for the script's
  draw ranges.
- `Grades`, `Wrappers`: the grade enumeration A..G and `Option`.

Both categorical columns come from `pd.cut` with `right=True` and
`include_lowest=False` (generate_data.py:112-123). A value on an interior edge
therefore goes to the LOWER bin (670 is Fair), and 0.0 goes to no bin. A clipped
FICO score is at least 580, so it always gets a category. A DTI of exactly 0.0 can
come out of the one-decimal rounding on line 52 and then has no category
(`DtiCategoryTotalAbove0`).

Numbers are exact: `dti` and probabilities are `real`, and FICO score and income
are `int`. Income is a whole multiple of 1000 after rounding.

## Model

| member | source | states |
|---|---|---|
| DefaultRisk.BaseProbability | src/data/generate_data.py:69-72 | every grade's base probability lies in (0, 0.45] |
| DefaultRisk.BaseProbabilityStrictlyIncreasing | src/data/generate_data.py:69-72 | the base table rises strictly from A to G |
| DefaultRisk.DtiFactor | src/data/generate_data.py:73 | the factor is at most 1, equals 1 from a ratio of 50 on, and is dti/50 below it |
| DefaultRisk.DefaultProbability | src/data/generate_data.py:68-74 | for every dti >= 0 the probability lies between the grade's base and twice the base, hence in [0, 0.9] |
| DefaultRisk.ProbabilityAtZeroDti | src/data/generate_data.py:68-74 | at dti = 0 the probability is exactly the grade's base |
| DefaultRisk.ProbabilitySaturates | src/data/generate_data.py:73-74 | for dti >= 50 the probability is exactly twice the base |
| DefaultRisk.ProbabilityStrictlyIncreasingInGrade | src/data/generate_data.py:68-74 | for a fixed dti > -50, a riskier grade has a strictly higher probability |
| DefaultRisk.ProbabilityMonotoneInDti | src/data/generate_data.py:73-74 | for a fixed grade the probability never falls as dti grows; two ratios give equal probabilities exactly when they are equal or both at least 50 |
| DefaultRisk.ChooseStatus | src/data/generate_data.py:79 | the draw raises exactly when a weight is negative; otherwise it gives Default exactly when the sample is below prob |
| DefaultRisk.DrawStatus | src/data/generate_data.py:77-79 | a row's status draw succeeds for every dti >= 0, and then gives Default exactly when the sample is below the row's probability |
| DefaultRisk.StatusDrawNeverFails | src/data/generate_data.py:78-79 | for every grade and dti >= 0, `[prob, 1-prob]` is a valid distribution and the draw does not raise |
| DefaultRisk.DefaultPersistsUpward | src/data/generate_data.py:68-79 | with the same sample, a default at some grade and ratio is also a default at every riskier grade and higher ratio |
| EmpLength.Decimal | src/data/generate_data.py:49 | an integer renders as a non-empty string of digits with no leading zero |
| EmpLength.DecimalRoundTrip | src/data/generate_data.py:109 | reading the decimal rendering of n gives n back |
| EmpLength.IntValue | src/data/generate_data.py:109 | `int()` succeeds exactly on an optional sign followed by at least one digit, and unsigned digits give a non-negative value |
| EmpLength.ParseInt | src/data/generate_data.py:109 | `.astype(int)` succeeds only on that syntax with a value inside the int64 range, and then returns `int()`'s value |
| EmpLength.ParseIntRoundTrip | src/data/generate_data.py:109 | the conversion of n's rendering succeeds exactly when n fits in int64 and then gives n; with '+' it gives n, with '-' it gives -n exactly when -n fits |
| EmpLength.RemoveAll | src/data/generate_data.py:109 | deleting the suffix never lengthens a string and only keeps characters of the input |
| EmpLength.RemoveAllSkipsMatch | src/data/generate_data.py:109 | an occurrence of the pattern at the front is deleted and deletion continues after it |
| EmpLength.RemoveAllKeepsUnmatched | src/data/generate_data.py:109 | a prefix in which no occurrence starts is kept, and deletion continues in the rest |
| EmpLength.RemoveAllNoOccurrence | src/data/generate_data.py:109 | a string in which the pattern occurs nowhere is left unchanged |
| EmpLength.RemoveTrailing | src/data/generate_data.py:109 | deleting the suffix from digits followed by one suffix leaves exactly the digits |
| EmpLength.Label | src/data/generate_data.py:49 | every label ends in " years", and the label is "10+ years" exactly for ten |
| EmpLength.Parse | src/data/generate_data.py:108-109 | "10+ years" parses to 10 and only text holding a digit parses; its inverse property is `LabelRoundTrip`, its error case `ParseRejectsDigitless` |
| EmpLength.LabelRoundTrip | src/data/generate_data.py:108-109 | for every count 0 <= x < 2^63, including the drawn 0..10, parsing the label of line 49 gives x |
| EmpLength.LabelOverflow | src/data/generate_data.py:108-109 | the label of a count of 2^63 or more fails to convert (int64 overflow) |
| EmpLength.LabelInjective | src/data/generate_data.py:48-49 | distinct counts get distinct labels |
| EmpLength.ParseRejectsDigitless | src/data/generate_data.py:108-109 | a value with no digit in it makes the conversion raise |
| Binning.BinsDisjoint | src/data/generate_data.py:112-123 | with increasing edges, no value lies in two bins |
| Binning.CutFrom | src/data/generate_data.py:112-123 | the search returns a bin at or after its start that holds the value, or none when no such bin does |
| Binning.Cut | src/data/generate_data.py:112-123 | the result is bin i exactly when x lies in (e[i], e[i+1]], and missing exactly when no bin holds x |
| Binning.CutMonotone | src/data/generate_data.py:112-123 | a larger value never lands in an earlier bin |
| Categories.FicoCategoryOf | src/data/generate_data.py:112-116 | a score is Very Poor on (0,580], Fair on (580,670], Good on (670,740], Very Good on (740,800], Excellent on (800,850], and missing otherwise |
| Categories.DtiCategoryOf | src/data/generate_data.py:119-123 | a ratio is Very Low on (0,10], Low on (10,20], Moderate on (20,30], High on (30,40], Very High above 40, and missing at or below 0 |
| Categories.FicoTotalAfterClip | src/data/generate_data.py:112-116 | every clipped score has a category, and 580, 670, 740, 800, 850 fall into Very Poor, Fair, Good, Very Good, Excellent |
| Categories.FicoCategoryMonotone | src/data/generate_data.py:112-116 | a higher score never gets a lower category |
| Categories.DtiCategoryTotalAbove0 | src/data/generate_data.py:119-123 | a ratio has a category exactly when it is positive; 0.0 has none; 10 is Very Low and 40 is High |
| Categories.DtiCategoryMonotone | src/data/generate_data.py:119-123 | a higher ratio never gets a lower category |
| Clipping.Clip | src/data/generate_data.py:45 | the result lies in [lo, hi], leaves in-range values alone, and maps values below or above to lo or hi |
| Clipping.ClipIdempotent | src/data/generate_data.py:56 | clipping twice is clipping once |
| Clipping.ClipMonotone | src/data/generate_data.py:45 | clipping preserves order |
| Clipping.ClipFico | src/data/generate_data.py:56 | every clipped FICO score lies in [580, 850], and in-range scores are unchanged |
| Clipping.ClipIncome | src/data/generate_data.py:45 | every clipped income lies in [20000, 300000], and in-range incomes are unchanged |
| LoanRecords.MakeRawRow | src/data/generate_data.py:43-80 | income and FICO are clipped into range and kept when already in range, the label renders the drawn length, grade and dti are copied, the status is the row's draw, and building fails exactly when the draw raises (never for dti >= 0) |
| LoanRecords.MakeGoldenRow | src/data/generate_data.py:105-123 | a cleaned row exists exactly when the label parses, keeps the raw row, recovers x from the label of any x < 2^63, and its categories are the `pd.cut` bins of the score and ratio (present exactly for scores in (0, 850] and dti > 0); the end-to-end guarantee is `PipelineSucceeds` |
| LoanRecords.PipelineSucceeds | src/data/generate_data.py:105-123 | for the script's draw ranges both rows are built; the cleaned row recovers the drawn employment length, its FICO category is the bin of the clipped score and always present, its DTI category is the bin of dti and present exactly when dti > 0, and the status is Default exactly when the sample is below the default probability |

## Left out

- Random sampling (`uniform`, `choice`, `lognormal`, `normal`, `randint`) and seeding: nondeterministic library calls. Their results are parameters; the status draw keeps only its uniform sample.
- Float rounding (`.round(-2)`, `.round(-3)`, `.round(1)`, `.round()`, `astype(int)`): numpy's round-half-to-even on IEEE floats. The model takes the rounded values as inputs, and all arithmetic is exact.
- `np.log1p` of income and loan amount (lines 126-127): a transcendental floating-point function.
- DataFrame assembly, `.copy()`, the two CSV writes and the final `print` (lines 83-102, 105, 130-132): I/O and library plumbing. Columns that no rule reads (amount, term, rate, purpose, ownership, credit lines, revolving balance and utilization) are not part of the row datatypes.
- The sequential loan ids `range(1, n + 1)` (line 12): there is no rule to state beyond the range itself.
- The grade dictionary lookup (line 72) could raise `KeyError` on an unknown label. Grades are an enumeration here because the draw only produces A..G, so that path cannot occur.
- EmpLength.ParseInt (and EmpLength.IntValue): Python's `int()` also accepts surrounding whitespace, `_` between digits and non-ASCII digits. The model accepts only an optional sign and ASCII digits, which covers every string the cleaning step can produce from a label.
- Binning.Cut: pandas raises `ValueError` for edges that are not strictly increasing. Both call sites pass constant increasing edges, so this is a precondition and not an error path. NaN inputs are not modelled.
- The probability check in `np.random.choice` also tests that the weights sum to 1 within a tolerance. With exact reals `prob + (1 - prob)` is exactly 1, so only the negativity test remains.
