# Immobilier_v2 valuation engine in Dafny

This project models the valuation engine of Immobilier_v2, a tool that ranks
rental-investment listings. Two modules come from the repository. The first is
`compute_scores` in `core/scoring.py` together with its helpers `clamp` and
`monthly_net_rent` and its nested `pmt`, `strat_multiplier`, `row_rent` and
`normalize`. The second is the DVF helper in `core/dvf.py` (DVF is the French
public register of property sales, and it supplies market medians of price per
m²).

For each listing, `compute_scores` does the following:

- resolves the column synonyms case-insensitively;
- discounts the price by a negotiation rate that grows with the listing's age;
- adds notary fees and works and subtracts the down payment to get the amount
  borrowed, which it clips at 0;
- computes the annuity payment and the loan insurance;
- estimates the rent, with a strategy uplift and an optional rent cap;
- subtracts the percentage deductions and the fixed charges;
- derives the cash flow, gross yield, net yield and cash-on-cash return.

It then min-max normalises four features across the batch, and combines them
into an investor score in [0, 100]. It sorts by cash flow and then by score,
both descending, and keeps a fixed list of output columns.

`load_dvf_medians` checks that the median table has its two required columns.
`price_gap_vs_dvf` returns the percentage gap between a listing's price per m²
and the median of the first row for its city.

The model works on values:

- A listing is a `Listing` record holding the values of its resolved columns.
- The parameters bundle is a `Params` record.
- A batch is a `seq<Listing>`.
- Money and rates are `real`.
- A pandas NaN or a Python `None` is an `Option`.
- A raised exception is a `Result` holding an `Exception`.

`compute_scores` adds columns to a copy of the table one at a time. The model
replaces that with a per-row function (`Scoring.RowMetrics`) mapped over the
batch, followed by batch normalisation, scoring and sorting
(`Ranking.ScoreRows`). Nothing in the engine outlives the call, so nothing is
modelled as mutable state.

`estimate_rent_per_m2` and `apply_rent_cap` live in `core/rents.py`, which is
not part of this model. They are the two function fields of `Scoring.Rents`.
Their benchmark and fallback tables are already bound into those fields. The
model states only what the call site fixes: the arguments passed, and a cap
flag that is true when `apply_cap` is set and the lowered city is among the
rent-controlled cities.

Some behaviours of the code are easy to miss, and the model keeps them:

- pandas `clip` with bounds in the wrong order swaps them (`Scoring.Clip`).
- A row with an empty age cell, in an age column whose other ages differ,
  scores 0: its normalised age is NaN, and `fillna(0)` zeroes the whole score.
- The loan payment raises `ZeroDivisionError` in the cases where Python
  divides by zero.
- No row is skipped: a row with a non-positive surface or price is scored like
  any other.

Modules and files:

- `wrappers.dfy` (`Wrappers`): `Option`, `Result` and the exceptions.
- `columns.dfy` (`Columns`): `str.lower`, the `{c.lower(): c}` index and the
  ordered synonym lookup `cols.get(a) or cols.get(b)`.
- `loan.dfy` (`Loan`): `pmt`, plus a reference definition of the month-by-month
  loan balance.
- `scoring.dfy` (`Scoring`): everything computed within one row.
- `ranking.dfy` (`Ranking`): normalisation, score, sort, output columns and
  `compute_scores` itself.
- `dvf.dfy` (`Dvf`): the DVF helper.

## Model

| member | source | states |
|---|---|---|
| `Columns.LowerChar` | core/scoring.py:16 | lowering a character: the result is never upper case, a non-upper character is unchanged, and an upper-case letter moves down by 32 code points |
| `Columns.Lower` | core/scoring.py:16 | `str.lower` keeps the length and lowers each character |
| `Columns.LowerIdempotent` | core/scoring.py:16 | lowering a name twice gives the same result as lowering it once |
| `Columns.LowerIndexSpec` | core/scoring.py:16 | the `{c.lower(): c}` index has one key per lowered column name and no other key; each key maps to the last column with that lowered name |
| `Columns.FirstPresent` | core/scoring.py:17-22 | `cols.get(a) or cols.get(b) or …` gives nothing exactly when no spelling is a key; otherwise it gives the column of the first spelling that is a key |
| `Columns.ResolveSpec` | core/scoring.py:16-22 | a field is unresolved exactly when no column name lowers to one of its spellings; a resolved column is one of the table's own columns, and its lowered name is one of the spellings |
| `Columns.ResolveCaseInsensitive` | core/scoring.py:16-22 | renaming columns to other cases does not change which fields resolve |
| `Loan.Pmt` | core/scoring.py:49-52 | returns 0 for a non-positive principal; at a zero rate the payment times `n` is the principal; otherwise the payment times `(1+r)^n - 1` equals `p·r·(1+r)^n`; it raises `ZeroDivisionError` exactly when `n` is 0 at a zero rate, or when `(1+r)^n` is 1 otherwise |
| `Loan.BalanceClosedForm` | core/scoring.py:52 | the loan balance after `k` months, times the rate, has the closed form `p·r·(1+r)^k - pay·((1+r)^k - 1)` |
| `Loan.BalanceZeroRate` | core/scoring.py:51 | at a zero rate the balance falls by one payment each month |
| `Loan.PmtRepaysLoan` | core/scoring.py:49-55 | the payment `pmt` returns for a positive principal leaves a balance of exactly 0 after `n` months |
| `Loan.PmtExceedsInterest` | core/scoring.py:49-52 | with a positive principal, a positive rate and at least one month, `pmt` does not raise and the payment exceeds the first month's interest |
| `Scoring.Clamp` | core/scoring.py:6-7 | for `lo <= hi` the result lies in `[lo, hi]`; it is `x` when `x` is inside, `lo` below and `hi` above; with `hi < lo` the result is `lo` |
| `Scoring.Clip` | core/scoring.py:36 | pandas `clip` with scalar bounds is a clamp between the smaller bound and the larger one |
| `Scoring.ClipBelowZero` | core/scoring.py:45 | `clip(lower=0)` gives a value that is non-negative, at least the input, equal to the input when the input is already non-negative, and 0 when it is negative |
| `Scoring.DeductionRate` | core/scoring.py:11 | the summed deduction rate lies in [0, 0.95]; it equals the sum when the sum is already inside, is 0 when the sum is negative, and is 0.95 when the sum exceeds 0.95 |
| `Scoring.MonthlyNetRent` | core/scoring.py:9-12 | net rent plus the fixed charges equals gross rent times one minus the deduction rate; for a non-negative gross, net rent plus the charges lies in `[gross/20, gross]`, and the bounds are mirrored for a non-positive gross |
| `Scoring.NetRentMonotone` | core/scoring.py:9-12 | more gross rent never gives less net rent |
| `Scoring.StratMultiplier` | core/scoring.py:65-70 | the multiplier is 1.0, 1.1 or 1.4; it is 1.1 exactly for `meuble` and 1.4 exactly for `colocation`, in any case |
| `Scoring.StratMultiplierCaseInsensitive` | core/scoring.py:66 | strategy names that lower to the same string get the same multiplier |
| `Scoring.ResolveColumns` | core/scoring.py:16-26 | raises `ValueError` with the source's message exactly when price, surface or city does not resolve; otherwise each field is the column its synonyms resolve to |
| `Scoring.MissingColumnsSpec` | core/scoring.py:16-26 | the listing table is refused exactly when, for price, surface or city, no column name lowers to any accepted spelling |
| `Scoring.NegotiationRate` | core/scoring.py:32-36 | for `neg_max >= 0` the rate lies in `[0, neg_max]` (mirrored for a negative `neg_max`); a row without an age gets `base_neg` clipped, and a row aged `d` days gets `base_neg + d/30·extra_per_30d` clipped |
| `Scoring.AgeExtraMonotone` | core/scoring.py:33 | with a non-negative `extra_per_30d`, an older listing earns at least the extra of a younger one |
| `Scoring.ClipMonotone` | core/scoring.py:36 | `clip` never reverses the order of two values |
| `Scoring.ExpectedPriceAntitone` | core/scoring.py:37 | for a non-negative price, a higher negotiation rate never gives a higher negotiated price |
| `Scoring.OlderListingNegotiatesMore` | core/scoring.py:32-37 | with a non-negative `extra_per_30d`, an older listing gets at least the negotiation rate of a younger one and, for a non-negative price, a negotiated price that is no higher |
| `Scoring.OlderRowPricesLower` | core/scoring.py:32-37 | of two rows with the same non-negative price in a table with ages, the older one has the lower or equal `expected_price` when `extra_per_30d` is non-negative |
| `Scoring.NegotiationRatesAsWritten` | core/scoring.py:32-36 | the negotiation step as written: it raises `AttributeError` exactly when the table has no age column or only empty age cells; otherwise each row gets the clipped rate, with an empty age read as 0 |
| `Scoring.NoAgeColumnRaises` | core/scoring.py:32-36 | one listing without an age column makes the step as written raise; the intended rate is `base_neg` clipped to `[0, neg_max]` |
| `Scoring.ExpectedPrice` | core/scoring.py:37 | for a non-negative price and a rate in [0, 1], the negotiated price lies in `[0, price]` and is the price less `price·rate` |
| `Scoring.ExpectedPriceBounds` | core/scoring.py:32-37 | for a non-negative price and `0 <= neg_max <= 1`, the negotiated price lies in `[price·(1-neg_max), price]` |
| `Scoring.RawRent` | core/scoring.py:72-75 | the rent before the cap is `surface × estimate_rent_per_m2(city, type cell or "all") × strategy multiplier`; it is 0 for a zero surface and non-negative for a non-negative surface and estimate |
| `Scoring.RawRentUplift` | core/scoring.py:65-75 | every strategy's raw rent is its multiplier times the unfurnished (`nu`) raw rent |
| `Scoring.RawRentWithoutTypeColumn` | core/scoring.py:73 | without a type column the row's type cell does not change the raw rent, because the lookup uses `"all"` |
| `Scoring.CapActive` | core/scoring.py:76 | the cap flag is off when `apply_cap` is off; otherwise it is on exactly when the lowered city is a rent-controlled city |
| `Scoring.CapCaseInsensitive` | core/scoring.py:76 | cities that lower to the same string get the same cap flag |
| `Scoring.BrestFurnishedRent` | core/scoring.py:72-76 | 50 m² furnished in Brest at 9.5 €/m², with no type column, gives a raw rent of 522.5, and the rent cap is off with the parameters page's city list |
| `Scoring.Percent` | core/scoring.py:92-98 | a yield is undefined exactly when its denominator is 0; otherwise the yield times the denominator is 100 times the numerator |
| `Scoring.ToFinance` | core/scoring.py:45 | the amount borrowed is non-negative, at least the raw sum, equal to the raw sum when that is non-negative, and 0 when it is negative |
| `Scoring.Assemble` | core/scoring.py:89-98 | cash flow plus payment plus insurance equals net rent, and the three yields agree with their denominators and amounts |
| `Scoring.Derive` | core/scoring.py:37-98 | once the payment is known, every derived column of the row means what the source computes (`RowAgrees`): negotiated price, fees, amount borrowed, insurance, capped rent, net rent, cash flow and yields |
| `Scoring.RowMetrics` | core/scoring.py:28-98 | a row fails exactly when `pmt` on its amount borrowed divides by zero, and then with `ZeroDivisionError`; otherwise its columns satisfy `RowAgrees`, the amount borrowed is non-negative, a positive amount is repaid to a balance of 0 over the loan's months, and a zero amount has a zero payment |
| `Ranking.Defined` | core/scoring.py:102 | the defined entries of a column are exactly the values it holds |
| `Ranking.MinOf` | core/scoring.py:103 | the minimum is an element and is at most every element |
| `Ranking.MaxOf` | core/scoring.py:103 | the maximum is an element and is at least every element |
| `Ranking.Normalize` | core/scoring.py:101-105 | the length is kept; a degenerate column gives 0.5 on every row; otherwise NaN stays NaN, defined values land in [0, 1] in the same order, and some row maps to 0 and some row to 1 |
| `Ranking.RescaleSpec` | core/scoring.py:105 | `(x - min)/(max - min)` maps `[min, max]` onto [0, 1], monotonically, with the minimum on 0 and the maximum on 1 |
| `Ranking.RescaleAt` | core/scoring.py:105 | a defined entry lands at `v` with `v·(max - min) = x - min`: the fraction of the way from the minimum to the maximum it stood at |
| `Ranking.NormalizeFraction` | core/scoring.py:101-105 | outside the degenerate case, each defined entry `x` is normalised to `v` with `v·(max - min) = x - min`, where min and max are those of the defined entries |
| `Ranking.NormalizeOrder` | core/scoring.py:101-105 | normalisation keeps two defined entries defined and keeps their order, in the degenerate case too |
| `Ranking.ScoreOf` | core/scoring.py:111-112 | the score is 0 when any feature is NaN, lies in [0, 100] when every feature is in [0, 1], is 50 when every feature is 0.5, is 100 for the best features (cash flow, net and gross yield 1, age 0) and 0 for the worst; each feature alone contributes its weight: 40 for cash flow, 25 for net yield, 15 for freshness and 20 for gross yield |
| `Ranking.ScoreMonotone` | core/scoring.py:111 | the score does not decrease when the normalised cash flow, net yield or gross yield grows, nor when the normalised age shrinks |
| `Ranking.FreshnessColumn` | core/scoring.py:109 | the age axis has one entry per row, each in [0, 1] when defined, and every entry is the neutral 0.5 when the table has no age column |
| `Ranking.ScoreAt` | core/scoring.py:107-112 | the score of one row of the batch lies in [0, 100] |
| `Ranking.ScoreBatch` | core/scoring.py:107-112 | every row keeps its metrics and gets a score in [0, 100], namely the `ScoreOf` of its normalised cash flow, net yield, age (neutral 0.5 without an age column) and gross yield |
| `Ranking.BatchDominance` | core/scoring.py:101-112 | within one batch, a row whose cash flow, net yield and gross yield are each at least another's, and whose age is at most the other's when ages are scored, scores at least as much |
| `Ranking.SingleListingScoresFifty` | core/scoring.py:101-112 | a batch of a single listing scores exactly 50 |
| `Ranking.UndefinedNetYieldScoresZero` | core/scoring.py:108-112 | when the net yields are not all equal, a row with an undefined net yield scores 0 |
| `Ranking.MissingAgeScoresZero` | core/scoring.py:109-112 | with an age column whose ages are not all equal, a row with an empty age scores 0 |
| `Ranking.NoAgeColumnIsNeutral` | core/scoring.py:109 | dropping the age column leaves every score as it is when all ages are equal or all are empty |
| `Ranking.Insert` | core/scoring.py:115 | inserting adds exactly one row, and its listing, to the multiset |
| `Ranking.InsertSorted` | core/scoring.py:115 | inserting into a sorted sequence keeps it sorted by cash flow and then score, both descending |
| `Ranking.SortByRank` | core/scoring.py:115 | the result is sorted by cash flow and then score, both descending, and is a permutation of the input rows and of their listings |
| `Ranking.RankBatch` | core/scoring.py:107-115 | the ranked batch is a permutation of the scored batch `ScoreBatch`, so every row keeps the investor score of its own normalised features; it has one row per input row, is sorted, carries only input metrics with scores in [0, 100], and holds the input listings as a multiset |
| `Ranking.OutputColumns` | core/scoring.py:118-127 | the output has 13 columns plus one each for the age and URL columns; it starts with city, surface and price; the age column, when present, is at position 3; the ten derived columns `DerivedColumns` follow in order from `expected_price` to `investor_score`; the URL column, when present, is last |
| `Ranking.AllMetrics` | core/scoring.py:55-98 | applying the row function succeeds exactly when every row succeeds, and then gives each row's own result in order; otherwise it gives the exception of the first failing row |
| `Ranking.ScoreRows` | core/scoring.py:28-115 | the rows fail only with `ZeroDivisionError`; otherwise every row succeeds and the result is a permutation of `ScoreBatch` over the rows' derived columns, so each listing appears exactly once with its own investor score, in rank order, in [0, 100] |
| `Ranking.ScoreRowsFails` | core/scoring.py:49-55 | the rows fail exactly when some row's `pmt` divides by zero |
| `Ranking.ComputeScores` | core/scoring.py:14-131 | `ValueError` with the source's message when a required column is missing, and otherwise only `ZeroDivisionError`; on success the output columns are `OutputColumns`, the output rows are a permutation of `ScoreBatch` over the rows' derived columns (each listing with its own investor score), every input listing appears exactly once, the rows are in rank order, and every score lies in [0, 100] |
| `Ranking.ComputeScoresFails` | core/scoring.py:49-55 | once the columns resolve, `compute_scores` fails exactly when some row's `pmt` divides by zero |
| `Ranking.ComputeScoresRows` | core/scoring.py:28-115 | every output row carries the derived columns computed from its own listing |
| `Dvf.LoadDvfMedians` | core/dvf.py:4-13 | a missing or empty table gives nothing; `ValueError` with the source's message exactly when no column name lowers to `city` or none to `median_price_sqm`; a non-empty table that passes is returned itself |
| `Dvf.FirstMatch` | core/dvf.py:21-28 | there is no match exactly when no row's city cell is text that lowers to the listing's lowered city; otherwise it gives the first row that matches |
| `Dvf.PriceGap` | core/dvf.py:15-32 | no gap for a missing or empty table or a non-positive surface; otherwise `KeyError` when no column lowers to `city`, and else the gap of `GapInCity` on the resolved columns; `KeyError` only when a looked-up column is missing; a percentage only from the first matching row's positive numeric median, and equal to the gap formula |
| `Dvf.GapInCity` | core/dvf.py:21-32 | once the city column is known: `AttributeError` exactly when no city cell is text; no gap when no row matches; then `KeyError` without a median column; for the first matching row's median cell, `ValueError` quoting a text cell, NaN for an empty cell, no gap for a median at most 0, and the gap formula for a positive median |
| `Dvf.GapFromMedian` | core/dvf.py:21-32 | on a table with both columns, a positive surface and a text city column, a positive numeric median in the city's first row gives the gap formula, and a median at most 0 gives no gap |
| `Dvf.GapSign` | core/dvf.py:31-32 | the gap is positive exactly when price per m² exceeds the median and zero exactly when they are equal; applying the gap to the median gives back the price per m² |
| `Dvf.GapExample` | core/dvf.py:15-32 | 300000 € for 60 m² against a 4500 €/m² median in the same city gives 100/9 %, about 11.11 % |
| `Dvf.OnlyCityAndMedianMatter` | core/dvf.py:20-28 | tables that agree on the city and median columns give the same gap, whatever their property types and other cells |
| `Dvf.GapCaseInsensitive` | core/dvf.py:21 | cities that lower to the same string get the same gap |
| `Dvf.LoadedTableHasColumns` | core/dvf.py:4-32 | a table accepted by `load_dvf_medians` never makes the gap raise `KeyError` |
| `Dvf.UnknownCityHasNoGap` | core/dvf.py:21-23 | a city that no row holds gets no gap |

## Left out

- `core/rents.py` and `core/finance.py` are not part of this model. The rent estimate and the rent cap are uninterpreted function fields of `Rents`. The amortisation table is not modelled; `Loan.Balance` is this model's own reference definition.
- The Streamlit pages and `app.py` (file upload, `read_csv`, widgets, filters, formatting, maps) are user-interface code.
- Floating point: money is `real`, with no rounding, no overflow and no IEEE infinities.
- Percent: every zero denominator gives an undefined (NaN) yield. In pandas the gross yield has no NaN replacement, so a non-zero rent over a zero negotiated price gives ±inf. `normalize` leaves out ±inf when it takes the min and max, just as `Defined` leaves out the undefined entry, so the two agree when the finite gross yields are all equal or absent (0.5 on every row). Otherwise pandas keeps ±inf in that row's normalised gross yield, and the row scores ±inf (or 0 when another of its features is NaN), where the model scores 0.
- Columns.LowerChar: lowers ASCII and Latin-1 letters only; other Unicode case mappings of `str.lower` are not modelled.
- Ranking.SortByRank: rows equal on both keys come out in one fixed order. pandas' order among such ties is not modelled, and the contracts state only the sort order and the permutation.
- Listing fields are typed values. `astype(float)` and `float(...)` failures on text cells are not modelled, and neither is the `"nan"` string that `str()` makes of an empty type cell.
- Params is a typed record. The `KeyError` that a missing key (`base_neg`, `extra_per_30d`, `neg_max` are never set by `pages/4_Parametres.py`) would raise is not modelled.
- Scoring.Months: the loan term is a natural number of years. The truncation `int(years * 12)` of a fractional term is not modelled.
- Loan.Pmt: no numeric payment is evaluated (for example 250000 € at 3.05 % over 25 years), because the exact rational power `(1+r)^300` is beyond the solver. `PmtRepaysLoan` characterises the payment instead.
- ComputeScores: the strategy is always an argument. The source's default `strategy="meuble"` is a calling convenience and is not modelled.
- The final loop of `compute_scores`, which adds any missing output column as `None`, never fires, because every output column exists by then; it is not modelled.
- Dvf.PriceGap: a median cell holding text raises `ValueError` in the model, even when the text spells a number that `float()` would parse. The message quotes the text between single quotes; the escaping Python's `repr` applies to quotes and backslashes inside it is not modelled. A NaN price or surface is not modelled. An exact column name that appears twice is not modelled.
- The dashboard's use of the DVF gap as an extra output column (in `pages/1_Dashboard.py`) is user-interface code.

## Findings

| source | as written | input that shows it | evidently intended | confidence | as-written member | corrected member |
|---|---|---|---|---|---|---|
| core/scoring.py:32-36 | without an age column, or with only empty age cells, `extra` is the float 0.0, so `base_neg + extra` is a plain Python float, and calling `.clip` on it raises `AttributeError` | a listing table with only the columns price, surface_m2 and city, and `base_neg` a Python float | every row gets `base_neg` clipped to `[0, neg_max]` | medium, not executed (a NumPy float `base_neg` would have `.clip`) | `Scoring.NoAgeColumnRaises` | `Scoring.NegotiationRate` |
