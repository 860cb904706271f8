/**
 * Batch part of `compute_scores` (core/scoring.py): min-max normalisation of
 * the score features across the batch, the weighted investor score, the
 * two-key descending sort and the output column order.
 */
module Ranking {
  import opened Wrappers
  import opened Columns
  import opened Loan
  import opened Scoring

  /** The defined (non-NaN) entries of a column, in order: `series.dropna()`. */
  function Defined(xs: seq<Option<real>>): (s: seq<real>)
    ensures forall v :: v in s <==> Some(v) in xs
  {
    if xs == [] then []
    else
      var rest := Defined(xs[1..]);
      assert forall v :: Some(v) in xs <==> xs[0] == Some(v) || Some(v) in xs[1..];
      if xs[0].Some? then [xs[0].value] + rest else rest
  }

  function MinOf(s: seq<real>): (m: real)
    requires |s| > 0
    ensures m in s && forall v :: v in s ==> m <= v
  {
    if |s| == 1 then s[0]
    else
      var m := MinOf(s[1..]);
      assert forall v :: v in s ==> v == s[0] || v in s[1..];
      if s[0] <= m then s[0] else m
  }

  function MaxOf(s: seq<real>): (m: real)
    requires |s| > 0
    ensures m in s && forall v :: v in s ==> v <= m
  {
    if |s| == 1 then s[0]
    else
      var m := MaxOf(s[1..]);
      assert forall v :: v in s ==> v == s[0] || v in s[1..];
      if s[0] >= m then s[0] else m
  }

  /** No defined entries, or all defined entries equal: `s.empty or s.max() == s.min()`. */
  predicate Degenerate(xs: seq<Option<real>>) {
    var s := Defined(xs);
    |s| == 0 || MaxOf(s) == MinOf(s)
  }

  /**
   * `normalize`: a degenerate column becomes 0.5 on every row (NaN rows
   * included); otherwise each defined entry is mapped linearly onto [0, 1],
   * the smallest to 0 and the largest to 1, and NaN entries stay NaN.
   */
  function Normalize(xs: seq<Option<real>>): (r: seq<Option<real>>)
    ensures |r| == |xs|
    ensures Degenerate(xs) ==> forall i :: 0 <= i < |r| ==> r[i] == Some(0.5)
    ensures !Degenerate(xs) ==> forall i :: 0 <= i < |r| ==>
              (r[i].None? <==> xs[i].None?) && (r[i].Some? ==> 0.0 <= r[i].value <= 1.0)
    ensures !Degenerate(xs) ==>
              forall i, j :: 0 <= i < |r| && 0 <= j < |r| && xs[i].Some? && xs[j].Some? && xs[i].value <= xs[j].value
                ==> r[i].value <= r[j].value
    ensures !Degenerate(xs) ==> (exists i :: 0 <= i < |r| && r[i] == Some(0.0)) &&
                                (exists i :: 0 <= i < |r| && r[i] == Some(1.0))
    ensures forall i :: 0 <= i < |r| && r[i].Some? ==> 0.0 <= r[i].value <= 1.0
  {
    if Degenerate(xs) then seq(|xs|, _ => Some(0.5))
    else
      var s := Defined(xs);
      var lo, hi := MinOf(s), MaxOf(s);
      assert Some(lo) in xs && Some(hi) in xs;
      RescaleSpec(xs, lo, hi);
      Rescale(xs, lo, hi)
  }

  /**
   * Outside the degenerate case, each defined entry is normalised to the
   * fraction of the way from the column's minimum `lo` to its maximum `hi` it
   * stood at.
   */
  lemma {:induction false} NormalizeFraction(xs: seq<Option<real>>, lo: real, hi: real)
    requires !Degenerate(xs) && lo == MinOf(Defined(xs)) && hi == MaxOf(Defined(xs))
    ensures forall i :: 0 <= i < |xs| && xs[i].Some? ==>
              Normalize(xs)[i].Some? && Normalize(xs)[i].value * (hi - lo) == xs[i].value - lo
  {
    forall i | 0 <= i < |xs| && xs[i].Some?
      ensures Normalize(xs)[i].Some? && Normalize(xs)[i].value * (hi - lo) == xs[i].value - lo
    {
      NormalizeAt(xs, i, lo, hi);
    }
  }

  lemma NormalizeAt(xs: seq<Option<real>>, i: nat, lo: real, hi: real)
    requires !Degenerate(xs) && lo == MinOf(Defined(xs)) && hi == MaxOf(Defined(xs))
    requires i < |xs| && xs[i].Some?
    ensures Normalize(xs)[i].Some? && Normalize(xs)[i].value * (hi - lo) == xs[i].value - lo
  {
    RescaleAt(xs, i, lo, hi, Normalize(xs));
  }

  /** `(series - s.min()) / (s.max() - s.min())` */
  function Rescale(xs: seq<Option<real>>, lo: real, hi: real): seq<Option<real>>
    requires lo < hi
  {
    seq(|xs|, i requires 0 <= i < |xs| => if xs[i].None? then None else Some((xs[i].value - lo) / (hi - lo)))
  }

  /** Entries between `lo` and `hi` land in [0, 1] in the same order, `lo` on 0 and `hi` on 1. */
  lemma {:induction false} RescaleSpec(xs: seq<Option<real>>, lo: real, hi: real)
    requires lo < hi
    requires forall i :: 0 <= i < |xs| && xs[i].Some? ==> lo <= xs[i].value <= hi
    requires Some(lo) in xs && Some(hi) in xs
    ensures var r := Rescale(xs, lo, hi);
      |r| == |xs| &&
      (forall i :: 0 <= i < |r| ==> (r[i].None? <==> xs[i].None?) && (r[i].Some? ==> 0.0 <= r[i].value <= 1.0)) &&
      (forall i, j :: 0 <= i < |r| && 0 <= j < |r| && xs[i].Some? && xs[j].Some? && xs[i].value <= xs[j].value
         ==> r[i].value <= r[j].value) &&
      (exists i :: 0 <= i < |r| && r[i] == Some(0.0)) &&
      (exists i :: 0 <= i < |r| && r[i] == Some(1.0))
  {
    var r := Rescale(xs, lo, hi);
    forall i | 0 <= i < |r| && r[i].Some? ensures 0.0 <= r[i].value <= 1.0 {
      DivideWithin(xs[i].value - lo, hi - lo);
    }
    forall i, j | 0 <= i < |r| && 0 <= j < |r| && xs[i].Some? && xs[j].Some? && xs[i].value <= xs[j].value
      ensures r[i].value <= r[j].value
    {
      DivideMonotone(xs[i].value - lo, xs[j].value - lo, hi - lo);
    }
    var a :| 0 <= a < |xs| && xs[a] == Some(lo);
    var b :| 0 <= b < |xs| && xs[b] == Some(hi);
    DivideExtremes(lo, hi);
    assert r[a] == Some((lo - lo) / (hi - lo));
    assert r[b] == Some((hi - lo) / (hi - lo));
  }

  lemma DivideExtremes(lo: real, hi: real)
    requires lo < hi
    ensures (lo - lo) / (hi - lo) == 0.0 && (hi - lo) / (hi - lo) == 1.0
  {
  }

  /** A defined entry lands at the fraction of the way from `lo` to `hi` it stood at. */
  lemma RescaleAt(xs: seq<Option<real>>, i: nat, lo: real, hi: real, r: seq<Option<real>>)
    requires lo < hi && i < |xs| && xs[i].Some? && r == Rescale(xs, lo, hi)
    ensures r[i].Some? && r[i].value * (hi - lo) == xs[i].value - lo
  {
    DivideTimes(xs[i].value - lo, hi - lo);
  }

  lemma DivideTimes(a: real, d: real)
    requires d > 0.0
    ensures a / d * d == a
  {
  }

  lemma DivideWithin(a: real, d: real)
    requires 0.0 <= a <= d && d > 0.0
    ensures 0.0 <= a / d <= 1.0
  {
    assert a / d * d == a;
  }

  lemma DivideMonotone(a: real, b: real, d: real)
    requires a <= b && d > 0.0
    ensures a / d <= b / d
  {
    assert b / d - a / d == (b - a) / d;
  }

  /** A score feature column over the batch. */
  function CashflowColumn(ms: seq<Metrics>): seq<Option<real>> {
    seq(|ms|, i requires 0 <= i < |ms| => Some(ms[i].cashflowMonthly))
  }
  function NetYieldColumn(ms: seq<Metrics>): seq<Option<real>> {
    seq(|ms|, i requires 0 <= i < |ms| => ms[i].netYield)
  }
  function GrossYieldColumn(ms: seq<Metrics>): seq<Option<real>> {
    seq(|ms|, i requires 0 <= i < |ms| => ms[i].grossYield)
  }
  function DaysColumn(ms: seq<Metrics>): seq<Option<real>> {
    seq(|ms|, i requires 0 <= i < |ms| => ms[i].listing.daysOnMarket)
  }

  /** The neutral column `pd.Series([0.5] * len(df))`. */
  function Neutral(n: nat): seq<Option<real>> {
    seq(n, _ => Some(0.5))
  }

  /** Weights of the four features; they sum to 1. */
  const CashflowWeight := 0.40
  const NetYieldWeight := 0.25
  const FreshnessWeight := 0.15
  const GrossYieldWeight := 0.20

  /**
   * The investor score of one row from its normalised features: the weighted
   * sum times 100, or 0 when any feature is NaN (`fillna(0)` on the sum).
   */
  function ScoreOf(cf: Option<real>, ny: Option<real>, dom: Option<real>, gy: Option<real>): (s: real)
    ensures cf.None? || ny.None? || dom.None? || gy.None? ==> s == 0.0
    ensures cf.Some? && ny.Some? && dom.Some? && gy.Some? &&
            0.0 <= cf.value <= 1.0 && 0.0 <= ny.value <= 1.0 && 0.0 <= dom.value <= 1.0 && 0.0 <= gy.value <= 1.0
            ==> 0.0 <= s <= 100.0
    ensures cf == ny == dom == gy == Some(0.5) ==> s == 50.0
    ensures cf == ny == gy == Some(1.0) && dom == Some(0.0) ==> s == 100.0
    ensures cf == ny == gy == Some(0.0) && dom == Some(1.0) ==> s == 0.0
    ensures cf == dom == Some(1.0) && ny == gy == Some(0.0) ==> s == 40.0
    ensures ny == dom == Some(1.0) && cf == gy == Some(0.0) ==> s == 25.0
    ensures cf == ny == dom == gy == Some(0.0) ==> s == 15.0
    ensures gy == dom == Some(1.0) && cf == ny == Some(0.0) ==> s == 20.0
  {
    if cf.None? || ny.None? || dom.None? || gy.None? then 0.0
    else (CashflowWeight * cf.value + NetYieldWeight * ny.value + FreshnessWeight * (1.0 - dom.value)
          + GrossYieldWeight * gy.value) * 100.0
  }

  /**
   * The score rewards each feature: it does not decrease when the cash flow,
   * the net yield or the gross yield grows, nor when the listing gets younger.
   */
  lemma ScoreMonotone(cf1: real, ny1: real, dom1: real, gy1: real, cf2: real, ny2: real, dom2: real, gy2: real)
    requires cf1 <= cf2 && ny1 <= ny2 && dom2 <= dom1 && gy1 <= gy2
    ensures ScoreOf(Some(cf1), Some(ny1), Some(dom1), Some(gy1)) <= ScoreOf(Some(cf2), Some(ny2), Some(dom2), Some(gy2))
  {
  }

  /** A row with its investor score. */
  datatype Scored = Scored(metrics: Metrics, score: real)

  /** The normalised age column; it is neutral when the table has no age column. */
  function FreshnessColumn(ms: seq<Metrics>, hasDays: bool): (r: seq<Option<real>>)
    ensures |r| == |ms|
    ensures forall i :: 0 <= i < |r| && r[i].Some? ==> 0.0 <= r[i].value <= 1.0
    ensures !hasDays ==> forall i :: 0 <= i < |r| ==> r[i] == Some(0.5)
  {
    if hasDays then Normalize(DaysColumn(ms)) else Neutral(|ms|)
  }

  /**
   * Every row with the investor score of its normalised features, in input
   * order.
   */
  function ScoreBatch(ms: seq<Metrics>, hasDays: bool): (r: seq<Scored>)
    ensures |r| == |ms|
    ensures forall i :: 0 <= i < |r| ==> r[i].metrics == ms[i] && 0.0 <= r[i].score <= 100.0
    ensures forall i :: 0 <= i < |r| ==>
              r[i].score == ScoreOf(Normalize(CashflowColumn(ms))[i], Normalize(NetYieldColumn(ms))[i],
                                    FreshnessColumn(ms, hasDays)[i], Normalize(GrossYieldColumn(ms))[i])
  {
    seq(|ms|, i requires 0 <= i < |ms| => Scored(ms[i], ScoreAt(ms, hasDays, i)))
  }

  /** The score of row `i` of the batch. */
  function ScoreAt(ms: seq<Metrics>, hasDays: bool, i: nat): (s: real)
    requires i < |ms|
    ensures 0.0 <= s <= 100.0
  {
    ScoreOf(Normalize(CashflowColumn(ms))[i], Normalize(NetYieldColumn(ms))[i],
            FreshnessColumn(ms, hasDays)[i], Normalize(GrossYieldColumn(ms))[i])
  }

  /** Normalisation keeps the order of two defined entries, and keeps them defined. */
  lemma NormalizeOrder(xs: seq<Option<real>>, i: nat, j: nat)
    requires i < |xs| && j < |xs| && xs[i].Some? && xs[j].Some? && xs[i].value <= xs[j].value
    ensures Normalize(xs)[i].Some? && Normalize(xs)[j].Some?
    ensures Normalize(xs)[i].value <= Normalize(xs)[j].value
  {
  }

  /**
   * Within one batch, a row whose cash flow, net yield and gross yield are each
   * at least another's, and (when ages are scored) whose age is at most the
   * other's, scores at least as much.
   */
  lemma {:induction false} BatchDominance(ms: seq<Metrics>, hasDays: bool, i: nat, j: nat)
    requires i < |ms| && j < |ms|
    requires ms[i].netYield.Some? && ms[j].netYield.Some? && ms[i].grossYield.Some? && ms[j].grossYield.Some?
    requires ms[j].cashflowMonthly <= ms[i].cashflowMonthly
    requires ms[j].netYield.value <= ms[i].netYield.value && ms[j].grossYield.value <= ms[i].grossYield.value
    requires hasDays ==> ms[i].listing.daysOnMarket.Some? && ms[j].listing.daysOnMarket.Some? &&
                         ms[i].listing.daysOnMarket.value <= ms[j].listing.daysOnMarket.value
    ensures ScoreBatch(ms, hasDays)[j].score <= ScoreBatch(ms, hasDays)[i].score
  {
    var cf, ny, gy := Normalize(CashflowColumn(ms)), Normalize(NetYieldColumn(ms)), Normalize(GrossYieldColumn(ms));
    var dom := FreshnessColumn(ms, hasDays);
    NormalizeOrder(CashflowColumn(ms), j, i);
    NormalizeOrder(NetYieldColumn(ms), j, i);
    NormalizeOrder(GrossYieldColumn(ms), j, i);
    if hasDays {
      NormalizeOrder(DaysColumn(ms), i, j);
    }
    ScoreMonotone(cf[j].value, ny[j].value, dom[j].value, gy[j].value, cf[i].value, ny[i].value, dom[i].value, gy[i].value);
    assert ScoreBatch(ms, hasDays)[i].score == ScoreOf(cf[i], ny[i], dom[i], gy[i]);
    assert ScoreBatch(ms, hasDays)[j].score == ScoreOf(cf[j], ny[j], dom[j], gy[j]);
  }

  /** A batch of one listing scores exactly 50: every axis is degenerate. */
  lemma {:induction false} SingleListingScoresFifty(m: Metrics, hasDays: bool)
    ensures ScoreBatch([m], hasDays)[0].score == 50.0
  {
    var ms := [m];
    DegenerateSingleton(CashflowColumn(ms));
    DegenerateSingleton(NetYieldColumn(ms));
    DegenerateSingleton(DaysColumn(ms));
    DegenerateSingleton(GrossYieldColumn(ms));
  }

  lemma {:induction false} DegenerateSingleton(xs: seq<Option<real>>)
    requires |xs| == 1
    ensures Degenerate(xs)
  {
    assert xs[1..] == [];
  }

  /**
   * When the net yields are not all equal across the batch, a row whose net yield is NaN
   * (zero price, fees and works) scores 0, whatever its other features.
   */
  lemma {:induction false} UndefinedNetYieldScoresZero(ms: seq<Metrics>, hasDays: bool, i: nat)
    requires i < |ms| && ms[i].netYield.None? && !Degenerate(NetYieldColumn(ms))
    ensures ScoreBatch(ms, hasDays)[i].score == 0.0
  {
    assert NetYieldColumn(ms)[i].None?;
  }

  /**
   * With an age column whose ages are not all equal, a row with an empty age
   * cell scores 0: `normalize` leaves its age NaN.
   */
  lemma {:induction false} MissingAgeScoresZero(ms: seq<Metrics>, i: nat)
    requires i < |ms| && ms[i].listing.daysOnMarket.None? && !Degenerate(DaysColumn(ms))
    ensures ScoreBatch(ms, true)[i].score == 0.0
  {
    assert DaysColumn(ms)[i].None?;
  }

  /**
   * Without an age column every row scores as it would with an age column
   * whose ages are all equal (or all empty): both make the age axis 0.5.
   */
  lemma {:induction false} NoAgeColumnIsNeutral(ms: seq<Metrics>)
    requires Degenerate(DaysColumn(ms))
    ensures forall i :: 0 <= i < |ms| ==> ScoreBatch(ms, false)[i].score == ScoreBatch(ms, true)[i].score
  {
    assert forall i :: 0 <= i < |ms| ==> Normalize(DaysColumn(ms))[i] == Neutral(|ms|)[i];
  }

  /** `sort_values(["cashflow_monthly", "investor_score"], ascending=[False, False])` order. */
  predicate RanksBefore(a: Scored, b: Scored) {
    a.metrics.cashflowMonthly > b.metrics.cashflowMonthly ||
    (a.metrics.cashflowMonthly == b.metrics.cashflowMonthly && a.score >= b.score)
  }

  predicate SortedByRank(s: seq<Scored>) {
    forall i, j :: 0 <= i < j < |s| ==> RanksBefore(s[i], s[j])
  }

  /** The listings of scored rows, in order. */
  function ListingsOf(s: seq<Scored>): seq<Listing> {
    if s == [] then [] else [s[0].metrics.listing] + ListingsOf(s[1..])
  }

  /** Places `x` before the first row it ranks before. */
  function Insert(x: Scored, s: seq<Scored>): (r: seq<Scored>)
    ensures multiset(r) == multiset(s) + multiset{x}
    ensures multiset(ListingsOf(r)) == multiset(ListingsOf(s)) + multiset{x.metrics.listing}
  {
    if s == [] then [x]
    else if RanksBefore(x, s[0]) then
      assert s == [s[0]] + s[1..];
      [x] + s
    else
      assert s == [s[0]] + s[1..];
      [s[0]] + Insert(x, s[1..])
  }

  lemma {:induction false} InsertSorted(x: Scored, s: seq<Scored>)
    requires SortedByRank(s)
    ensures SortedByRank(Insert(x, s))
  {
    if s == [] {
    } else if RanksBefore(x, s[0]) {
      ConsSorted(x, s);
    } else {
      assert s == [s[0]] + s[1..];
      InsertSorted(x, s[1..]);
      var t := Insert(x, s[1..]);
      forall y | y in t ensures RanksBefore(s[0], y) {
        assert y in multiset(t);
        if y != x {
          assert y in multiset(s[1..]);
        }
      }
      ConsSorted(s[0], t);
    }
  }

  /** A row ranking before every row of a sorted sequence can be put in front of it. */
  lemma ConsSorted(a: Scored, t: seq<Scored>)
    requires SortedByRank(t)
    requires forall y :: y in t ==> RanksBefore(a, y)
    ensures SortedByRank([a] + t)
  {
    var u := [a] + t;
    forall i, j | 0 <= i < j < |u| ensures RanksBefore(u[i], u[j]) {
      assert u[j] == t[j - 1];
      if i > 0 {
        assert u[i] == t[i - 1];
      }
    }
  }

  /** The rows in rank order: cash flow non-increasing, ties by score non-increasing. */
  function SortByRank(s: seq<Scored>): (r: seq<Scored>)
    ensures SortedByRank(r)
    ensures multiset(r) == multiset(s)
    ensures multiset(ListingsOf(r)) == multiset(ListingsOf(s))
  {
    if s == [] then []
    else
      assert s == [s[0]] + s[1..];
      InsertSorted(s[0], SortByRank(s[1..]));
      Insert(s[0], SortByRank(s[1..]))
  }

  /** The listings of derived rows, in order. */
  function ListingsOfMetrics(ms: seq<Metrics>): seq<Listing> {
    if ms == [] then [] else [ms[0].listing] + ListingsOfMetrics(ms[1..])
  }

  /** Scored rows of a batch, in rank order. */
  function RankBatch(ms: seq<Metrics>, hasDays: bool): (r: seq<Scored>)
    ensures |r| == |ms| && SortedByRank(r)
    ensures forall x :: x in r ==> x.metrics in ms && 0.0 <= x.score <= 100.0
    ensures multiset(ListingsOf(r)) == multiset(ListingsOfMetrics(ms))
    ensures multiset(r) == multiset(ScoreBatch(ms, hasDays))
  {
    var scored := ScoreBatch(ms, hasDays);
    var r := SortByRank(scored);
    assert |r| == |multiset(r)| == |multiset(scored)| == |scored|;
    forall x | x in r ensures x.metrics in ms && 0.0 <= x.score <= 100.0 {
      assert x in multiset(scored);
    }
    BatchListings(ms, hasDays);
    r
  }

  lemma {:induction false} BatchListings(ms: seq<Metrics>, hasDays: bool)
    ensures ListingsOf(ScoreBatch(ms, hasDays)) == ListingsOfMetrics(ms)
  {
    SameListings(ScoreBatch(ms, hasDays), ms);
  }

  lemma {:induction false} SameListings(s: seq<Scored>, ms: seq<Metrics>)
    requires |s| == |ms| && forall i :: 0 <= i < |s| ==> s[i].metrics == ms[i]
    ensures ListingsOf(s) == ListingsOfMetrics(ms)
  {
    if s != [] {
      SameListings(s[1..], ms[1..]);
    }
  }

  /** `out_cols`: the age column at position 3 and the link column last, when present. */
  function OutputColumns(c: Cols): (r: seq<string>)
    ensures |r| == 13 + (if c.daysOnMarket.Some? then 1 else 0) + (if c.url.Some? then 1 else 0)
    ensures r[..3] == [c.city, c.surface, c.price]
    ensures c.daysOnMarket.Some? ==> r[3] == c.daysOnMarket.value && r[4] == "expected_price"
    ensures c.daysOnMarket.None? ==> r[3] == "expected_price"
    ensures c.url.Some? ==> r[|r| - 1] == c.url.value && r[|r| - 2] == "investor_score"
    ensures c.url.None? ==> r[|r| - 1] == "investor_score"
    ensures var k := if c.daysOnMarket.Some? then 1 else 0;
            r[3 + k..13 + k] == DerivedColumns
  {
    var days := if c.daysOnMarket.Some? then [c.daysOnMarket.value] else [];
    var url := if c.url.Some? then [c.url.value] else [];
    [c.city, c.surface, c.price] + days + DerivedColumns + url
  }

  /** The columns `compute_scores` derives, in output order. */
  const DerivedColumns: seq<string> :=
    ["expected_price", "rent_est_monthly", "net_rent_monthly", "monthly_payment", "insurance_monthly",
     "cashflow_monthly", "gross_yield_%", "net_yield_%", "coc_%", "investor_score"]

  /** The listing table as it reaches the engine. */
  datatype Table = Table(columns: seq<string>, rows: seq<Listing>)

  /** The scored table: its column names and its rows in rank order. */
  datatype Output = Output(columns: seq<string>, rows: seq<Scored>)

  /**
   * `df.apply(row_fn, axis=1)`: the derived columns of every row in order, or
   * the exception of the first row whose computation raises.
   */
  function AllMetrics(rows: seq<Listing>, row: Listing -> Result<Metrics>): (r: Result<seq<Metrics>>)
    ensures r.Ok? <==> forall i :: 0 <= i < |rows| ==> row(rows[i]).Ok?
    ensures r.Ok? ==> |r.value| == |rows| && forall i :: 0 <= i < |rows| ==> Ok(r.value[i]) == row(rows[i])
    ensures r.Err? ==> exists i :: 0 <= i < |rows| && row(rows[i]) == Err(r.error) &&
                         forall j :: 0 <= j < i ==> row(rows[j]).Ok?
  {
    if rows == [] then Ok([])
    else
      match row(rows[0])
      case Err(e) => Err(e)
      case Ok(m) =>
        var rest := AllMetrics(rows[1..], row);
        assert forall i :: 1 <= i < |rows| ==> rows[i] == rows[1..][i - 1];
        match rest
        case Err(e) =>
          var i :| 0 <= i < |rows[1..]| && row(rows[1..][i]) == Err(e) &&
                   forall j :: 0 <= j < i ==> row(rows[1..][j]).Ok?;
          assert rows[i + 1] == rows[1..][i];
          Err(e)
        case Ok(ms) =>
          Ok([m] + ms)
  }

  /** Derived rows computed by `RowMetrics` carry their own listings, in order. */
  lemma {:induction false} MetricsListings(ms: seq<Metrics>, rows: seq<Listing>, c: Cols, p: Params,
                                           strategy: string, rents: Rents)
    requires |ms| == |rows| && forall i :: 0 <= i < |rows| ==> Ok(ms[i]) == RowMetrics(rows[i], c, p, strategy, rents)
    ensures ListingsOfMetrics(ms) == rows
  {
    forall i | 0 <= i < |rows| ensures ms[i].listing == rows[i] {
      assert Ok(ms[i]) == RowMetrics(rows[i], c, p, strategy, rents);
    }
    ListingsMatch(ms, rows);
  }

  lemma {:induction false} ListingsMatch(ms: seq<Metrics>, rows: seq<Listing>)
    requires |ms| == |rows| && forall i :: 0 <= i < |rows| ==> ms[i].listing == rows[i]
    ensures ListingsOfMetrics(ms) == rows
  {
    if ms != [] {
      ListingsMatch(ms[1..], rows[1..]);
      assert rows == [rows[0]] + rows[1..];
    }
  }

  /** `compute_scores`' row function, for the resolved columns. */
  function RowFunction(c: Cols, p: Params, strategy: string, rents: Rents): Listing -> Result<Metrics> {
    l => RowMetrics(l, c, p, strategy, rents)
  }

  /**
   * The rows of `compute_scores` once the columns are resolved: every input
   * listing exactly once, scored in [0, 100] and ranked, or the
   * `ZeroDivisionError` of a row's `pmt`.
   */
  function ScoreRows(rows: seq<Listing>, c: Cols, p: Params, strategy: string, rents: Rents): (r: Result<seq<Scored>>)
    ensures r.Err? ==> r.error == ZeroDivisionError
    ensures r.Ok? ==> |r.value| == |rows| && multiset(ListingsOf(r.value)) == multiset(rows)
    ensures r.Ok? ==> SortedByRank(r.value)
    ensures r.Ok? ==> forall x :: x in r.value ==> 0.0 <= x.score <= 100.0
    ensures r.Ok? ==> AllMetrics(rows, RowFunction(c, p, strategy, rents)).Ok? &&
                      multiset(r.value) ==
                      multiset(ScoreBatch(AllMetrics(rows, RowFunction(c, p, strategy, rents)).value, c.daysOnMarket.Some?))
  {
    match AllMetrics(rows, RowFunction(c, p, strategy, rents))
    case Err(e) =>
      var i :| 0 <= i < |rows| && RowMetrics(rows[i], c, p, strategy, rents) == Err(e);
      Err(e)
    case Ok(ms) =>
      MetricsListings(ms, rows, c, p, strategy, rents);
      Ok(RankBatch(ms, c.daysOnMarket.Some?))
  }

  /**
   * `compute_scores(df, params, strategy)`: `ValueError` when a required
   * column is missing, `ZeroDivisionError` when `pmt` divides by zero,
   * otherwise every input listing exactly once, scored in [0, 100] and ranked,
   * under the fixed output columns.
   */
  function ComputeScores(t: Table, p: Params, strategy: string, rents: Rents): (r: Result<Output>)
    ensures ResolveColumns(t.columns).Err? ==> r == Err(ValueError(MissingColumnsMessage))
    ensures r.Err? ==> r.error == ValueError(MissingColumnsMessage) || r.error == ZeroDivisionError
    ensures r.Ok? ==> ResolveColumns(t.columns).Ok? && r.value.columns == OutputColumns(ResolveColumns(t.columns).value)
    ensures r.Ok? ==> |r.value.rows| == |t.rows| && multiset(ListingsOf(r.value.rows)) == multiset(t.rows)
    ensures r.Ok? ==> SortedByRank(r.value.rows)
    ensures r.Ok? ==> forall x :: x in r.value.rows ==> 0.0 <= x.score <= 100.0
    ensures r.Ok? ==>
              var c := ResolveColumns(t.columns).value;
              var ms := AllMetrics(t.rows, RowFunction(c, p, strategy, rents));
              ms.Ok? && multiset(r.value.rows) == multiset(ScoreBatch(ms.value, c.daysOnMarket.Some?))
  {
    match ResolveColumns(t.columns)
    case Err(e) => Err(e)
    case Ok(c) =>
      match ScoreRows(t.rows, c, p, strategy, rents)
      case Err(e) => Err(e)
      case Ok(rs) => Ok(Output(OutputColumns(c), rs))
  }

  /** Once the columns resolve, `compute_scores` fails exactly when some row's `pmt` divides by zero. */
  lemma {:induction false} ComputeScoresFails(t: Table, p: Params, strategy: string, rents: Rents)
    requires ResolveColumns(t.columns).Ok?
    ensures ComputeScores(t, p, strategy, rents).Err? <==>
              exists i :: 0 <= i < |t.rows| && RowMetrics(t.rows[i], ResolveColumns(t.columns).value, p, strategy, rents).Err?
  {
    var c := ResolveColumns(t.columns).value;
    assert ComputeScores(t, p, strategy, rents).Err? <==> ScoreRows(t.rows, c, p, strategy, rents).Err?;
    ScoreRowsFails(t.rows, c, p, strategy, rents);
  }

  lemma {:induction false} ScoreRowsFails(rows: seq<Listing>, c: Cols, p: Params, strategy: string, rents: Rents)
    ensures ScoreRows(rows, c, p, strategy, rents).Err? <==>
              exists i :: 0 <= i < |rows| && RowMetrics(rows[i], c, p, strategy, rents).Err?
  {
    assert ScoreRows(rows, c, p, strategy, rents).Err? <==> AllMetrics(rows, RowFunction(c, p, strategy, rents)).Err?;
  }

  /** Each output row carries the derived columns of its own listing. */
  lemma {:induction false} ComputeScoresRows(t: Table, p: Params, strategy: string, rents: Rents)
    requires ComputeScores(t, p, strategy, rents).Ok?
    ensures forall x :: x in ComputeScores(t, p, strategy, rents).value.rows ==>
              RowMetrics(x.metrics.listing, ResolveColumns(t.columns).value, p, strategy, rents) == Ok(x.metrics)
  {
    var c := ResolveColumns(t.columns).value;
    var ms := AllMetrics(t.rows, RowFunction(c, p, strategy, rents)).value;
    MetricsListings(ms, t.rows, c, p, strategy, rents);
    var out := RankBatch(ms, c.daysOnMarket.Some?);
    assert ScoreRows(t.rows, c, p, strategy, rents) == Ok(out);
    assert ComputeScores(t, p, strategy, rents).value.rows == out;
    RowsOfBatch(ms, t.rows, out, c, p, strategy, rents);
  }

  lemma {:induction false} RowsOfBatch(ms: seq<Metrics>, rows: seq<Listing>, out: seq<Scored>, c: Cols, p: Params,
                    strategy: string, rents: Rents)
    requires |ms| == |rows| && ListingsOfMetrics(ms) == rows
    requires forall i :: 0 <= i < |rows| ==> Ok(ms[i]) == RowMetrics(rows[i], c, p, strategy, rents)
    requires forall x :: x in out ==> x.metrics in ms
    ensures forall x :: x in out ==> RowMetrics(x.metrics.listing, c, p, strategy, rents) == Ok(x.metrics)
  {
    forall x | x in out
      ensures RowMetrics(x.metrics.listing, c, p, strategy, rents) == Ok(x.metrics)
    {
      var i :| 0 <= i < |ms| && ms[i] == x.metrics;
      ListingAt(ms, i);
      assert rows[i] == x.metrics.listing;
    }
  }

  lemma {:induction false} ListingAt(ms: seq<Metrics>, i: nat)
    requires i < |ms|
    ensures |ListingsOfMetrics(ms)| == |ms| && ListingsOfMetrics(ms)[i] == ms[i].listing
  {
    if i > 0 {
      ListingAt(ms[1..], i - 1);
    } else {
      assert ListingsOfMetrics(ms) == [ms[0].listing] + ListingsOfMetrics(ms[1..]);
      LengthOfListings(ms[1..]);
    }
  }

  lemma {:induction false} LengthOfListings(ms: seq<Metrics>)
    ensures |ListingsOfMetrics(ms)| == |ms|
  {
    if ms != [] {
      LengthOfListings(ms[1..]);
    }
  }
}
