/**
 * Per-listing part of `compute_scores` (core/scoring.py): column resolution,
 * negotiated price, acquisition costs, loan payment and insurance, rent after
 * the strategy uplift and the rent cap, net rent, cash flow and the three
 * yields. Every row is computed independently of the others.
 */
module Scoring {
  import opened Wrappers
  import opened Columns
  import opened Loan

  /** `clamp(x, lo, hi) = max(lo, min(hi, x))` */
  function Clamp(x: real, lo: real, hi: real): (r: real)
    ensures lo <= hi ==> lo <= r <= hi
    ensures lo <= x <= hi ==> r == x
    ensures x < lo ==> r == lo
    ensures lo <= hi < x ==> r == hi
    ensures hi < lo ==> r == lo
  {
    var m := if hi < x then hi else x;
    if lo < m then m else lo
  }

  /**
   * pandas `Series.clip(lower, upper)` with scalar bounds: the bounds are put
   * in order first, then values below the lower are raised and values above
   * the upper are lowered.
   */
  function Clip(x: real, lower: real, upper: real): (r: real)
    ensures lower <= upper ==> r == Clamp(x, lower, upper)
    ensures upper < lower ==> r == Clamp(x, upper, lower)
  {
    var lo := if lower <= upper then lower else upper;
    var hi := if lower <= upper then upper else lower;
    if x < lo then lo else if x > hi then hi else x
  }

  /** `Series.clip(lower=0)` */
  function ClipBelowZero(x: real): (r: real)
    ensures r >= 0.0
    ensures r >= x
    ensures x >= 0.0 ==> r == x
    ensures x < 0.0 ==> r == 0.0
  {
    if x < 0.0 then 0.0 else x
  }

  /** Sum of the five percentage deductions, clamped into [0, 0.95]. */
  function DeductionRate(vacancy: real, mgmt: real, nonRecup: real, capex: real, gli: real): (d: real)
    ensures 0.0 <= d <= 0.95
    ensures 0.0 <= vacancy + mgmt + nonRecup + capex + gli <= 0.95 ==> d == vacancy + mgmt + nonRecup + capex + gli
    ensures vacancy + mgmt + nonRecup + capex + gli < 0.0 ==> d == 0.0
    ensures vacancy + mgmt + nonRecup + capex + gli > 0.95 ==> d == 0.95
  {
    Clamp(vacancy + mgmt + nonRecup + capex + gli, 0.0, 0.95)
  }

  /**
   * `monthly_net_rent`: gross rent less the clamped percentage deductions and
   * the fixed monthly charges (owner's insurance, property tax, accountant).
   */
  function MonthlyNetRent(gross: real, vacancy: real, mgmt: real, nonRecup: real, capex: real, gli: real,
                          pno: real, tf: real, compta: real): (r: real)
    ensures gross >= 0.0 ==> gross / 20.0 - (pno + tf + compta) <= r <= gross - (pno + tf + compta)
    ensures gross <= 0.0 ==> gross - (pno + tf + compta) <= r <= gross / 20.0 - (pno + tf + compta)
    ensures r + (pno + tf + compta) == gross * (1.0 - DeductionRate(vacancy, mgmt, nonRecup, capex, gli))
  {
    var f := 1.0 - DeductionRate(vacancy, mgmt, nonRecup, capex, gli);
    var scaled := gross * f;
    ScaleBounds(gross, f);
    scaled - (pno + tf + compta)
  }

  /** Sign of a product whose second factor is non-negative. */
  lemma ProductSign(a: real, b: real)
    requires b >= 0.0
    ensures a >= 0.0 ==> a * b >= 0.0
    ensures a <= 0.0 ==> a * b <= 0.0
  {
  }

  /** Scaling by a factor in [0.05, 1] keeps a value between itself and a twentieth of it. */
  lemma ScaleBounds(g: real, f: real)
    requires 0.05 <= f <= 1.0
    ensures g >= 0.0 ==> g / 20.0 <= g * f <= g
    ensures g <= 0.0 ==> g <= g * f <= g / 20.0
  {
    assert g * f - g / 20.0 == g * (f - 0.05);
    assert g - g * f == g * (1.0 - f);
    ProductSign(g, f - 0.05);
    ProductSign(g, 1.0 - f);
  }

  /** More gross rent never gives less net rent. */
  lemma NetRentMonotone(g1: real, g2: real, vacancy: real, mgmt: real, nonRecup: real, capex: real, gli: real,
                        pno: real, tf: real, compta: real)
    requires g1 <= g2
    ensures MonthlyNetRent(g1, vacancy, mgmt, nonRecup, capex, gli, pno, tf, compta)
         <= MonthlyNetRent(g2, vacancy, mgmt, nonRecup, capex, gli, pno, tf, compta)
  {
    var d := DeductionRate(vacancy, mgmt, nonRecup, capex, gli);
    assert g2 * (1.0 - d) - g1 * (1.0 - d) == (g2 - g1) * (1.0 - d);
    ProductSign(g2 - g1, 1.0 - d);
  }

  /** `strat_multiplier`: rent uplift of the rental strategy, matched case-insensitively. */
  function StratMultiplier(strategy: string): (m: real)
    ensures m == 1.0 || m == 1.1 || m == 1.4
    ensures m == 1.1 <==> Lower(strategy) == "meuble"
    ensures m == 1.4 <==> Lower(strategy) == "colocation"
  {
    var s := Lower(strategy);
    if s == "nu" then 1.0
    else if s == "meuble" then 1.1
    else if s == "colocation" then 1.4
    else 1.0
  }

  lemma {:induction false} StratMultiplierCaseInsensitive(a: string, b: string)
    requires Lower(a) == Lower(b)
    ensures StratMultiplier(a) == StratMultiplier(b)
  {
  }

  /** One listing row; each field holds the value of the column resolved for it. */
  datatype Listing = Listing(
    price: real,
    surface: real,
    city: string,
    propertyType: string,
    daysOnMarket: Option<real>,  // None for an empty cell
    url: Option<string>)

  /** The assumptions bundle `params` (pages/4_Parametres.py fills most of it). */
  datatype Params = Params(
    baseNeg: real,
    extraPer30d: real,
    negMax: real,
    notaryRate: real,        // frais_notaires
    works: real,             // travaux
    downPayment: real,       // apport
    annualRate: real,        // taux
    insuranceRate: real,     // assurance
    years: nat,              // duree_annees
    applyCap: bool,
    capPerM2: real,
    rentControlCities: set<string>,
    vacancyRate: real,
    mgmtRate: real,
    nonRecupRate: real,
    capexRate: real,
    gliRate: real,
    pnoMonthly: real,
    propertyTaxMonthly: real,  // taxe_fonciere_monthly
    accountingMonthly: real)   // compta_monthly

  /**
   * The two functions of core/rents.py, with the benchmark table and the
   * fallback table of `params` already bound:
   * `estimatePerM2(city, pt)` is `estimate_rent_per_m2(city, pt, rent_bench_df, rpm2_fallback)`
   * and `applyCap(est, surface, cap_per_m2, active)` is `apply_rent_cap`.
   */
  datatype Rents = Rents(
    estimatePerM2: (string, string) -> real,
    applyCap: (real, real, real, bool) -> real)

  /** The columns `compute_scores` resolved. */
  datatype Cols = Cols(
    price: string,
    surface: string,
    city: string,
    propertyType: Option<string>,
    daysOnMarket: Option<string>,
    url: Option<string>)

  const PriceAliases: seq<string> := ["price", "prix"]
  const SurfaceAliases: seq<string> := ["surface_m2", "surface", "surface_m\U{B2}"]
  const CityAliases: seq<string> := ["city", "ville"]
  const TypeAliases: seq<string> := ["property_type", "type"]
  const DaysAliases: seq<string> := ["days_on_market", "dom", "jours_en_ligne"]
  const UrlAliases: seq<string> := ["url", "lien"]

  const MissingColumnsMessage := "CSV annonces: colonnes minimales requises = price, surface_m2, city"

  /** Resolves the synonyms; `ValueError` when price, surface or city has no column. */
  function ResolveColumns(names: seq<string>): (r: Result<Cols>)
    ensures r.Err? <==> Resolve(names, PriceAliases).None? || Resolve(names, SurfaceAliases).None? ||
                        Resolve(names, CityAliases).None?
    ensures r.Err? ==> r.error == ValueError(MissingColumnsMessage)
    ensures r.Ok? ==> Some(r.value.price) == Resolve(names, PriceAliases) &&
                      Some(r.value.surface) == Resolve(names, SurfaceAliases) &&
                      Some(r.value.city) == Resolve(names, CityAliases) &&
                      r.value.propertyType == Resolve(names, TypeAliases) &&
                      r.value.daysOnMarket == Resolve(names, DaysAliases) &&
                      r.value.url == Resolve(names, UrlAliases)
  {
    var price := Resolve(names, PriceAliases);
    var surface := Resolve(names, SurfaceAliases);
    var city := Resolve(names, CityAliases);
    if price.None? || surface.None? || city.None? then Err(ValueError(MissingColumnsMessage))
    else Ok(Cols(price.value, surface.value, city.value, Resolve(names, TypeAliases),
                 Resolve(names, DaysAliases), Resolve(names, UrlAliases)))
  }

  /**
   * The listing table fails with `ValueError` exactly when, for one of price,
   * surface and city, no column name lowers to any accepted spelling.
   */
  lemma {:induction false} MissingColumnsSpec(names: seq<string>)
    ensures ResolveColumns(names).Err? <==>
              (forall j, i :: 0 <= j < |names| && 0 <= i < |PriceAliases| ==> Lower(names[j]) != PriceAliases[i]) ||
              (forall j, i :: 0 <= j < |names| && 0 <= i < |SurfaceAliases| ==> Lower(names[j]) != SurfaceAliases[i]) ||
              (forall j, i :: 0 <= j < |names| && 0 <= i < |CityAliases| ==> Lower(names[j]) != CityAliases[i])
  {
    ResolveSpec(names, PriceAliases);
    ResolveSpec(names, SurfaceAliases);
    ResolveSpec(names, CityAliases);
  }

  /** The age used for a row: only when the table has a days-on-market column. */
  function DaysOf(l: Listing, c: Cols): Option<real> {
    if c.daysOnMarket.Some? then l.daysOnMarket else None
  }

  /**
   * Negotiation rate `base_neg + dom/30*extra_per_30d`, clipped to
   * `[0, neg_max]`; an empty age cell counts as 0 and a table without ages uses
   * `base_neg` alone.
   */
  function NegotiationRate(days: Option<real>, baseNeg: real, extraPer30d: real, negMax: real): (rate: real)
    ensures negMax >= 0.0 ==> 0.0 <= rate <= negMax
    ensures negMax < 0.0 ==> negMax <= rate <= 0.0
    ensures days.None? ==> rate == Clip(baseNeg, 0.0, negMax)
    ensures days.Some? ==> rate == Clip(baseNeg + AgeExtra(days.value, extraPer30d), 0.0, negMax)
  {
    Clip(baseNeg + AgeExtra(days.GetOr(0.0), extraPer30d), 0.0, negMax)
  }

  /** The extra negotiation earned by an age of `days`: `dom/30*extra_per_30d`. */
  function AgeExtra(days: real, extraPer30d: real): real {
    days / 30.0 * extraPer30d
  }

  /** A non-negative extra per 30 days gives older listings at least as much extra. */
  lemma AgeExtraMonotone(d1: real, d2: real, extraPer30d: real)
    requires d1 <= d2 && extraPer30d >= 0.0
    ensures AgeExtra(d1, extraPer30d) <= AgeExtra(d2, extraPer30d)
  {
    assert AgeExtra(d2, extraPer30d) - AgeExtra(d1, extraPer30d) == (d2 - d1) / 30.0 * extraPer30d;
    ProductSign((d2 - d1) / 30.0, extraPer30d);
  }

  /** Clipping keeps the order of its argument. */
  lemma ClipMonotone(x: real, y: real, lower: real, upper: real)
    requires x <= y
    ensures Clip(x, lower, upper) <= Clip(y, lower, upper)
  {
  }

  /** A higher negotiation rate never gives a higher negotiated price. */
  lemma ExpectedPriceAntitone(price: real, r1: real, r2: real)
    requires price >= 0.0 && r1 <= r2
    ensures ExpectedPrice(price, r2) <= ExpectedPrice(price, r1)
  {
    assert price * (1.0 - r1) - price * (1.0 - r2) == price * (r2 - r1);
    ProductSign(price, r2 - r1);
  }

  /**
   * With a non-negative extra discount per 30 days, an older listing gets at
   * least the negotiation rate of a younger one, and so, for a non-negative
   * price, a negotiated price that is no higher.
   */
  lemma OlderListingNegotiatesMore(price: real, d1: real, d2: real, baseNeg: real, extraPer30d: real, negMax: real)
    requires d1 <= d2 && extraPer30d >= 0.0
    ensures NegotiationRate(Some(d1), baseNeg, extraPer30d, negMax) <= NegotiationRate(Some(d2), baseNeg, extraPer30d, negMax)
    ensures price >= 0.0 ==>
              ExpectedPrice(price, NegotiationRate(Some(d2), baseNeg, extraPer30d, negMax))
              <= ExpectedPrice(price, NegotiationRate(Some(d1), baseNeg, extraPer30d, negMax))
  {
    var x1 := baseNeg + AgeExtra(d1, extraPer30d);
    var x2 := baseNeg + AgeExtra(d2, extraPer30d);
    AgeExtraMonotone(d1, d2, extraPer30d);
    ClipMonotone(x1, x2, 0.0, negMax);
    var r1 := NegotiationRate(Some(d1), baseNeg, extraPer30d, negMax);
    var r2 := NegotiationRate(Some(d2), baseNeg, extraPer30d, negMax);
    assert r1 == Clip(x1, 0.0, negMax) && r2 == Clip(x2, 0.0, negMax);
    if price >= 0.0 {
      ExpectedPriceAntitone(price, r1, r2);
    }
  }

  /** The same for the negotiated price of whole rows that differ only in age. */
  lemma OlderRowPricesLower(l1: Listing, l2: Listing, c: Cols, p: Params)
    requires c.daysOnMarket.Some? && l1.daysOnMarket.Some? && l2.daysOnMarket.Some?
    requires l1.price == l2.price >= 0.0 && l1.daysOnMarket.value <= l2.daysOnMarket.value
    requires p.extraPer30d >= 0.0
    ensures RowExpectedPrice(l2, c, p) <= RowExpectedPrice(l1, c, p)
  {
    OlderListingNegotiatesMore(l1.price, l1.daysOnMarket.value, l2.daysOnMarket.value, p.baseNeg, p.extraPer30d, p.negMax);
  }

  /**
   * The negotiation step as written, for a whole age column: when the table
   * has no age column, or only empty age cells, `extra` is the float `0.0`,
   * `base_neg + extra` is a Python float, and calling `.clip` on it raises
   * `AttributeError`. Otherwise every row gets its clipped rate.
   */
  function NegotiationRatesAsWritten(ages: seq<Option<real>>, hasDays: bool, baseNeg: real, extraPer30d: real,
                                     negMax: real): (r: Result<seq<real>>)
    ensures r.Err? <==> !hasDays || forall i :: 0 <= i < |ages| ==> ages[i].None?
    ensures r.Err? ==> r.error == AttributeError
    ensures r.Ok? ==> |r.value| == |ages| &&
                      forall i :: 0 <= i < |ages| ==> r.value[i] == NegotiationRate(Some(ages[i].GetOr(0.0)), baseNeg, extraPer30d, negMax)
  {
    if hasDays && exists i :: 0 <= i < |ages| && ages[i].Some? then
      Ok(seq(|ages|, i requires 0 <= i < |ages| => NegotiationRate(Some(ages[i].GetOr(0.0)), baseNeg, extraPer30d, negMax)))
    else Err(AttributeError)
  }

  /**
   * A listing table without an age column makes the negotiation step as
   * written raise, while the evidently intended rate is `base_neg` clipped to
   * `[0, neg_max]`, which `NegotiationRate` gives for a row without an age.
   */
  lemma NoAgeColumnRaises(baseNeg: real, extraPer30d: real, negMax: real)
    ensures NegotiationRatesAsWritten([None], false, baseNeg, extraPer30d, negMax) == Err(AttributeError)
    ensures NegotiationRatesAsWritten([None], true, baseNeg, extraPer30d, negMax) == Err(AttributeError)
    ensures NegotiationRate(None, baseNeg, extraPer30d, negMax) == Clip(baseNeg, 0.0, negMax)
  {
  }

  /** `price * (1 - neg_rate)` */
  function ExpectedPrice(price: real, rate: real): (r: real)
    ensures price >= 0.0 && 0.0 <= rate <= 1.0 ==> price - price * rate == r && 0.0 <= r <= price
  {
    price * (1.0 - rate)
  }

  /** For a non-negative price and `0 <= neg_max <= 1` the negotiated price is in `[price*(1-neg_max), price]`. */
  lemma ExpectedPriceBounds(price: real, days: Option<real>, baseNeg: real, extraPer30d: real, negMax: real)
    requires price >= 0.0 && 0.0 <= negMax <= 1.0
    ensures var e := ExpectedPrice(price, NegotiationRate(days, baseNeg, extraPer30d, negMax));
            price * (1.0 - negMax) <= e <= price
  {
    var rate := NegotiationRate(days, baseNeg, extraPer30d, negMax);
    assert price * (negMax - rate) >= 0.0;
  }

  /** Rent-cap flag handed to `apply_rent_cap`: cap switched on and the lowered city listed. */
  function CapActive(p: Params, city: string): (b: bool)
    ensures !p.applyCap ==> !b
    ensures p.applyCap ==> (b <==> Lower(city) in p.rentControlCities)
  {
    p.applyCap && Lower(city) in p.rentControlCities
  }

  /** The city is looked up lowered, so its case does not change the flag. */
  lemma CapCaseInsensitive(p: Params, city: string, city': string)
    requires Lower(city) == Lower(city')
    ensures CapActive(p, city) == CapActive(p, city')
  {
  }

  /** The type key of the rent lookup: the row's type cell, or `"all"` without a type column. */
  function TypeKey(l: Listing, c: Cols): string {
    if c.propertyType.Some? then l.propertyType else "all"
  }

  /** Rent estimate before the cap: `surface * rpm2 * strat_multiplier`. */
  function RawRent(l: Listing, c: Cols, strategy: string, rents: Rents): (r: real)
    ensures l.surface == 0.0 ==> r == 0.0
    ensures l.surface >= 0.0 && rents.estimatePerM2(l.city, TypeKey(l, c)) >= 0.0 ==> r >= 0.0
  {
    var rpm2 := rents.estimatePerM2(l.city, TypeKey(l, c));
    ScaledProductSign(l.surface, rpm2, StratMultiplier(strategy));
    l.surface * rpm2 * StratMultiplier(strategy)
  }

  /**
   * The strategy only scales the estimate: every strategy's raw rent is its
   * multiplier times the unfurnished (`nu`) raw rent.
   */
  lemma RawRentUplift(l: Listing, c: Cols, strategy: string, rents: Rents)
    ensures RawRent(l, c, strategy, rents) == StratMultiplier(strategy) * RawRent(l, c, "nu", rents)
  {
    assert Lower("nu") == "nu";
    assert StratMultiplier("nu") == 1.0;
  }

  /** Without a type column the row's type cell is ignored: the lookup uses `"all"`. */
  lemma RawRentWithoutTypeColumn(l: Listing, l': Listing, c: Cols, strategy: string, rents: Rents)
    requires c.propertyType.None? && l.city == l'.city && l.surface == l'.surface
    ensures RawRent(l, c, strategy, rents) == RawRent(l', c, strategy, rents)
  {
  }

  lemma ScaledProductSign(a: real, b: real, m: real)
    requires m >= 0.0
    ensures a >= 0.0 && b >= 0.0 ==> a * b * m >= 0.0
  {
    if a >= 0.0 && b >= 0.0 {
      ProductSign(a, b);
      ProductSign(a * b, m);
    }
  }

  /** The rent-controlled cities the parameters page sets, lowered. */
  const PageRentControlCities: set<string> := {"paris", "lille", "lyon", "villeurbanne", "montpellier", "bordeaux"}

  /**
   * 50 m² furnished in Brest at 9.5 €/m², in a table without a type column:
   * the raw estimate is 50 * 9.5 * 1.10 = 522.5, and Brest is not rent-controlled.
   */
  lemma BrestFurnishedRent(l: Listing, c: Cols, p: Params, rents: Rents)
    requires l.surface == 50.0 && l.city == "Brest" && c.propertyType.None?
    requires rents.estimatePerM2("Brest", "all") == 9.5
    requires p.rentControlCities == PageRentControlCities
    ensures RawRent(l, c, "meuble", rents) == 522.5
    ensures !CapActive(p, l.city)
  {
    assert Lower("meuble") == "meuble";
    assert StratMultiplier("meuble") == 1.1;
    assert Lower("Brest") == "brest" by {
      assert LowerChar('B') == 'b';
    }
  }

  /** `numerator / denominator * 100`, undefined (NaN) when the denominator is 0. */
  function Percent(numerator: real, denominator: real): (r: Option<real>)
    ensures r.None? <==> denominator == 0.0
    ensures r.Some? ==> r.value * denominator == numerator * 100.0
  {
    if denominator == 0.0 then None else Some(numerator / denominator * 100.0)
  }

  /** Derived columns of one row. */
  datatype Metrics = Metrics(
    listing: Listing,
    expectedPrice: real,
    notaryFees: real,
    toFinance: real,
    monthlyPayment: real,
    insuranceMonthly: real,
    rentEstMonthly: real,
    netRentMonthly: real,
    cashflowMonthly: real,
    grossYield: Option<real>,
    netYield: Option<real>,
    cashOnCash: Option<real>)

  /** Monthly rate and number of months used for every row. */
  function MonthlyRate(p: Params): real { p.annualRate / 12.0 }
  function Months(p: Params): nat { p.years * 12 }

  /** Negotiated price of one row. */
  function RowExpectedPrice(l: Listing, c: Cols, p: Params): real {
    ExpectedPrice(l.price, NegotiationRate(DaysOf(l, c), p.baseNeg, p.extraPer30d, p.negMax))
  }

  /** Amount borrowed: negotiated price plus fees and works, less the down payment, never below 0. */
  function ToFinance(expected: real, p: Params): (r: real)
    ensures r >= 0.0
    ensures r >= expected + expected * p.notaryRate + p.works - p.downPayment
    ensures expected + expected * p.notaryRate + p.works - p.downPayment >= 0.0 ==>
              r == expected + expected * p.notaryRate + p.works - p.downPayment
    ensures expected + expected * p.notaryRate + p.works - p.downPayment < 0.0 ==> r == 0.0
  {
    ClipBelowZero(expected + expected * p.notaryRate + p.works - p.downPayment)
  }

  /** Cash flow and the three yields from the row's money amounts. */
  function Assemble(l: Listing, expected: real, fees: real, toFinance: real, payment: real, insurance: real,
                    rent: real, net: real, p: Params): (m: Metrics)
    ensures m.listing == l && m.expectedPrice == expected && m.notaryFees == fees && m.toFinance == toFinance
    ensures m.monthlyPayment == payment && m.insuranceMonthly == insurance
    ensures m.rentEstMonthly == rent && m.netRentMonthly == net
    ensures m.cashflowMonthly + payment + insurance == net
    ensures YieldsAgree(m, p)
  {
    var cashflow := net - payment - insurance;
    Metrics(l, expected, fees, toFinance, payment, insurance, rent, net, cashflow,
            Percent(rent * 12.0, expected),
            Percent((net - insurance) * 12.0, expected + fees + p.works),
            Percent(cashflow * 12.0, p.downPayment + fees + p.works))
  }

  /**
   * What the derived columns of one row mean: the negotiated price, the fees
   * on it, the amount borrowed, the insurance on that amount, the capped rent
   * estimate, the net rent after deductions and charges, the cash flow left
   * after the loan payment and insurance, and the three yields.
   */
  ghost predicate RowAgrees(l: Listing, c: Cols, p: Params, strategy: string, rents: Rents, m: Metrics) {
    m.listing == l &&
    m.expectedPrice == RowExpectedPrice(l, c, p) &&
    m.notaryFees == m.expectedPrice * p.notaryRate &&
    m.toFinance == ToFinance(m.expectedPrice, p) &&
    m.insuranceMonthly * 12.0 == m.toFinance * p.insuranceRate &&
    m.rentEstMonthly == rents.applyCap(RawRent(l, c, strategy, rents), l.surface, p.capPerM2, CapActive(p, l.city)) &&
    m.netRentMonthly == MonthlyNetRent(m.rentEstMonthly, p.vacancyRate, p.mgmtRate, p.nonRecupRate, p.capexRate,
                                       p.gliRate, p.pnoMonthly, p.propertyTaxMonthly, p.accountingMonthly) &&
    m.cashflowMonthly == m.netRentMonthly - m.monthlyPayment - m.insuranceMonthly &&
    YieldsAgree(m, p)
  }

  /** Derived columns of one row once its monthly loan payment is known. */
  function Derive(l: Listing, c: Cols, p: Params, strategy: string, rents: Rents, payment: real): (m: Metrics)
    ensures RowAgrees(l, c, p, strategy, rents, m)
    ensures m.monthlyPayment == payment
  {
    var expected := RowExpectedPrice(l, c, p);
    var toFinance := ToFinance(expected, p);
    var insurance := toFinance * (p.insuranceRate / 12.0);
    var rent := rents.applyCap(RawRent(l, c, strategy, rents), l.surface, p.capPerM2, CapActive(p, l.city));
    var net := MonthlyNetRent(rent, p.vacancyRate, p.mgmtRate, p.nonRecupRate, p.capexRate, p.gliRate,
                              p.pnoMonthly, p.propertyTaxMonthly, p.accountingMonthly);
    Assemble(l, expected, expected * p.notaryRate, toFinance, payment, insurance, rent, net, p)
  }

  /**
   * All derived columns of one row. The only failure is the
   * `ZeroDivisionError` of `pmt` on a positive amount to finance; otherwise
   * the payment repays the amount borrowed over the loan's months.
   */
  function RowMetrics(l: Listing, c: Cols, p: Params, strategy: string, rents: Rents): (r: Result<Metrics>)
    ensures r.Err? <==> Pmt(MonthlyRate(p), Months(p), ToFinance(RowExpectedPrice(l, c, p), p)).Err?
    ensures r.Err? ==> r.error == ZeroDivisionError
    ensures r.Ok? ==> RowAgrees(l, c, p, strategy, rents, r.value)
    ensures r.Ok? ==> r.value.toFinance >= 0.0
    ensures r.Ok? ==> (r.value.toFinance > 0.0 ==> Balance(r.value.toFinance, MonthlyRate(p), r.value.monthlyPayment, Months(p)) == 0.0)
    ensures r.Ok? ==> (r.value.toFinance == 0.0 ==> r.value.monthlyPayment == 0.0)
  {
    var toFinance := ToFinance(RowExpectedPrice(l, c, p), p);
    match Pmt(MonthlyRate(p), Months(p), toFinance)
    case Err(e) => Err(e)
    case Ok(payment) =>
      PmtRepaysLoan(MonthlyRate(p), Months(p), toFinance);
      Ok(Derive(l, c, p, strategy, rents, payment))
  }

  /**
   * What the three yields mean: each is undefined exactly when its
   * denominator is 0, and otherwise times its denominator gives 100 times the
   * annual amount (gross rent over the negotiated price; net rent less loan
   * insurance over price, fees and works; cash flow over down payment, fees
   * and works).
   */
  ghost predicate YieldsAgree(m: Metrics, p: Params) {
    (m.grossYield.None? <==> m.expectedPrice == 0.0) &&
    (m.grossYield.Some? ==> m.grossYield.value * m.expectedPrice == m.rentEstMonthly * 12.0 * 100.0) &&
    (m.netYield.None? <==> m.expectedPrice + m.notaryFees + p.works == 0.0) &&
    (m.netYield.Some? ==> m.netYield.value * (m.expectedPrice + m.notaryFees + p.works) ==
                            (m.netRentMonthly - m.insuranceMonthly) * 12.0 * 100.0) &&
    (m.cashOnCash.None? <==> p.downPayment + m.notaryFees + p.works == 0.0) &&
    (m.cashOnCash.Some? ==> m.cashOnCash.value * (p.downPayment + m.notaryFees + p.works) ==
                              m.cashflowMonthly * 12.0 * 100.0)
  }
}
