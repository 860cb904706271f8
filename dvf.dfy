/**
 * The DVF helper (core/dvf.py): the required-column check on the table of
 * market medians, and the percentage gap between a listing's price per m²
 * and the median of its city.
 */
module Dvf {
  import opened Wrappers
  import opened Columns

  /** A cell as `read_csv` leaves it: text, a number, or empty (NaN). */
  datatype Cell = Text(s: string) | Number(x: real) | Blank

  /** One row of the median table, keyed by column name. */
  type DvfRow = map<string, Cell>

  /** The median table: its column names in order and its rows. */
  datatype DvfTable = DvfTable(columns: seq<string>, rows: seq<DvfRow>)

  /** The cell of `row` in column `col`; a cell the row lacks is empty. */
  function CellAt(row: DvfRow, col: string): Cell {
    if col in row then row[col] else Blank
  }

  /** `DataFrame.empty`: no rows or no columns. */
  predicate IsEmpty(t: DvfTable) {
    |t.rows| == 0 || |t.columns| == 0
  }

  const CityKey: seq<string> := ["city"]
  const MedianKey: seq<string> := ["median_price_sqm"]
  const MissingDvfColumnsMessage := "DVF medians CSV doit contenir au minimum: city, median_price_sqm"

  /** No column name lowers to `key`. */
  predicate Lacks(t: DvfTable, key: string) {
    forall j :: 0 <= j < |t.columns| ==> Lower(t.columns[j]) != key
  }

  /**
   * `load_dvf_medians`: nothing for a missing or empty table, `ValueError`
   * when no column is called `city` or none `median_price_sqm` in any case,
   * otherwise the table itself.
   */
  function LoadDvfMedians(dvf: Option<DvfTable>): (r: Result<Option<DvfTable>>)
    ensures dvf.None? || IsEmpty(dvf.value) ==> r == Ok(None)
    ensures r.Err? <==> dvf.Some? && !IsEmpty(dvf.value) && (Lacks(dvf.value, "city") || Lacks(dvf.value, "median_price_sqm"))
    ensures r.Err? ==> r.error == ValueError(MissingDvfColumnsMessage)
    ensures dvf.Some? && !IsEmpty(dvf.value) && r.Ok? ==> r == Ok(dvf)
  {
    if dvf.None? || IsEmpty(dvf.value) then Ok(None)
    else
      var t := dvf.value;
      ResolveSpec(t.columns, CityKey);
      ResolveSpec(t.columns, MedianKey);
      if Resolve(t.columns, CityKey).None? || Resolve(t.columns, MedianKey).None? then
        Err(ValueError(MissingDvfColumnsMessage))
      else Ok(dvf)
  }

  /** The city cell matches the listing's city: `col.str.lower() == str(city).lower()`. */
  predicate CityMatches(c: Cell, city: string) {
    c.Text? && Lower(c.s) == Lower(city)
  }

  /** Some cell of the column is text, so pandas gives the column the `.str` accessor. */
  predicate HasText(rows: seq<DvfRow>, col: string) {
    exists i :: 0 <= i < |rows| && CellAt(rows[i], col).Text?
  }

  /** Index of the first row whose city matches: `sub.iloc[0]`. */
  function FirstMatch(rows: seq<DvfRow>, col: string, city: string): (r: Option<nat>)
    ensures r.None? <==> forall i :: 0 <= i < |rows| ==> !CityMatches(CellAt(rows[i], col), city)
    ensures r.Some? ==> r.value < |rows| && CityMatches(CellAt(rows[r.value], col), city) &&
                        forall i :: 0 <= i < r.value ==> !CityMatches(CellAt(rows[i], col), city)
  {
    if rows == [] then None
    else if CityMatches(CellAt(rows[0], col), city) then Some(0)
    else
      var r := FirstMatch(rows[1..], col, city);
      assert forall i :: 1 <= i < |rows| ==> rows[i] == rows[1..][i - 1];
      if r.None? then None else Some(r.value + 1)
  }

  /** The gap: none, a percentage, or NaN (an empty median cell). */
  datatype Gap = NoGap | GapPct(value: real) | GapNaN

  /** `(price / surface - med) / med * 100` */
  function GapPercent(price: real, surface: real, med: real): real
    requires surface != 0.0 && med != 0.0
  {
    (price / surface - med) / med * 100.0
  }

  /** The message of `float(s)` on text that does not spell a number. */
  function NotAFloatMessage(s: string): string {
    NotAFloatPrefix + "'" + s + "'"
  }

  const NotAFloatPrefix := "could not convert string to float: "

  /**
   * `price_gap_vs_dvf`: the percentage gap between the listing's price per
   * m² and the median of the first row of its city. No gap for a missing or
   * empty table, a non-positive surface, a city with no row, or a
   * non-positive median; `KeyError` when the city or the median column is
   * looked up but missing. The property type is not used.
   */
  function PriceGap(price: real, surface: real, city: string, dvf: Option<DvfTable>): (r: Result<Gap>)
    ensures dvf.None? || IsEmpty(dvf.value) || surface <= 0.0 ==> r == Ok(NoGap)
    ensures r == Err(KeyError) ==> Lacks(dvf.value, "city") || Lacks(dvf.value, "median_price_sqm")
    ensures r.Ok? && r.value.GapPct? ==>
              surface > 0.0 && Resolve(dvf.value.columns, CityKey).Some? && Resolve(dvf.value.columns, MedianKey).Some? &&
              var i := FirstMatch(dvf.value.rows, Resolve(dvf.value.columns, CityKey).value, city);
              i.Some? &&
              var c := CellAt(dvf.value.rows[i.value], Resolve(dvf.value.columns, MedianKey).value);
              c.Number? && c.x > 0.0 && r.value.value == GapPercent(price, surface, c.x)
    ensures dvf.Some? && !IsEmpty(dvf.value) && surface > 0.0 ==>
              match Resolve(dvf.value.columns, CityKey)
              case None => r == Err(KeyError)
              case Some(cityCol) =>
                r == GapInCity(price, surface, city, dvf.value.rows, cityCol, Resolve(dvf.value.columns, MedianKey))
  {
    if dvf.None? || IsEmpty(dvf.value) || surface <= 0.0 then Ok(NoGap)
    else
      var t := dvf.value;
      ResolveSpec(t.columns, CityKey);
      ResolveSpec(t.columns, MedianKey);
      match Resolve(t.columns, CityKey)
      case None => Err(KeyError)
      case Some(cityCol) => GapInCity(price, surface, city, t.rows, cityCol, Resolve(t.columns, MedianKey))
  }

  /** The gap once the city column is found; `medCol` is the median column, if any. */
  function GapInCity(price: real, surface: real, city: string, rows: seq<DvfRow>, cityCol: string,
                     medCol: Option<string>): (r: Result<Gap>)
    requires surface > 0.0
    ensures r == Err(KeyError) ==> medCol.None?
    ensures r.Ok? && r.value.GapPct? ==>
              medCol.Some? && FirstMatch(rows, cityCol, city).Some? &&
              var c := CellAt(rows[FirstMatch(rows, cityCol, city).value], medCol.value);
              c.Number? && c.x > 0.0 && r.value.value == GapPercent(price, surface, c.x)
    ensures r == Err(AttributeError) <==> !HasText(rows, cityCol)
    ensures HasText(rows, cityCol) && FirstMatch(rows, cityCol, city).None? ==> r == Ok(NoGap)
    ensures HasText(rows, cityCol) && FirstMatch(rows, cityCol, city).Some? ==>
              match medCol
              case None => r == Err(KeyError)
              case Some(m) =>
                match CellAt(rows[FirstMatch(rows, cityCol, city).value], m)
                case Text(s) => r == Err(ValueError(NotAFloatMessage(s)))
                case Blank => r == Ok(GapNaN)
                case Number(med) => r == Ok(if med <= 0.0 then NoGap else GapPct(GapPercent(price, surface, med)))
  {
    if !HasText(rows, cityCol) then Err(AttributeError)
    else
      match FirstMatch(rows, cityCol, city)
      case None => Ok(NoGap)
      case Some(i) =>
        match medCol
        case None => Err(KeyError)
        case Some(m) =>
          match CellAt(rows[i], m)
          case Text(s) => Err(ValueError(NotAFloatMessage(s)))
          case Blank => Ok(GapNaN)
          case Number(med) =>
            if med <= 0.0 then Ok(NoGap) else Ok(GapPct(GapPercent(price, surface, med)))
  }

  /**
   * The gap is positive exactly when the price per m² is above the median,
   * zero exactly when it equals it, and applying it to the median gives the
   * price per m² back.
   */
  lemma GapSign(price: real, surface: real, med: real)
    requires surface > 0.0 && med > 0.0
    ensures GapPercent(price, surface, med) > 0.0 <==> price / surface > med
    ensures GapPercent(price, surface, med) == 0.0 <==> price / surface == med
    ensures med * (1.0 + GapPercent(price, surface, med) / 100.0) == price / surface
  {
    var d := price / surface - med;
    var g := GapPercent(price, surface, med);
    assert g == d / med * 100.0;
    assert g * med == d * 100.0;
    if d > 0.0 {
      assert g > 0.0;
    } else if d < 0.0 {
      assert g < 0.0;
    }
  }

  /** A table holding one Paris row whose median is 4500 €/m². */
  const ExampleTable := DvfTable(["City", "property_type", "median_price_sqm"],
                                 [map["City" := Text("Paris"), "property_type" := Text("appartement"),
                                      "median_price_sqm" := Number(4500.0)]])

  /** 300000 € for 60 m² is 5000 €/m², about 11.11 % above a 4500 €/m² median. */
  lemma GapExample()
    ensures PriceGap(300000.0, 60.0, "paris", Some(ExampleTable)) == Ok(GapPct(100.0 / 9.0))
    ensures 11.10 <= 100.0 / 9.0 <= 11.12
  {
    var t := ExampleTable;
    assert Lower("City") == "city" by {
      assert LowerChar('C') == 'c';
    }
    assert Lower("median_price_sqm") == "median_price_sqm";
    var prefix := LowerIndex(["City", "property_type"]);
    assert LowerIndex(["City"]) == map["city" := "City"] by {
      assert ["City"][..0] == [];
    }
    assert ["City", "property_type"][..1] == ["City"];
    assert "city" in prefix && prefix["city"] == "City";
    assert t.columns[..2] == ["City", "property_type"];
    var idx := LowerIndex(t.columns);
    assert idx == prefix["median_price_sqm" := "median_price_sqm"];
    assert Resolve(t.columns, CityKey) == Some("City");
    assert Resolve(t.columns, MedianKey) == Some("median_price_sqm");
    assert CellAt(t.rows[0], "City").Text?;
    assert Lower("Paris") == Lower("paris") by {
      assert LowerChar('P') == 'p';
    }
    assert FirstMatch(t.rows, "City", "paris") == Some(0);
  }

  /**
   * Only the city and the median columns matter: two tables with the same
   * column names whose rows agree on those two columns give the same gap,
   * whatever their property types and other cells.
   */
  lemma {:induction false} OnlyCityAndMedianMatter(price: real, surface: real, city: string, t: DvfTable, t': DvfTable)
    requires t.columns == t'.columns && |t.rows| == |t'.rows|
    requires Resolve(t.columns, CityKey).Some? ==>
               forall i :: 0 <= i < |t.rows| ==>
                 CellAt(t.rows[i], Resolve(t.columns, CityKey).value) == CellAt(t'.rows[i], Resolve(t.columns, CityKey).value)
    requires Resolve(t.columns, MedianKey).Some? ==>
               forall i :: 0 <= i < |t.rows| ==>
                 CellAt(t.rows[i], Resolve(t.columns, MedianKey).value) == CellAt(t'.rows[i], Resolve(t.columns, MedianKey).value)
    ensures PriceGap(price, surface, city, Some(t)) == PriceGap(price, surface, city, Some(t'))
  {
    var cityCol := Resolve(t.columns, CityKey);
    if cityCol.Some? && surface > 0.0 {
      var medCol := Resolve(t.columns, MedianKey);
      SameColumnSameMatch(t.rows, t'.rows, cityCol.value, city);
      SameColumnSameText(t.rows, t'.rows, cityCol.value);
      var m := FirstMatch(t.rows, cityCol.value, city);
      if m.Some? && medCol.Some? {
        assert CellAt(t.rows[m.value], medCol.value) == CellAt(t'.rows[m.value], medCol.value);
      }
      assert GapInCity(price, surface, city, t.rows, cityCol.value, medCol) ==
             GapInCity(price, surface, city, t'.rows, cityCol.value, medCol);
    }
  }

  lemma SameColumnSameText(rows: seq<DvfRow>, rows': seq<DvfRow>, col: string)
    requires |rows| == |rows'| && forall i :: 0 <= i < |rows| ==> CellAt(rows[i], col) == CellAt(rows'[i], col)
    ensures HasText(rows, col) <==> HasText(rows', col)
  {
    if HasText(rows, col) {
      var i :| 0 <= i < |rows| && CellAt(rows[i], col).Text?;
      assert CellAt(rows'[i], col).Text?;
    }
    if HasText(rows', col) {
      var i :| 0 <= i < |rows'| && CellAt(rows'[i], col).Text?;
      assert CellAt(rows[i], col).Text?;
    }
  }

  lemma {:induction false} SameColumnSameMatch(rows: seq<DvfRow>, rows': seq<DvfRow>, col: string, city: string)
    requires |rows| == |rows'| && forall i :: 0 <= i < |rows| ==> CellAt(rows[i], col) == CellAt(rows'[i], col)
    ensures FirstMatch(rows, col, city) == FirstMatch(rows', col, city)
  {
    if rows != [] {
      SameColumnSameMatch(rows[1..], rows'[1..], col, city);
    }
  }

  /** The listing's city is matched case-insensitively. */
  lemma {:induction false} GapCaseInsensitive(price: real, surface: real, city: string, city': string, dvf: Option<DvfTable>)
    requires Lower(city) == Lower(city')
    ensures PriceGap(price, surface, city, dvf) == PriceGap(price, surface, city', dvf)
  {
    if dvf.Some? {
      var t := dvf.value;
      var cityCol := Resolve(t.columns, CityKey);
      if cityCol.Some? {
        SameCitySameMatch(t.rows, cityCol.value, city, city');
      }
    }
  }

  lemma {:induction false} SameCitySameMatch(rows: seq<DvfRow>, col: string, city: string, city': string)
    requires Lower(city) == Lower(city')
    ensures FirstMatch(rows, col, city) == FirstMatch(rows, col, city')
  {
    if rows != [] {
      SameCitySameMatch(rows[1..], col, city, city');
    }
  }

  /**
   * A table `load_dvf_medians` accepted never makes the gap raise `KeyError`:
   * both columns it looks up are present.
   */
  lemma LoadedTableHasColumns(price: real, surface: real, city: string, t: DvfTable)
    requires LoadDvfMedians(Some(t)) == Ok(Some(t))
    ensures PriceGap(price, surface, city, Some(t)) != Err(KeyError)
  {
    ResolveSpec(t.columns, CityKey);
    ResolveSpec(t.columns, MedianKey);
  }

  /**
   * On a table with both columns, a positive surface and a text city column,
   * the numeric median of the first row of the city decides: a positive
   * median gives the gap formula, and any other gives no gap.
   */
  lemma GapFromMedian(price: real, surface: real, city: string, t: DvfTable, i: nat, med: real)
    requires !IsEmpty(t) && surface > 0.0
    requires Resolve(t.columns, CityKey).Some? && Resolve(t.columns, MedianKey).Some?
    requires HasText(t.rows, Resolve(t.columns, CityKey).value)
    requires FirstMatch(t.rows, Resolve(t.columns, CityKey).value, city) == Some(i)
    requires CellAt(t.rows[i], Resolve(t.columns, MedianKey).value) == Number(med)
    ensures med > 0.0 ==> PriceGap(price, surface, city, Some(t)) == Ok(GapPct(GapPercent(price, surface, med)))
    ensures med <= 0.0 ==> PriceGap(price, surface, city, Some(t)) == Ok(NoGap)
  {
  }

  /**
   * On a table with both columns, a positive surface and a text city column,
   * a city that no row holds has no gap.
   */
  lemma UnknownCityHasNoGap(price: real, surface: real, city: string, t: DvfTable)
    requires !IsEmpty(t) && surface > 0.0
    requires Resolve(t.columns, CityKey).Some? && HasText(t.rows, Resolve(t.columns, CityKey).value)
    requires forall i :: 0 <= i < |t.rows| ==> !CityMatches(CellAt(t.rows[i], Resolve(t.columns, CityKey).value), city)
    ensures PriceGap(price, surface, city, Some(t)) == Ok(NoGap)
  {
  }
}
