/** `get_data` (utilities/tools.py:283-326): resolve the requested names to
    ids, compose the series request path, call the endpoint and flatten the
    `values` object (indicator -> country -> year -> value) into five
    aligned column lists. The endpoint is a parameter mapping a URL to its
    reply; the series values themselves are opaque (`V`). */
module Series {
  import opened Base
  import opened Text
  import opened ReferenceTables
  import opened Lookup

  const BaseUrl: string := "https://www.imf.org/external/datamapper/api/v1/"

  /** year -> value, in key order. */
  type Years<V> = seq<(string, V)>
  /** country id -> years, in key order. */
  type CountryValues<V> = seq<(string, Years<V>)>
  /** indicator id -> countries: the reply's `values` object. */
  type Values<V> = seq<(string, CountryValues<V>)>

  /** One line of the result table. */
  datatype SeriesRow<V> = SeriesRow(country: string, year: string, indicator: string, value: V, unit: string)

  /** `compiled_data`: the column lists `Country`, `Year`, `Indicator`,
      `Value` and `Unit`. */
  datatype Frame<V> = Frame(country: seq<string>, year: seq<string>, indicator: seq<string>, value: seq<V>, unit: seq<string>)
  {
    predicate Aligned()
    {
      |year| == |country| && |indicator| == |country| && |value| == |country| && |unit| == |country|
    }
  }

  /** What `get_data` returns: the table; the string
      `'Nothing to show :worried:'` when the reply has no `values` key; or
      `None` when the status is not 200 (there is no `else` branch). */
  datatype SeriesOutcome<V> = DataTable(frame: Frame<V>) | NothingToShow | NoResult

  // ----- name resolution -----

  /** `[resolve(x) for x in names]`: every name resolved in order; the
      first name that does not resolve aborts with its error. */
  function ResolveAll(names: seq<string>, resolve: string -> Result<string>): (r: Result<seq<string>>)
    ensures r.Success? <==> forall k :: 0 <= k < |names| ==> resolve(names[k]).Success?
    ensures r.Success? ==>
      |r.value| == |names| && forall k :: 0 <= k < |names| ==> r.value[k] == resolve(names[k]).value
    ensures r.Failure? ==>
      exists k :: 0 <= k < |names| && resolve(names[k]) == Failure(r.error) &&
        forall j :: 0 <= j < k ==> resolve(names[j]).Success?
  {
    if |names| == 0 then Success([])
    else
      var id :- resolve(names[0]);
      var rest :- ResolveAll(names[1..], resolve);
      Success([id] + rest)
  }

  /** `get_indicators(x, 'id')` answered from the indicator table in force. */
  function IndicatorIdOf(rows: seq<IndicatorRow>, name: string): Result<string>
  {
    Select(rows, IndicatorName, name, IndicatorId)
  }

  /** `get_countries(x, 'id')`, `get_groups(x, 'id')`, `get_regions(x, 'id')`. */
  function PlaceIdOf(rows: seq<PlaceRow>, name: string): Result<string>
  {
    Select(rows, PlaceName, name, PlaceId)
  }

  /** `get_indicators(indicator, 'unit')` answered from the indicator table
      in force: the unit of the first row whose id is `indicator`. */
  function UnitLookup(rows: seq<IndicatorRow>): string -> Result<string>
  {
    id => Select(rows, IndicatorId, id, IndicatorUnit)
  }

  /** The lookups `get_data` makes are the loader's cache-hit answers:
      `get_indicators(x, 'id')` for each indicator name and
      `get_indicators(indicator, 'unit')` for each indicator of the reply. */
  lemma LookupsAreLoaderAnswers(rows: seq<IndicatorRow>, name: string)
    ensures IndicatorIdOf(rows, name).Success? <==> IndicatorAnswer(rows, Some(name), GetId).Success?
    ensures IndicatorIdOf(rows, name).Success? ==>
      IndicatorAnswer(rows, Some(name), GetId).value == Id(IndicatorIdOf(rows, name).value)
    ensures UnitLookup(rows)(name).Success? <==> IndicatorAnswer(rows, Some(name), GetUnit).Success?
    ensures UnitLookup(rows)(name).Success? ==>
      IndicatorAnswer(rows, Some(name), GetUnit).value == Unit(UnitLookup(rows)(name).value)
    ensures IndicatorIdOf(rows, name).Failure? ==>
      IndicatorAnswer(rows, Some(name), GetId).error == IndicatorIdOf(rows, name).error
    ensures UnitLookup(rows)(name).Failure? ==>
      IndicatorAnswer(rows, Some(name), GetUnit).error == UnitLookup(rows)(name).error
  {
  }

  // ----- request path -----

  /** `url += f"/{'/'.join(ids)}"`, done only `if ids:`. */
  function Block(ids: seq<string>): string
  {
    if |ids| == 0 then "" else "/" + JoinPath(ids)
  }

  /** The series URL of utilities/tools.py:285-298. */
  function RequestUrl(indicatorIds: seq<string>, countryIds: seq<string>, groupIds: seq<string>, regionIds: seq<string>): string
  {
    BaseUrl + JoinPath(indicatorIds) + Block(countryIds) + Block(groupIds) + Block(regionIds)
  }

  lemma BlockExtends(a: seq<string>, b: seq<string>)
    requires |a| > 0
    ensures JoinPath(a) + Block(b) == JoinPath(a + b)
  {
    if |b| == 0 {
      assert a + b == a;
    } else {
      JoinPathAppend(a, b);
    }
  }

  /** Appending one more block to a URL that ends in a joined id list. */
  lemma UrlExtends(prefix: string, a: seq<string>, b: seq<string>)
    requires |a| > 0
    ensures prefix + JoinPath(a) + Block(b) == prefix + JoinPath(a + b)
  {
    assert prefix + JoinPath(a) + Block(b) == prefix + (JoinPath(a) + Block(b));
    BlockExtends(a, b);
  }

  /** With at least one indicator, the path after the base URL is every id
      joined by `/`, in the fixed order indicators, countries, groups,
      regions; an empty block contributes nothing. */
  lemma RequestUrlJoinsAllIds(indicatorIds: seq<string>, countryIds: seq<string>, groupIds: seq<string>, regionIds: seq<string>)
    requires |indicatorIds| > 0
    ensures RequestUrl(indicatorIds, countryIds, groupIds, regionIds) ==
      BaseUrl + JoinPath(indicatorIds + countryIds + groupIds + regionIds)
  {
    UrlExtends(BaseUrl, indicatorIds, countryIds);
    UrlExtends(BaseUrl, indicatorIds + countryIds, groupIds);
    UrlExtends(BaseUrl, indicatorIds + countryIds + groupIds, regionIds);
  }

  /** With no indicator, `'/'.join` of the empty list is empty and the
      first non-empty block still opens with its `/`: the path after the
      base URL starts with an empty segment (`.../v1//IND`), and with no ids
      at all the URL is the bare base. */
  lemma RequestUrlWithoutIndicators(countryIds: seq<string>, groupIds: seq<string>, regionIds: seq<string>)
    ensures |countryIds| > 0 ==>
      RequestUrl([], countryIds, groupIds, regionIds) == BaseUrl + "/" + JoinPath(countryIds + groupIds + regionIds)
    ensures RequestUrl([], [], [], []) == BaseUrl
  {
    assert BaseUrl + JoinPath([]) == BaseUrl;
    assert BaseUrl + Block([]) + Block([]) + Block([]) == BaseUrl;
    if |countryIds| > 0 {
      var prefix := BaseUrl + "/";
      assert BaseUrl + Block(countryIds) == prefix + JoinPath(countryIds);
      UrlExtends(prefix, countryIds, groupIds);
      UrlExtends(prefix, countryIds + groupIds, regionIds);
    }
  }

  /** Reading the path back segment by segment gives exactly the ids, in
      order, so the positional grammar of the endpoint sees indicators
      first, then countries, groups and regions. */
  lemma RequestPathRoundTrip(indicatorIds: seq<string>, countryIds: seq<string>, groupIds: seq<string>, regionIds: seq<string>)
    requires |indicatorIds| > 0
    requires forall id :: id in indicatorIds + countryIds + groupIds + regionIds ==> '/' !in id
    ensures var url := RequestUrl(indicatorIds, countryIds, groupIds, regionIds);
      |BaseUrl| <= |url| && SplitPath(url[|BaseUrl|..]) == indicatorIds + countryIds + groupIds + regionIds
  {
    var ids := indicatorIds + countryIds + groupIds + regionIds;
    RequestUrlJoinsAllIds(indicatorIds, countryIds, groupIds, regionIds);
    assert (BaseUrl + JoinPath(ids))[|BaseUrl|..] == JoinPath(ids);
    assert forall k :: 0 <= k < |ids| ==> ids[k] in ids;
    SplitJoinPath(ids);
  }

  /** Resolve the four name lists (indicators first, then countries, groups
      and regions) and compose the request URL. */
  function SeriesUrl(indicatorNames: seq<string>, countryNames: seq<string>, groupNames: seq<string>, regionNames: seq<string>,
                     indicators: seq<IndicatorRow>, countries: seq<PlaceRow>, groups: seq<PlaceRow>, regions: seq<PlaceRow>)
    : Result<string>
  {
    var indicatorIds :- ResolveAll(indicatorNames, name => IndicatorIdOf(indicators, name));
    var countryIds :- ResolveAll(countryNames, name => PlaceIdOf(countries, name));
    var groupIds :- ResolveAll(groupNames, name => PlaceIdOf(groups, name));
    var regionIds :- ResolveAll(regionNames, name => PlaceIdOf(regions, name));
    Success(RequestUrl(indicatorIds, countryIds, groupIds, regionIds))
  }

  // ----- flattening -----

  /** The rows one `(indicator, country)` pair contributes: one per year,
      in key order. */
  function CountryRows<V>(indicator: string, country: string, years: Years<V>, unit: string): seq<SeriesRow<V>>
  {
    seq(|years|, k requires 0 <= k < |years| => SeriesRow(country, years[k].0, indicator, years[k].1, unit))
  }

  /** The rows one indicator contributes: its countries in key order. */
  function IndicatorRows<V>(indicator: string, countries: CountryValues<V>, unit: string): seq<SeriesRow<V>>
  {
    if |countries| == 0 then []
    else
      var last := countries[|countries| - 1];
      IndicatorRows(indicator, countries[..|countries| - 1], unit) + CountryRows(indicator, last.0, last.1, unit)
  }

  /** One pass of the outer loop: an indicator with no countries adds no
      rows and needs no unit; otherwise its unit is looked up, and a
      failing lookup aborts. */
  function AddIndicator<V>(rows: seq<SeriesRow<V>>, entry: (string, CountryValues<V>), unitOf: string -> Result<string>)
    : Result<seq<SeriesRow<V>>>
  {
    if |entry.1| == 0 then Success(rows)
    else
      var unit :- unitOf(entry.0);
      Success(rows + IndicatorRows(entry.0, entry.1, unit))
  }

  /** The table the nested loops of utilities/tools.py:314-325 build: the
      indicators in key order, the unit looked up once per (indicator,
      country) pair. */
  function FlattenRows<V>(values: Values<V>, unitOf: string -> Result<string>): Result<seq<SeriesRow<V>>>
  {
    if |values| == 0 then Success([])
    else
      var rows :- FlattenRows(values[..|values| - 1], unitOf);
      AddIndicator(rows, values[|values| - 1], unitOf)
  }

  /** Number of years under one indicator. */
  function YearCount<V>(countries: CountryValues<V>): nat
  {
    if |countries| == 0 then 0 else |countries[0].1| + YearCount(countries[1..])
  }

  /** Number of (indicator, country, year) leaves in a `values` object. */
  function LeafCount<V>(values: Values<V>): nat
  {
    if |values| == 0 then 0 else YearCount(values[0].1) + LeafCount(values[1..])
  }

  /** `row` is the line for leaf `(i, j, y)`: the enclosing indicator and
      country keys, the year and the value of one entry, and the unit of
      that indicator. */
  ghost predicate IsLeafRow<V>(values: Values<V>, unitOf: string -> Result<string>, i: int, j: int, y: int, row: SeriesRow<V>)
  {
    0 <= i < |values| && 0 <= j < |values[i].1| && 0 <= y < |values[i].1[j].1| &&
    unitOf(values[i].0).Success? &&
    row == SeriesRow(values[i].1[j].0, values[i].1[j].1[y].0, values[i].0, values[i].1[j].1[y].1, unitOf(values[i].0).value)
  }

  lemma {:induction false} YearCountSnoc<V>(countries: CountryValues<V>, c: (string, Years<V>))
    ensures YearCount(countries + [c]) == YearCount(countries) + |c.1|
  {
    if |countries| == 0 {
      assert countries + [c] == [c];
      assert [c][1..] == [];
    } else {
      assert (countries + [c])[1..] == countries[1..] + [c];
      YearCountSnoc(countries[1..], c);
    }
  }

  lemma {:induction false} LeafCountSnoc<V>(values: Values<V>, v: (string, CountryValues<V>))
    ensures LeafCount(values + [v]) == LeafCount(values) + YearCount(v.1)
  {
    if |values| == 0 {
      assert values + [v] == [v];
      assert [v][1..] == [];
    } else {
      assert (values + [v])[1..] == values[1..] + [v];
      LeafCountSnoc(values[1..], v);
    }
  }

  lemma {:induction false} IndicatorRowsCount<V>(indicator: string, countries: CountryValues<V>, unit: string)
    ensures |IndicatorRows(indicator, countries, unit)| == YearCount(countries)
  {
    if |countries| != 0 {
      var n := |countries|;
      IndicatorRowsCount(indicator, countries[..n - 1], unit);
      YearCountSnoc(countries[..n - 1], countries[n - 1]);
      assert countries[..n - 1] + [countries[n - 1]] == countries;
    }
  }

  /** The table has exactly one row per (indicator, country, year) leaf. */
  lemma {:induction false} FlattenRowCount<V>(values: Values<V>, unitOf: string -> Result<string>)
    requires FlattenRows(values, unitOf).Success?
    ensures |FlattenRows(values, unitOf).value| == LeafCount(values)
  {
    if |values| != 0 {
      var n := |values|;
      FlattenRowCount(values[..n - 1], unitOf);
      LeafCountSnoc(values[..n - 1], values[n - 1]);
      assert values[..n - 1] + [values[n - 1]] == values;
      IndicatorRowsCount(values[n - 1].0, values[n - 1].1, if |values[n - 1].1| == 0 then "" else unitOf(values[n - 1].0).value);
    }
  }

  /** Flattening fails exactly when some indicator that has at least one
      country has no unit. */
  lemma {:induction false} FlattenFailsIff<V>(values: Values<V>, unitOf: string -> Result<string>)
    ensures FlattenRows(values, unitOf).Failure? <==>
      exists i :: 0 <= i < |values| && |values[i].1| > 0 && unitOf(values[i].0).Failure?
  {
    if |values| != 0 {
      var n := |values|;
      var pre := values[..n - 1];
      FlattenFailsIff(pre, unitOf);
      assert forall i :: 0 <= i < n - 1 ==> pre[i] == values[i];
      if FlattenRows(values, unitOf).Failure? && !FlattenRows(pre, unitOf).Failure? {
        assert |values[n - 1].1| > 0 && unitOf(values[n - 1].0).Failure?;
      }
    }
  }

  lemma {:induction false} IndicatorRowsMembership<V>(indicator: string, countries: CountryValues<V>, unit: string, row: SeriesRow<V>)
    ensures row in IndicatorRows(indicator, countries, unit) <==>
      exists j, y :: 0 <= j < |countries| && 0 <= y < |countries[j].1| &&
        row == SeriesRow(countries[j].0, countries[j].1[y].0, indicator, countries[j].1[y].1, unit)
  {
    if |countries| != 0 {
      var n := |countries|;
      var pre, last := countries[..n - 1], countries[n - 1];
      IndicatorRowsMembership(indicator, pre, unit, row);
      assert forall j :: 0 <= j < n - 1 ==> pre[j] == countries[j];
      var tail := CountryRows(indicator, last.0, last.1, unit);
      if row in tail {
        var y :| 0 <= y < |tail| && tail[y] == row;
        assert 0 <= n - 1 < |countries| && 0 <= y < |countries[n - 1].1| &&
          row == SeriesRow(countries[n - 1].0, countries[n - 1].1[y].0, indicator, countries[n - 1].1[y].1, unit);
      }
      if exists j, y :: 0 <= j < |countries| && 0 <= y < |countries[j].1| &&
          row == SeriesRow(countries[j].0, countries[j].1[y].0, indicator, countries[j].1[y].1, unit) {
        var j, y :| 0 <= j < |countries| && 0 <= y < |countries[j].1| &&
          row == SeriesRow(countries[j].0, countries[j].1[y].0, indicator, countries[j].1[y].1, unit);
        if j == n - 1 {
          assert tail[y] == row;
        }
      }
    }
  }

  /** A row is in the table exactly when it is the line of some leaf: rows
      are neither invented nor lost, and in each row Year and Value come
      from the same entry while Country and Indicator repeat its enclosing
      keys. */
  lemma {:induction false} FlattenMembership<V>(values: Values<V>, unitOf: string -> Result<string>, row: SeriesRow<V>)
    requires FlattenRows(values, unitOf).Success?
    ensures row in FlattenRows(values, unitOf).value <==>
      exists i, j, y :: IsLeafRow(values, unitOf, i, j, y, row)
  {
    if |values| != 0 {
      var n := |values|;
      var pre, last := values[..n - 1], values[n - 1];
      FlattenMembership(pre, unitOf, row);
      assert forall i :: 0 <= i < n - 1 ==> pre[i] == values[i];
      forall i, j, y | IsLeafRow(pre, unitOf, i, j, y, row) ensures IsLeafRow(values, unitOf, i, j, y, row) {
      }
      if |last.1| != 0 {
        var unit := unitOf(last.0).value;
        IndicatorRowsMembership(last.0, last.1, unit, row);
        if row in IndicatorRows(last.0, last.1, unit) {
          var j, y :| 0 <= j < |last.1| && 0 <= y < |last.1[j].1| &&
            row == SeriesRow(last.1[j].0, last.1[j].1[y].0, last.0, last.1[j].1[y].1, unit);
          assert IsLeafRow(values, unitOf, n - 1, j, y, row);
        }
      }
      if exists i, j, y :: IsLeafRow(values, unitOf, i, j, y, row) {
        var i, j, y :| IsLeafRow(values, unitOf, i, j, y, row);
        if i < n - 1 {
          assert IsLeafRow(pre, unitOf, i, j, y, row);
        } else {
          IndicatorRowsMembership(last.0, last.1, unitOf(last.0).value, row);
        }
      }
    }
  }

  /** One outer-loop pass on top of earlier rows adds what it adds on its
      own, and fails the same way. */
  lemma AddIndicatorAfter<V>(ra: seq<SeriesRow<V>>, rb: seq<SeriesRow<V>>, entry: (string, CountryValues<V>),
                             unitOf: string -> Result<string>)
    ensures AddIndicator(rb, entry, unitOf).Failure? ==> AddIndicator(ra + rb, entry, unitOf) == AddIndicator(rb, entry, unitOf)
    ensures AddIndicator(rb, entry, unitOf).Success? ==>
      AddIndicator(ra + rb, entry, unitOf) == Success(ra + AddIndicator(rb, entry, unitOf).value)
  {
    if |entry.1| != 0 && unitOf(entry.0).Success? {
      var tail := IndicatorRows(entry.0, entry.1, unitOf(entry.0).value);
      assert ra + rb + tail == ra + (rb + tail);
    }
  }

  /** Flattening follows key order: the rows of a `values` object split in
      two are the rows of the first part followed by the rows of the second,
      and a failure in either part is the failure of the whole. */
  lemma {:induction false} FlattenAppend<V>(a: Values<V>, b: Values<V>, unitOf: string -> Result<string>)
    ensures FlattenRows(a, unitOf).Failure? ==> FlattenRows(a + b, unitOf) == FlattenRows(a, unitOf)
    ensures FlattenRows(a, unitOf).Success? && FlattenRows(b, unitOf).Failure? ==>
      FlattenRows(a + b, unitOf) == Failure(FlattenRows(b, unitOf).error)
    ensures FlattenRows(a, unitOf).Success? && FlattenRows(b, unitOf).Success? ==>
      FlattenRows(a + b, unitOf) == Success(FlattenRows(a, unitOf).value + FlattenRows(b, unitOf).value)
  {
    if |b| == 0 {
      assert a + b == a;
      if FlattenRows(a, unitOf).Success? {
        assert FlattenRows(a, unitOf).value + [] == FlattenRows(a, unitOf).value;
      }
    } else {
      var n := |b|;
      var pre, last := b[..n - 1], b[n - 1];
      var ab := a + b;
      assert ab[..|ab| - 1] == a + pre;
      assert ab[|ab| - 1] == last;
      FlattenAppend(a, pre, unitOf);
      var left, prefix := FlattenRows(a, unitOf), FlattenRows(pre, unitOf);
      if left.Success? && prefix.Success? {
        AddIndicatorAfter(left.value, prefix.value, last, unitOf);
      }
    }
  }

  /** `pd.DataFrame(compiled_data)` read back as rows: column k of every
      list describes row k. */
  function FrameOf<V>(rows: seq<SeriesRow<V>>): (f: Frame<V>)
    ensures f.Aligned() && |f.country| == |rows|
  {
    Frame(seq(|rows|, k requires 0 <= k < |rows| => rows[k].country),
          seq(|rows|, k requires 0 <= k < |rows| => rows[k].year),
          seq(|rows|, k requires 0 <= k < |rows| => rows[k].indicator),
          seq(|rows|, k requires 0 <= k < |rows| => rows[k].value),
          seq(|rows|, k requires 0 <= k < |rows| => rows[k].unit))
  }

  /** `[x] * n` */
  function Repeat<T>(x: T, n: nat): seq<T>
  {
    seq(n, _ => x)
  }

  /** `d.keys()` and `d.values()`. */
  function Keys<V>(years: Years<V>): seq<string>
  {
    seq(|years|, k requires 0 <= k < |years| => years[k].0)
  }

  function Vals<V>(years: Years<V>): seq<V>
  {
    seq(|years|, k requires 0 <= k < |years| => years[k].1)
  }

  /** Extending every column list by one country's block is extending the
      table by that block's rows. */
  lemma FrameOfExtend<V>(rows: seq<SeriesRow<V>>, indicator: string, country: string, years: Years<V>, unit: string)
    ensures FrameOf(rows + CountryRows(indicator, country, years, unit)) ==
      Frame(FrameOf(rows).country + Repeat(country, |years|), FrameOf(rows).year + Keys(years),
            FrameOf(rows).indicator + Repeat(indicator, |years|), FrameOf(rows).value + Vals(years),
            FrameOf(rows).unit + Repeat(unit, |years|))
  {
  }

  lemma {:induction false} FlattenFailureSticks<V>(values: Values<V>, unitOf: string -> Result<string>, n: nat)
    requires n <= |values|
    requires FlattenRows(values[..n], unitOf).Failure?
    ensures FlattenRows(values, unitOf) == FlattenRows(values[..n], unitOf)
    decreases |values| - n
  {
    if n < |values| {
      var pre := values[..|values| - 1];
      assert pre[..n] == values[..n];
      FlattenFailureSticks(pre, unitOf, n);
    } else {
      assert values[..n] == values;
    }
  }

  /** The inner loop of utilities/tools.py:318-325 for one indicator:
      extend the column lists by one block per country, looking the unit
      up for each. */
  method ExtendByIndicator<V>(data: Frame<V>, ghost done: seq<SeriesRow<V>>, indicator: string,
                              countries: CountryValues<V>, unitOf: string -> Result<string>)
    returns (r: Result<Frame<V>>)
    requires data == FrameOf(done)
    ensures r.Failure? <==> |countries| > 0 && unitOf(indicator).Failure?
    ensures r.Failure? ==> r.error == unitOf(indicator).error
    ensures r.Success? ==> r.value == FrameOf(if |countries| == 0 then done
                                              else done + IndicatorRows(indicator, countries, unitOf(indicator).value))
  {
    ghost var u := if unitOf(indicator).Success? then unitOf(indicator).value else "";
    var acc := data;
    var j := 0;
    while j < |countries|
      invariant 0 <= j <= |countries|
      invariant j > 0 ==> unitOf(indicator).Success?
      invariant acc == FrameOf(done + IndicatorRows(indicator, countries[..j], u))
    {
      var (country, years) := countries[j];
      assert countries[..j + 1][..j] == countries[..j];
      FrameOfExtend(done + IndicatorRows(indicator, countries[..j], u), indicator, country, years, u);
      assert done + IndicatorRows(indicator, countries[..j + 1], u) ==
        done + IndicatorRows(indicator, countries[..j], u) + CountryRows(indicator, country, years, u);
      acc := acc.(country := acc.country + Repeat(country, |years|), year := acc.year + Keys(years),
                  indicator := acc.indicator + Repeat(indicator, |years|), value := acc.value + Vals(years));
      var unit := unitOf(indicator);
      if unit.Failure? {
        return Failure(unit.error);
      }
      acc := acc.(unit := acc.unit + Repeat(unit.value, |years|));
      j := j + 1;
    }
    assert countries[..j] == countries;
    assert |countries| == 0 ==> done + IndicatorRows(indicator, countries, u) == done;
    r := Success(acc);
  }

  /** The nested loops of utilities/tools.py:312-325: start from empty
      column lists and extend them indicator by indicator, in key order. */
  method Flatten<V>(values: Values<V>, unitOf: string -> Result<string>) returns (r: Result<Frame<V>>)
    ensures r.Success? <==> FlattenRows(values, unitOf).Success?
    ensures r.Success? ==> r.value.Aligned() && r.value == FrameOf(FlattenRows(values, unitOf).value)
    ensures r.Failure? ==> r.error == FlattenRows(values, unitOf).error
  {
    var data: Frame<V> := Frame([], [], [], [], []);
    var i := 0;
    while i < |values|
      invariant 0 <= i <= |values|
      invariant FlattenRows(values[..i], unitOf).Success?
      invariant data == FrameOf(FlattenRows(values[..i], unitOf).value)
    {
      var (indicator, countries) := values[i];
      assert values[..i + 1][..i] == values[..i];
      var next := ExtendByIndicator(data, FlattenRows(values[..i], unitOf).value, indicator, countries, unitOf);
      if next.Failure? {
        FlattenFailureSticks(values, unitOf, i + 1);
        return Failure(next.error);
      }
      data := next.value;
      i := i + 1;
    }
    assert values[..i] == values;
    r := Success(data);
  }

  /** `get_data(indicators, countries, groups, regions)` against the
      reference tables in force and a series endpoint `remote`. An absent
      or empty name list is the same falsy argument. */
  method GetData<V>(indicatorNames: seq<string>, countryNames: seq<string>, groupNames: seq<string>, regionNames: seq<string>,
                    indicators: seq<IndicatorRow>, countries: seq<PlaceRow>, groups: seq<PlaceRow>, regions: seq<PlaceRow>,
                    remote: string -> Response<Option<Values<V>>>)
    returns (r: Result<SeriesOutcome<V>>)
    ensures var url := SeriesUrl(indicatorNames, countryNames, groupNames, regionNames, indicators, countries, groups, regions);
      && (url.Failure? ==> r == Failure(url.error))
      && (url.Success? && remote(url.value).NotOk? ==> r == Success(NoResult))
      && (url.Success? && remote(url.value).Ok? && remote(url.value).body.None? ==> r == Success(NothingToShow))
      && (url.Success? && remote(url.value).Ok? && remote(url.value).body.Some? ==>
            var rows := FlattenRows(remote(url.value).body.value, UnitLookup(indicators));
            && (rows.Failure? ==> r == Failure(rows.error))
            && (rows.Success? ==> r.Success? && r.value.DataTable? && r.value.frame == FrameOf(rows.value)))
    ensures r.Success? && r.value.DataTable? ==> r.value.frame.Aligned()
  {
    var url := SeriesUrl(indicatorNames, countryNames, groupNames, regionNames, indicators, countries, groups, regions);
    if url.Failure? {
      return Failure(url.error);
    }
    var res := remote(url.value);
    if res.NotOk? {
      return Success(NoResult);
    }
    if res.body.None? {
      return Success(NothingToShow);
    }
    var frame :- Flatten(res.body.value, UnitLookup(indicators));
    r := Success(DataTable(frame));
  }

  /** The reply `{"values": {"NGDP_RPCH": {"IND": {"2020": a, "2021": b}}}}`
      gives two rows, one per year, both labelled with the indicator's
      unit. */
  lemma TwoYearExample<V>(a: V, b: V, unitOf: string -> Result<string>, unit: string)
    requires unitOf("NGDP_RPCH") == Success(unit)
    ensures FlattenRows([("NGDP_RPCH", [("IND", [("2020", a), ("2021", b)])])], unitOf) ==
      Success([SeriesRow("IND", "2020", "NGDP_RPCH", a, unit), SeriesRow("IND", "2021", "NGDP_RPCH", b, unit)])
  {
    var years: Years<V> := [("2020", a), ("2021", b)];
    var countries: CountryValues<V> := [("IND", years)];
    var values: Values<V> := [("NGDP_RPCH", countries)];
    assert values[..0] == [] && countries[..0] == [];
    assert CountryRows("NGDP_RPCH", "IND", years, unit) ==
      [SeriesRow("IND", "2020", "NGDP_RPCH", a, unit), SeriesRow("IND", "2021", "NGDP_RPCH", b, unit)];
    assert IndicatorRows("NGDP_RPCH", countries, unit) == CountryRows("NGDP_RPCH", "IND", years, unit);
  }
}
