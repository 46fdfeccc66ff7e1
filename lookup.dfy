/** Answering a reference call once the table is at hand: the whole table,
    or the id or unit picked out by an exact-match filter
    (`table[table[column] == value][other].values[0]`), which raises
    `IndexError` when nothing matches. The cache-hit path
    (utilities/tools.py:56-64, 129-133, 190-194, 250-254) and the rebuild
    path (utilities/tools.py:91-99, 155-159, 215-219, 275-279) answer
    differently; both are modelled as written. */
module Lookup {
  import opened Base
  import opened ReferenceTables

  /** The `get` argument: `'id'`, `'unit'`, or anything else (`None`
      included), which returns the table. */
  datatype Mode = AsTable | GetId | GetUnit

  datatype Answer<R> = Table(rows: seq<R>) | Id(id: string) | Unit(unit: string)

  function IndicatorName(row: IndicatorRow): string { row.name }
  function IndicatorId(row: IndicatorRow): string { row.id }
  function IndicatorUnit(row: IndicatorRow): string { row.unit }
  function PlaceName(row: PlaceRow): string { row.name }
  function PlaceId(row: PlaceRow): string { row.id }

  /** Row `k` is the first whose `column` equals `want`, character for
      character. */
  ghost predicate IsFirstMatch<R>(rows: seq<R>, column: R -> string, want: string, k: int)
  {
    0 <= k < |rows| && column(rows[k]) == want &&
    forall j :: 0 <= j < k ==> column(rows[j]) != want
  }

  /** The position of the first row whose `column` is exactly `want`. */
  function FirstWhere<R>(rows: seq<R>, column: R -> string, want: string): (k: Option<nat>)
    ensures k.Some? ==> IsFirstMatch(rows, column, want, k.value)
    ensures k.None? ==> forall j :: 0 <= j < |rows| ==> column(rows[j]) != want
  {
    if |rows| == 0 then None
    else if column(rows[0]) == want then Some(0)
    else match FirstWhere(rows[1..], column, want)
      case None => None
      case Some(j) => Some(j + 1)
  }

  /** `table[table[column] == want][pick].values[0]`: the `pick` of the
      first row whose `column` is exactly `want`; no match is an error, not
      a default. */
  function Select<R>(rows: seq<R>, column: R -> string, want: string, pick: R -> string): (r: Result<string>)
    ensures r.Success? <==> exists k :: 0 <= k < |rows| && column(rows[k]) == want
    ensures r.Success? ==> exists k :: IsFirstMatch(rows, column, want, k) && r.value == pick(rows[k])
    ensures r.Failure? ==> r.error == NoMatch(want)
  {
    match FirstWhere(rows, column, want)
    case Some(k) => Success(pick(rows[k]))
    case None => Failure(NoMatch(want))
  }

  /** `get_indicators(indicator, get)` answered from a table read back from
      disk (utilities/tools.py:56-64): an id is found by exact name, a unit
      by exact id. */
  function IndicatorAnswer(rows: seq<IndicatorRow>, indicator: Option<string>, get: Mode)
    : (r: Result<Answer<IndicatorRow>>)
    ensures indicator.None? || get == AsTable ==> r == Success(Table(rows))
    ensures indicator.Some? && get == GetId ==>
      (r.Success? <==> exists k :: 0 <= k < |rows| && rows[k].name == indicator.value) &&
      (r.Success? ==> (r.value.Id? &&
        exists k :: IsFirstMatch(rows, IndicatorName, indicator.value, k) && rows[k].id == r.value.id))
    ensures indicator.Some? && get == GetUnit ==>
      (r.Success? <==> exists k :: 0 <= k < |rows| && rows[k].id == indicator.value) &&
      (r.Success? ==> (r.value.Unit? &&
        exists k :: IsFirstMatch(rows, IndicatorId, indicator.value, k) && rows[k].unit == r.value.unit))
    ensures r.Failure? ==> indicator.Some? && r.error == NoMatch(indicator.value)
  {
    match (indicator, get)
    case (Some(x), GetId) =>
      var id :- Select(rows, IndicatorName, x, IndicatorId);
      Success(Id(id))
    case (Some(x), GetUnit) =>
      var unit :- Select(rows, IndicatorId, x, IndicatorUnit);
      Success(Unit(unit))
    case _ => Success(Table(rows))
  }

  /** `get_indicators` answered right after rebuilding the table
      (utilities/tools.py:91-99), as written: `bound` is the loop variable
      the builder left behind, and a unit is found by matching `bound`
      against the NAME column, not the id column. */
  function MissIndicatorAnswer(rows: seq<IndicatorRow>, bound: Option<string>, get: Mode)
    : (r: Result<Answer<IndicatorRow>>)
    ensures bound.None? || get == AsTable ==> r == Success(Table(rows))
    ensures bound.Some? && get == GetId ==>
      (r.Success? <==> exists k :: 0 <= k < |rows| && rows[k].name == bound.value) &&
      (r.Success? ==> (r.value.Id? &&
        exists k :: IsFirstMatch(rows, IndicatorName, bound.value, k) && rows[k].id == r.value.id))
    ensures bound.Some? && get == GetUnit ==>
      (r.Success? <==> exists k :: 0 <= k < |rows| && rows[k].name == bound.value) &&
      (r.Success? ==> (r.value.Unit? &&
        exists k :: IsFirstMatch(rows, IndicatorName, bound.value, k) && rows[k].unit == r.value.unit))
    ensures r.Failure? ==> bound.Some? && r.error == NoMatch(bound.value)
  {
    match (bound, get)
    case (Some(x), GetId) =>
      var id :- Select(rows, IndicatorName, x, IndicatorId);
      Success(Id(id))
    case (Some(x), GetUnit) =>
      var unit :- Select(rows, IndicatorName, x, IndicatorUnit);
      Success(Unit(unit))
    case _ => Success(Table(rows))
  }

  /** `get_countries`, `get_groups` and `get_regions` answered from a table
      (utilities/tools.py:129-133 and their rebuild paths): only `'id'` is
      understood, and it is found by exact name; `'unit'` returns the table. */
  function PlaceAnswer(rows: seq<PlaceRow>, place: Option<string>, get: Mode)
    : (r: Result<Answer<PlaceRow>>)
    ensures place.None? || get != GetId ==> r == Success(Table(rows))
    ensures place.Some? && get == GetId ==>
      (r.Success? <==> exists k :: 0 <= k < |rows| && rows[k].name == place.value) &&
      (r.Success? ==> (r.value.Id? &&
        exists k :: IsFirstMatch(rows, PlaceName, place.value, k) && rows[k].id == r.value.id))
    ensures r.Failure? ==> place.Some? && r.error == NoMatch(place.value)
  {
    match (place, get)
    case (Some(x), GetId) =>
      var id :- Select(rows, PlaceName, x, PlaceId);
      Success(Id(id))
    case _ => Success(Table(rows))
  }

  /** Resolution is exact: a name that differs from every stored name in
      any character (case included) does not resolve. */
  lemma ResolutionIsExact(rows: seq<IndicatorRow>, name: string)
    requires forall k :: 0 <= k < |rows| ==> rows[k].name != name
    ensures IndicatorAnswer(rows, Some(name), GetId) == Failure(NoMatch(name))
  {
  }
}
