/** The four reference loaders `get_indicators`, `get_countries`,
    `get_groups` and `get_regions` (utilities/tools.py:28-281): reuse the
    persisted table while it is fresh, otherwise fetch the reference
    endpoint, rebuild the table, overwrite the persisted copy and answer
    from the rebuilt table. The clock reading and the endpoint's reply are
    parameters; the persisted CSV file is an object whose fields the
    loaders update. */
module ReferenceCache {
  import opened Base
  import opened FileAge
  import opened ReferenceTables
  import opened Lookup

  /** The persisted copy of one reference table (`data/indicators.csv`,
      `data/countries.csv`, ...): whether the file exists, the time
      `os.path.getctime` reports for it, and the table it holds. */
  class CsvFile<R> {
    var isFile: bool
    var createdAt: int
    var rows: seq<R>

    constructor (isFile: bool, createdAt: int, rows: seq<R>)
      ensures this.isFile == isFile && this.createdAt == createdAt && this.rows == rows
    {
      this.isFile, this.createdAt, this.rows := isFile, createdAt, rows;
    }

    /** The guard of utilities/tools.py:54 (and 127, 188, 248). */
    predicate FreshAt(now: int)
      reads this
    {
      IsFresh(isFile, createdAt, now)
    }

    /** `output.to_csv(path, index=False)`: the file now exists, holds
        `table` and dates from `now`. */
    method Overwrite(table: seq<R>, now: int)
      modifies this
      ensures isFile && createdAt == now && rows == table
    {
      isFile, createdAt, rows := true, now, table;
    }
  }

  /** A reference endpoint's reply: on status 200, its top-level JSON
      object, whose category key holds the id -> record object. */
  type Reply = Response<map<string, Entries>>

  datatype PlaceKind = Countries | Groups | Regions

  /** The top-level key of the reply, which is also the endpoint's name. */
  function Section(kind: PlaceKind): string
  {
    match kind
    case Countries => "countries"
    case Groups => "groups"
    case Regions => "regions"
  }

  /** `get_indicators(indicator, get)` (utilities/tools.py:54-101). The
      ghost `fetched` records whether the endpoint was called. */
  method GetIndicators(file: CsvFile<IndicatorRow>, now: int, reply: Reply, indicator: Option<string>, get: Mode)
    returns (r: Result<Answer<IndicatorRow>>, ghost fetched: bool)
    modifies file
    ensures fetched <==> !old(file.FreshAt(now))
    ensures !fetched ==> unchanged(file) && r == IndicatorAnswer(file.rows, indicator, get)
    ensures fetched && reply.NotOk? ==> unchanged(file) && r == Failure(RemoteStatus(reply.status))
    ensures fetched && reply.Ok? && "indicators" !in reply.body ==>
      unchanged(file) && r == Failure(MissingKey("indicators"))
    ensures fetched && reply.Ok? && "indicators" in reply.body ==>
      var entries := reply.body["indicators"];
      match IndicatorRowsOf(entries)
      case Failure(e) => unchanged(file) && r == Failure(e)
      case Success(rows) =>
        file.isFile && file.createdAt == now && file.rows == rows &&
        r == MissIndicatorAnswer(rows, LoopVariable(entries, indicator), get)
  {
    var reuse := file.FreshAt(now);
    fetched := !reuse;
    if reuse {
      r := IndicatorAnswer(file.rows, indicator, get);
    } else if reply.NotOk? {
      r := Failure(RemoteStatus(reply.status));
    } else if "indicators" !in reply.body {
      r := Failure(MissingKey("indicators"));
    } else {
      var built, bound := BuildIndicatorTable(reply.body["indicators"], indicator);
      if built.Failure? {
        r := Failure(built.error);
      } else {
        file.Overwrite(built.value, now);
        r := MissIndicatorAnswer(built.value, bound, get);
      }
    }
  }

  /** `get_countries`, `get_groups` and `get_regions`
      (utilities/tools.py:127-161, 188-221, 248-281), which differ only in
      the endpoint, the file and the reply's top-level key. */
  method GetPlaces(kind: PlaceKind, file: CsvFile<PlaceRow>, now: int, reply: Reply, place: Option<string>, get: Mode)
    returns (r: Result<Answer<PlaceRow>>, ghost fetched: bool)
    modifies file
    ensures fetched <==> !old(file.FreshAt(now))
    ensures !fetched ==> unchanged(file) && r == PlaceAnswer(file.rows, place, get)
    ensures fetched && reply.NotOk? ==> unchanged(file) && r == Failure(RemoteStatus(reply.status))
    ensures fetched && reply.Ok? && Section(kind) !in reply.body ==>
      unchanged(file) && r == Failure(MissingKey(Section(kind)))
    ensures fetched && reply.Ok? && Section(kind) in reply.body ==>
      var entries := reply.body[Section(kind)];
      match PlaceRowsOf(entries)
      case Failure(e) => unchanged(file) && r == Failure(e)
      case Success(rows) =>
        file.isFile && file.createdAt == now && file.rows == rows &&
        r == PlaceAnswer(rows, LoopVariable(entries, place), get)
  {
    var reuse := file.FreshAt(now);
    fetched := !reuse;
    if reuse {
      r := PlaceAnswer(file.rows, place, get);
    } else if reply.NotOk? {
      r := Failure(RemoteStatus(reply.status));
    } else if Section(kind) !in reply.body {
      r := Failure(MissingKey(Section(kind)));
    } else {
      var built, bound := BuildPlaceTable(reply.body[Section(kind)], place);
      if built.Failure? {
        r := Failure(built.error);
      } else {
        file.Overwrite(built.value, now);
        r := PlaceAnswer(built.value, bound, get);
      }
    }
  }

  /** Two indicator loads less than five days apart: when the first one
      had to fetch and the reply built a table, the file was overwritten
      before the lookup ran, so the second load is served from the file
      whether or not the first one's lookup succeeded. */
  method LoadIndicatorsTwice(file: CsvFile<IndicatorRow>, now: int, later: int, reply: Reply,
                             indicator: Option<string>, get: Mode)
    returns (first: Result<Answer<IndicatorRow>>, second: Result<Answer<IndicatorRow>>,
             ghost fetchedFirst: bool, ghost fetchedSecond: bool)
    requires now <= later < now + FreshDays * SecondsPerDay
    modifies file
    ensures (fetchedFirst && reply.Ok? && "indicators" in reply.body &&
             IndicatorRowsOf(reply.body["indicators"]).Success?) ==> !fetchedSecond
  {
    first, fetchedFirst := GetIndicators(file, now, reply, indicator, get);
    if fetchedFirst && reply.Ok? && "indicators" in reply.body && IndicatorRowsOf(reply.body["indicators"]).Success? {
      FreshIffUnderFiveDays(now, later);
    }
    second, fetchedSecond := GetIndicators(file, later, reply, indicator, get);
  }
}
