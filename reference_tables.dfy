/** Building the four reference tables from a reference endpoint's reply
    (utilities/tools.py:69-88 for indicators; 138-152, 199-212, 259-272 for
    countries, groups and regions, which share one shape). The reply's
    category object maps each id to a record; the builders walk it in key
    order, skip some keys, append to a dictionary of column lists and turn
    the columns into a table. */
module ReferenceTables {
  import opened Base
  import opened Text

  /** One property of a JSON record: missing, `null`, or a string. */
  datatype Field = Absent | Null | Str(s: string)

  /** The record the API gives for one id; `caption` is its `label`
      property. Countries, groups and regions
      carry only a label; the other properties are then `Absent`. */
  datatype Record = Record(caption: Field, description: Field, unit: Field, source: Field)

  /** A JSON object in key order: `(id, record)` pairs as Python's dict
      iterates them. */
  type Entries = seq<(string, Record)>

  datatype IndicatorRow = IndicatorRow(id: string, name: string, description: string, unit: string, source: string)

  /** A row of the country, group or region table. */
  datatype PlaceRow = PlaceRow(id: string, name: string)

  /** Every property an indicator row reads is present. */
  predicate Complete(rec: Record)
  {
    !rec.caption.Absent? && !rec.description.Absent? && !rec.unit.Absent? && !rec.source.Absent?
  }

  predicate Clean(row: IndicatorRow)
  {
    '\n' !in row.name && '\n' !in row.description && '\n' !in row.unit && '\n' !in row.source
  }

  /** `str(record[field]).replace('\n', '')`: a missing property raises
      `KeyError`, `null` prints as `None`. */
  function FieldText(f: Field, field: string): (r: Result<string>)
    ensures r.Failure? <==> f.Absent?
    ensures r.Failure? ==> r.error == MissingKey(field)
    ensures r.Success? ==> '\n' !in r.value
  {
    match f
    case Absent => Failure(MissingKey(field))
    case Null => Success("None")
    case Str(s) => Success(StripNewlines(s))
  }

  /** The row appended for one kept indicator key (utilities/tools.py:82-86),
      reading label, description, unit and source in that order. */
  function IndicatorRowOf(key: string, rec: Record): (r: Result<IndicatorRow>)
    ensures r.Success? <==> Complete(rec)
    ensures r.Success? ==> r.value.id == key && Clean(r.value)
  {
    var name :- FieldText(rec.caption, "label");
    var description :- FieldText(rec.description, "description");
    var unit :- FieldText(rec.unit, "unit");
    var source :- FieldText(rec.source, "source");
    Success(IndicatorRow(key, name, description, unit, source))
  }

  /** The indicator table as the loop at utilities/tools.py:79-86 leaves
      it after visiting `entries`: the empty key is skipped, every other key
      gives one row, and the first missing property aborts. */
  function IndicatorRowsOf(entries: Entries): Result<seq<IndicatorRow>>
  {
    if |entries| == 0 then Success([])
    else
      var rows :- IndicatorRowsOf(entries[..|entries| - 1]);
      var (key, rec) := entries[|entries| - 1];
      if key == "" then Success(rows)
      else
        var row :- IndicatorRowOf(key, rec);
        Success(rows + [row])
  }

  /** The keys that become indicator rows. */
  predicate IndicatorKept(e: (string, Record))
  {
    e.0 != ""
  }

  /** The keys that become country, group or region rows: a `null` label
      is skipped, a missing one raises. */
  predicate PlaceKept(e: (string, Record))
  {
    e.0 != "" && !e.1.caption.Null?
  }

  /** The country, group or region table as the loop at
      utilities/tools.py:145-150 leaves it after visiting `entries`. */
  function PlaceRowsOf(entries: Entries): Result<seq<PlaceRow>>
  {
    if |entries| == 0 then Success([])
    else
      var rows :- PlaceRowsOf(entries[..|entries| - 1]);
      var (key, rec) := entries[|entries| - 1];
      if key == "" then Success(rows)
      else
        match rec.caption
        case Absent => Failure(MissingKey("label"))
        case Null => Success(rows)
        case Str(s) => Success(rows + [PlaceRow(key, StripNewlines(s))])
  }

  /** What the builder's `for` variable, which is also the function's
      parameter, holds once the loop is over: the last key of the reply,
      or the caller's argument when the reply is empty. */
  function LoopVariable(entries: Entries, argument: Option<string>): Option<string>
  {
    if |entries| == 0 then argument else Some(entries[|entries| - 1].0)
  }

  // ----- what the built tables are -----

  /** The indicator table has one row per non-empty key, in key order, each
      made from that key's record; it is built unless some kept key's record
      lacks a property. */
  lemma {:induction false} IndicatorTableShape(entries: Entries)
    ensures IndicatorRowsOf(entries).Success? <==>
      forall i :: 0 <= i < |entries| && entries[i].0 != "" ==> Complete(entries[i].1)
    ensures IndicatorRowsOf(entries).Success? ==>
      var rows := IndicatorRowsOf(entries).value;
      var kept := Filter(entries, IndicatorKept);
      |rows| == |kept| &&
      forall k :: 0 <= k < |rows| ==> Success(rows[k]) == IndicatorRowOf(kept[k].0, kept[k].1)
  {
    if |entries| != 0 {
      var n := |entries|;
      var pre, last := entries[..n - 1], entries[n - 1];
      assert entries == pre + [last];
      assert forall i :: 0 <= i < n - 1 ==> entries[i] == pre[i];
      IndicatorTableShape(pre);
      FilterSnoc(pre, last, IndicatorKept);
    }
  }

  /** Every indicator row's id is a non-empty key of the reply, and no
      stored name, description, unit or source contains a line feed. */
  lemma IndicatorTableClean(entries: Entries)
    requires IndicatorRowsOf(entries).Success?
    ensures forall row :: row in IndicatorRowsOf(entries).value ==>
      Clean(row) && row.id != "" && exists i :: 0 <= i < |entries| && entries[i].0 == row.id
  {
    IndicatorTableShape(entries);
    var rows, kept := IndicatorRowsOf(entries).value, Filter(entries, IndicatorKept);
    forall row | row in rows
      ensures Clean(row) && row.id != "" && exists i :: 0 <= i < |entries| && entries[i].0 == row.id
    {
      var k :| 0 <= k < |rows| && rows[k] == row;
      assert kept[k] in kept;
      FilterMembership(entries, IndicatorKept, kept[k]);
      var i :| 0 <= i < |entries| && entries[i] == kept[k];
    }
  }

  /** The place table has one row per key that is non-empty and whose label
      is not `null`, in key order, named by that label without line feeds;
      it is built unless a non-empty key's label is missing. */
  lemma {:induction false} PlaceTableShape(entries: Entries)
    ensures PlaceRowsOf(entries).Success? <==>
      forall i :: 0 <= i < |entries| && entries[i].0 != "" ==> !entries[i].1.caption.Absent?
    ensures PlaceRowsOf(entries).Success? ==>
      var rows := PlaceRowsOf(entries).value;
      var kept := Filter(entries, PlaceKept);
      |rows| == |kept| &&
      forall k :: 0 <= k < |rows| ==>
        kept[k].1.caption.Str? && rows[k] == PlaceRow(kept[k].0, StripNewlines(kept[k].1.caption.s))
  {
    if |entries| != 0 {
      var n := |entries|;
      var pre, last := entries[..n - 1], entries[n - 1];
      assert entries == pre + [last];
      assert forall i :: 0 <= i < n - 1 ==> entries[i] == pre[i];
      PlaceTableShape(pre);
      FilterSnoc(pre, last, PlaceKept);
    }
  }

  /** No country, group or region row has an empty id, a line feed in its
      name, or an id that is not a key of the reply. */
  lemma PlaceTableClean(entries: Entries)
    requires PlaceRowsOf(entries).Success?
    ensures forall row :: row in PlaceRowsOf(entries).value ==>
      '\n' !in row.name && row.id != "" && exists i :: 0 <= i < |entries| && entries[i].0 == row.id
  {
    PlaceTableShape(entries);
    var rows, kept := PlaceRowsOf(entries).value, Filter(entries, PlaceKept);
    forall row | row in rows
      ensures '\n' !in row.name && row.id != "" && exists i :: 0 <= i < |entries| && entries[i].0 == row.id
    {
      var k :| 0 <= k < |rows| && rows[k] == row;
      assert kept[k] in kept;
      FilterMembership(entries, PlaceKept, kept[k]);
      var i :| 0 <= i < |entries| && entries[i] == kept[k];
    }
  }

  // ----- the builders, as the source runs them -----

  /** The dictionary of column lists the indicator builder appends to. */
  datatype IndicatorColumns = IndicatorColumns(
    id: seq<string>, name: seq<string>, description: seq<string>, unit: seq<string>, source: seq<string>)
  {
    predicate Aligned()
    {
      |name| == |id| && |description| == |id| && |unit| == |id| && |source| == |id|
    }

    /** `pd.DataFrame(data)`: row k holds the k-th entry of every column.
        `.dropna()` removes nothing, since every cell is a string. */
    function Frame(): (rows: seq<IndicatorRow>)
      requires Aligned()
      ensures |rows| == |id|
    {
      seq(|id|, k requires 0 <= k < |id| => IndicatorRow(id[k], name[k], description[k], unit[k], source[k]))
    }
  }

  datatype PlaceColumns = PlaceColumns(id: seq<string>, name: seq<string>)
  {
    predicate Aligned() { |name| == |id| }

    function Frame(): (rows: seq<PlaceRow>)
      requires Aligned()
      ensures |rows| == |id|
    {
      seq(|id|, k requires 0 <= k < |id| => PlaceRow(id[k], name[k]))
    }
  }

  /** Once a prefix of the reply fails to build, so does the whole reply,
      with the same error. */
  lemma {:induction false} IndicatorFailureSticks(entries: Entries, n: nat)
    requires n <= |entries|
    requires IndicatorRowsOf(entries[..n]).Failure?
    ensures IndicatorRowsOf(entries) == IndicatorRowsOf(entries[..n])
    decreases |entries| - n
  {
    if n < |entries| {
      var pre := entries[..|entries| - 1];
      assert pre[..n] == entries[..n];
      IndicatorFailureSticks(pre, n);
    } else {
      assert entries[..n] == entries;
    }
  }

  lemma {:induction false} PlaceFailureSticks(entries: Entries, n: nat)
    requires n <= |entries|
    requires PlaceRowsOf(entries[..n]).Failure?
    ensures PlaceRowsOf(entries) == PlaceRowsOf(entries[..n])
    decreases |entries| - n
  {
    if n < |entries| {
      var pre := entries[..|entries| - 1];
      assert pre[..n] == entries[..n];
      PlaceFailureSticks(pre, n);
    } else {
      assert entries[..n] == entries;
    }
  }

  /** The loop of utilities/tools.py:72-88: append each kept key's id and
      cleaned properties to the column lists, then make the table. `bound`
      is the loop variable, which shares its name with the `indicator`
      parameter and so replaces it. */
  method BuildIndicatorTable(entries: Entries, indicator: Option<string>)
    returns (r: Result<seq<IndicatorRow>>, bound: Option<string>)
    ensures r == IndicatorRowsOf(entries)
    ensures r.Success? ==> bound == LoopVariable(entries, indicator)
  {
    var data := IndicatorColumns([], [], [], [], []);
    bound := indicator;
    var i := 0;
    while i < |entries|
      invariant 0 <= i <= |entries|
      invariant data.Aligned()
      invariant IndicatorRowsOf(entries[..i]) == Success(data.Frame())
      invariant bound == LoopVariable(entries[..i], indicator)
    {
      var (key, rec) := entries[i];
      bound := Some(key);
      assert entries[..i + 1][..i] == entries[..i];
      if key != "" {
        var name := FieldText(rec.caption, "label");
        if name.Failure? {
          IndicatorFailureSticks(entries, i + 1);
          return Failure(name.error), bound;
        }
        var description := FieldText(rec.description, "description");
        if description.Failure? {
          IndicatorFailureSticks(entries, i + 1);
          return Failure(description.error), bound;
        }
        var unit := FieldText(rec.unit, "unit");
        if unit.Failure? {
          IndicatorFailureSticks(entries, i + 1);
          return Failure(unit.error), bound;
        }
        var source := FieldText(rec.source, "source");
        if source.Failure? {
          IndicatorFailureSticks(entries, i + 1);
          return Failure(source.error), bound;
        }
        ghost var before := data.Frame();
        data := IndicatorColumns(data.id + [key], data.name + [name.value],
          data.description + [description.value], data.unit + [unit.value], data.source + [source.value]);
        assert data.Frame() == before + [IndicatorRow(key, name.value, description.value, unit.value, source.value)];
      }
      i := i + 1;
    }
    assert entries[..i] == entries;
    r := Success(data.Frame());
  }

  /** The loop of utilities/tools.py:141-152 (and 202-212, 262-272). */
  method BuildPlaceTable(entries: Entries, place: Option<string>)
    returns (r: Result<seq<PlaceRow>>, bound: Option<string>)
    ensures r == PlaceRowsOf(entries)
    ensures r.Success? ==> bound == LoopVariable(entries, place)
  {
    var data := PlaceColumns([], []);
    bound := place;
    var i := 0;
    while i < |entries|
      invariant 0 <= i <= |entries|
      invariant data.Aligned()
      invariant PlaceRowsOf(entries[..i]) == Success(data.Frame())
      invariant bound == LoopVariable(entries[..i], place)
    {
      var (key, rec) := entries[i];
      bound := Some(key);
      assert entries[..i + 1][..i] == entries[..i];
      if key != "" {
        if rec.caption.Absent? {
          PlaceFailureSticks(entries, i + 1);
          return Failure(MissingKey("label")), bound;
        }
        if rec.caption.Str? {
          ghost var before := data.Frame();
          data := PlaceColumns(data.id + [key], data.name + [StripNewlines(rec.caption.s)]);
          assert data.Frame() == before + [PlaceRow(key, StripNewlines(rec.caption.s))];
        }
      }
      i := i + 1;
    }
    assert entries[..i] == entries;
    r := Success(data.Frame());
  }
}
