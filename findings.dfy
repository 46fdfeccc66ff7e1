/** Two defects of the rebuild path of `get_indicators`
    (utilities/tools.py:79-97), shown on a two-indicator reply. The cache-hit
    answer `Lookup.IndicatorAnswer` is the evidently intended behaviour and
    is what the series model (`Series.IndicatorIdOf`, `Series.UnitLookup`)
    resolves with. */
module Findings {
  import opened Base
  import opened Text
  import opened ReferenceTables
  import opened Lookup

  /** A reply of the indicators endpoint with two indicators. */
  function SampleReply(): Entries
  {
    [("NGDP_RPCH", Record(Str("Real GDP growth"), Str("Constant prices"), Str("Percent"), Str("WEO"))),
     ("NGDPD", Record(Str("GDP"), Str("Current prices"), Str("Billions"), Str("WEO")))]
  }

  /** The table built from `SampleReply()`. */
  function SampleTable(): seq<IndicatorRow>
  {
    [IndicatorRow("NGDP_RPCH", "Real GDP growth", "Constant prices", "Percent", "WEO"),
     IndicatorRow("NGDPD", "GDP", "Current prices", "Billions", "WEO")]
  }

  /** A record of clean strings gives the row of those strings. */
  lemma CleanRecordRow(key: string, name: string, description: string, unit: string, source: string)
    requires '\n' !in name && '\n' !in description && '\n' !in unit && '\n' !in source
    ensures IndicatorRowOf(key, Record(Str(name), Str(description), Str(unit), Str(source))) ==
            Success(IndicatorRow(key, name, description, unit, source))
  {
    StripNewlinesKeepsCleanText(name);
    StripNewlinesKeepsCleanText(description);
    StripNewlinesKeepsCleanText(unit);
    StripNewlinesKeepsCleanText(source);
  }

  /** A reply with one non-empty key gives that key's row. */
  lemma {:induction false} OneEntryTable(e: Entries, row: IndicatorRow)
    requires |e| == 1 && e[0].0 != "" && IndicatorRowOf(e[0].0, e[0].1) == Success(row)
    ensures IndicatorRowsOf(e) == Success([row])
  {
    assert e[..0] == [];
    assert IndicatorRowsOf(e[..0]) == Success([]);
    assert [] + [row] == [row];
  }

  /** A reply with two non-empty keys gives the two rows, in key order. */
  lemma {:induction false} TwoEntryTable(e: Entries, first: IndicatorRow, second: IndicatorRow)
    requires |e| == 2 && e[0].0 != "" && e[1].0 != ""
    requires IndicatorRowOf(e[0].0, e[0].1) == Success(first)
    requires IndicatorRowOf(e[1].0, e[1].1) == Success(second)
    ensures IndicatorRowsOf(e) == Success([first, second])
  {
    var pre := e[..1];
    assert pre[0] == e[0];
    OneEntryTable(pre, first);
    assert [first] + [second] == [first, second];
  }

  lemma SampleFirstRow(e: Entries)
    requires e == SampleReply()
    ensures IndicatorRowOf(e[0].0, e[0].1) == Success(SampleTable()[0])
  {
    CleanRecordRow("NGDP_RPCH", "Real GDP growth", "Constant prices", "Percent", "WEO");
  }

  lemma SampleSecondRow(e: Entries)
    requires e == SampleReply()
    ensures IndicatorRowOf(e[1].0, e[1].1) == Success(SampleTable()[1])
  {
    CleanRecordRow("NGDPD", "GDP", "Current prices", "Billions", "WEO");
  }

  /** `SampleTable()` is the table the builder makes from `SampleReply()`. */
  lemma SampleTableIsBuilt(e: Entries)
    requires e == SampleReply()
    ensures IndicatorRowsOf(e) == Success(SampleTable())
  {
    var t := SampleTable();
    SampleFirstRow(e);
    SampleSecondRow(e);
    TwoEntryTable(e, t[0], t[1]);
  }

  /** Whenever the reply is not empty, the rebuild path's answer does not
      depend on the name the caller asked for: the `for` loop has replaced
      it by the last key of the reply. */
  lemma RebuildIgnoresCallerArgument(rows: seq<IndicatorRow>, entries: Entries, asked: Option<string>, other: Option<string>, get: Mode)
    requires |entries| > 0
    ensures MissIndicatorAnswer(rows, LoopVariable(entries, asked), get) ==
            MissIndicatorAnswer(rows, LoopVariable(entries, other), get)
  {
  }

  /** `get_indicators('Real GDP growth', 'id')` returns `'NGDP_RPCH'` from
      the persisted table, but raises right after a rebuild from the same
      reply: it then looks up the name `'NGDPD'`, the last key. */
  lemma RebuildLosesCallerName()
    ensures IndicatorAnswer(SampleTable(), Some("Real GDP growth"), GetId) == Success(Id("NGDP_RPCH"))
    ensures MissIndicatorAnswer(SampleTable(), LoopVariable(SampleReply(), Some("Real GDP growth")), GetId) ==
            Failure(NoMatch("NGDPD"))
  {
    var rows := SampleTable();
    var r := IndicatorAnswer(rows, Some("Real GDP growth"), GetId);
    assert rows[0].name == "Real GDP growth";
    var k :| IsFirstMatch(rows, IndicatorName, "Real GDP growth", k) && rows[k].id == r.value.id;
    assert k == 0;
  }

  /** `get_indicators('NGDP_RPCH', 'unit')`, the call `get_data` makes,
      returns `'Percent'` from the persisted table; the rebuild path matches
      the id against the name column and raises, even with the caller's
      argument in hand. */
  lemma RebuildMatchesUnitAgainstNames()
    ensures IndicatorAnswer(SampleTable(), Some("NGDP_RPCH"), GetUnit) == Success(Unit("Percent"))
    ensures MissIndicatorAnswer(SampleTable(), Some("NGDP_RPCH"), GetUnit) == Failure(NoMatch("NGDP_RPCH"))
  {
    var rows := SampleTable();
    var r := IndicatorAnswer(rows, Some("NGDP_RPCH"), GetUnit);
    assert rows[0].id == "NGDP_RPCH";
    var k :| IsFirstMatch(rows, IndicatorId, "NGDP_RPCH", k) && rows[k].unit == r.value.unit;
    assert k == 0;
  }
}
