# IMF Data Explorer data layer, in Dafny

IMF Data Explorer is a small dashboard over the IMF DataMapper API. Its data layer lives in `utilities/tools.py` and does four things:

- Four reference loaders (`get_indicators`, `get_countries`, `get_groups`, `get_regions`) keep a CSV copy of each reference list. The copy is reused while it is less than five days old. Otherwise the loader fetches the list, rebuilds the table from the JSON reply and overwrites the copy.
- The loaders turn a name into its id (or, for indicators, an id into its unit) with an exact-match filter.
- `get_data` resolves the requested names and builds the series request path from the ids.
- `get_data` then flattens the nested `values` object of the reply into a five-column table.

This project models that layer and proves properties of the model:

- `Text` holds the string operations: line-feed removal, `'/'.join`, and the path reading that undoes the join.
- `FileAge` holds `file_age_in_days` and the freshness test.
- `ReferenceTables` holds the table builders. They are loops over the reply's keys that append to column lists. Each is proved equal to a specification function, and lemmas state which keys become rows, in which order and with which contents.
- `Lookup` answers a call once the table is at hand. It covers the cache-hit path and, as written, the rebuild path.
- `ReferenceCache` holds the loaders. The persisted CSV is an object whose fields an overwrite updates, and the clock reading and the endpoint's reply are parameters.
- `Series` covers `get_data`. It has name resolution, URL composition, and the nested flattening loops, which are proved against a row-level specification.
- `Findings` holds two defects of the rebuild path, each exhibited on a concrete reply.

JSON objects are modelled as key-ordered sequences of pairs, as Python dicts iterate them. A JSON property is `Absent` (indexing raises `KeyError`), `Null`, or a string. Exceptions become `Failure` values of a `Result`. Series values are opaque (type parameter `V`).

On a non-200 reply the reference loaders raise (utilities/tools.py:101, 161, 221, 281), and the model returns `RemoteStatus` for them. `get_data` has no `else` branch for a non-200 reply from the series endpoint, so it falls off the end and returns `None` (utilities/tools.py:303-326); `Series.GetData` returns `NoResult` there. The loaders read and write their CSV copies (utilities/tools.py:54-55, 89), and the model keeps that state in `ReferenceCache.CsvFile`.

## Model

| member | source | states |
|---|---|---|
| Text.StripNewlines | utilities/tools.py:83-86 | the result is the input with every line feed removed and every other character kept, in order (`Base.Filter` of the input); in particular it has no line feed and is no longer than the input |
| Text.StripNewlinesKeepsCleanText | utilities/tools.py:83-86 | a string without line feeds is unchanged, so cleaning twice is cleaning once |
| Text.SplitJoinPath | utilities/tools.py:285 | splitting a `'/'.join` of one or more slash-free ids on `/` gives back exactly those ids, in order |
| Text.JoinPathAppend | utilities/tools.py:289-290 | joining two non-empty id lists is joining each and putting one `/` between them |
| FileAge.AgeInDays | utilities/tools.py:22-26 | the day count is elapsed seconds truncated toward zero: for a past creation time it is the largest whole number of days not exceeding the elapsed time, and for a future one the mirror image |
| FileAge.FreshIffUnderFiveDays | utilities/tools.py:54 | an existing file created in the past is reused exactly when fewer than 5 × 86400 seconds have elapsed |
| FileAge.StaleStaysStale | utilities/tools.py:54 | once the copy is too old to reuse, it stays too old at every later time |
| FileAge.ExistenceDecides | utilities/tools.py:54 | a missing file is never reused, and a file written now is reused now |
| ReferenceTables.FieldText | utilities/tools.py:83-86 | a property yields text exactly when it is present; a missing one fails with `KeyError` on its name; the text has no line feed |
| ReferenceTables.IndicatorRowOf | utilities/tools.py:82-86 | a row is made exactly when label, description, unit and source are all present; its id is the key and no text field has a line feed |
| ReferenceTables.IndicatorTableShape | utilities/tools.py:79-88 | the table is built exactly when every non-empty key's record is complete; it then has one row per non-empty key, in key order, and row k is made from the k-th such key |
| ReferenceTables.IndicatorTableClean | utilities/tools.py:82-86 | every stored row has a non-empty id that is a key of the reply, and no name, description, unit or source contains a line feed |
| ReferenceTables.PlaceTableShape | utilities/tools.py:145-152 | the table is built exactly when no non-empty key lacks a label; it then has one row per key that is non-empty with a non-null label, in key order, named by that label without line feeds |
| ReferenceTables.PlaceTableClean | utilities/tools.py:148-150 | every country, group or region row has a non-empty id that is a key of the reply and a name without line feeds |
| ReferenceTables.IndicatorFailureSticks | utilities/tools.py:79-86 | once a prefix of the reply fails to build, the whole reply fails with the same error, so the first record that lacks a property aborts the build |
| ReferenceTables.PlaceFailureSticks | utilities/tools.py:145-150 | once a prefix of the reply fails to build, the whole reply fails with the same error, so the first non-empty key without a label aborts the build |
| ReferenceTables.BuildIndicatorTable | utilities/tools.py:72-88 | the append loop over column lists, reading label, description, unit and source in that order, builds exactly the specified indicator table, and leaves its loop variable holding the last key (or the caller's argument for an empty reply) |
| ReferenceTables.BuildPlaceTable | utilities/tools.py:141-152 | the append loop builds exactly the specified country, group or region table, with the same loop-variable outcome |
| Lookup.FirstWhere | utilities/tools.py:58 | the position returned is the first row whose column equals the query; none is returned only when no row matches |
| Lookup.Select | utilities/tools.py:58 | the selection succeeds exactly when some row matches character for character, returns the picked column of the first match, and otherwise fails with `IndexError` on the query |
| Lookup.IndicatorAnswer | utilities/tools.py:56-64 | with a name and `'id'`, the id of the first row with that exact name; with an id and `'unit'`, the unit of the first row with that exact id; otherwise the table; a miss is an error, not a default |
| Lookup.MissIndicatorAnswer | utilities/tools.py:91-99 | right after a rebuild, `'id'` and `'unit'` both look the bound name up in the name column; no argument or another `get` gives the table |
| Lookup.PlaceAnswer | utilities/tools.py:129-133 | with a name and `'id'`, the id of the first row with that exact name, an error when none matches; any other `get` gives the table |
| Lookup.ResolutionIsExact | utilities/tools.py:58 | a name that differs from every stored name, case included, does not resolve |
| ReferenceCache.CsvFile.Overwrite | utilities/tools.py:89 | after `to_csv` the file exists, holds the new table and dates from now |
| ReferenceCache.GetIndicators | utilities/tools.py:54-101 | the endpoint is called exactly when the copy is not fresh; a fresh copy is answered by the cache-hit rule without change; a non-200 status, a missing `indicators` key or an incomplete record fails and leaves the file as it was; otherwise the file is overwritten with the rebuilt table, which answers by the rebuild rule with the loop variable |
| ReferenceCache.GetPlaces | utilities/tools.py:127-161 | the same decision for countries, groups and regions, with the top-level key named after the endpoint and the place answer rule |
| ReferenceCache.LoadIndicatorsTwice | utilities/tools.py:54-89 | when a load had to fetch and the reply built a table, no load less than five days later fetches, whether or not the first load's lookup succeeded |
| Series.ResolveAll | utilities/tools.py:284 | the ids are resolved exactly when every name resolves; they are then the names' ids, position by position; otherwise the error is that of the first name that does not resolve |
| Series.LookupsAreLoaderAnswers | utilities/tools.py:284-325 | the id and unit lookups `get_data` uses succeed exactly when `Lookup.IndicatorAnswer` does for the same name and `get`, and give its id, unit or error |
| Series.RequestUrlJoinsAllIds | utilities/tools.py:284-298 | with at least one indicator, the URL is the base URL followed by every id joined by `/`, indicators first, then countries, groups and regions; an empty country, group or region list adds nothing |
| Series.RequestUrlWithoutIndicators | utilities/tools.py:284-298 | with no indicator, the path after the base URL opens with `/` when a country list is given (an empty first segment, `.../v1//IND`), and with no ids at all the URL is the bare base URL |
| Series.RequestPathRoundTrip | utilities/tools.py:285-298 | reading the path after the base URL segment by segment gives back exactly the ids, in that order |
| Series.FlattenRowCount | utilities/tools.py:312-325 | the table has one row per (indicator, country, year) leaf of the reply |
| Series.FlattenFailsIff | utilities/tools.py:325 | flattening fails exactly when an indicator with at least one country has no unit |
| Series.FlattenMembership | utilities/tools.py:314-325 | a row is in the table exactly when it is the line of some leaf: the enclosing country and indicator keys, year and value from the same entry, and the unit of that indicator |
| Series.FlattenAppend | utilities/tools.py:314-318 | the rows follow key order: flattening a reply split in two is flattening each part and concatenating, and a failure in either part (the first part's first) is the failure of the whole |
| Series.FrameOf | utilities/tools.py:326 | the table's five column lists have equal length, one entry per row |
| Series.ExtendByIndicator | utilities/tools.py:318-325 | the inner loop extends the columns by exactly the rows of one indicator's countries, and fails exactly when there is a country and the unit lookup fails |
| Series.Flatten | utilities/tools.py:312-325 | the nested `extend` loops succeed exactly when the row specification does, and then produce aligned column lists equal to its rows |
| Series.GetData | utilities/tools.py:283-326 | an unresolvable name fails; a non-200 reply gives `None`; a reply without `values` gives the "Nothing to show" sentinel; otherwise the aligned columns of the flattened rows, or the unit lookup's error |
| Series.TwoYearExample | utilities/tools.py:314-325 | one indicator with one country and years 2020 and 2021 gives two rows, in year order, both carrying the indicator's unit |
| Findings.SampleTableIsBuilt | utilities/tools.py:79-88 | the two-indicator sample reply builds the two-row sample table, in key order |
| Findings.RebuildIgnoresCallerArgument | utilities/tools.py:79-97 | for any non-empty reply, the answer after a rebuild is the same whatever name the caller asked for |
| Findings.RebuildLosesCallerName | utilities/tools.py:91-94 | the same table answers `'Real GDP growth'`/`'id'` with `NGDP_RPCH` from the copy, but fails on the last key right after a rebuild |
| Findings.RebuildMatchesUnitAgainstNames | utilities/tools.py:95-97 | the same table answers `'NGDP_RPCH'`/`'unit'` with `Percent` from the copy, but fails when the rebuild path matches the id against the names |

## Left out

- HTTP (`requests.get`) is left out. A reply is a parameter that is either a decoded body or a non-200 status.
- The file system is left out. `os.path.isfile`, `os.path.getctime` and `time.time` become the `isFile` and `createdAt` fields of `CsvFile` and a `now` parameter. The file's time is the one a write sets, as on POSIX systems.
- ReferenceCache.CsvFile.Overwrite sets the file's time to the time of the write, which is POSIX `ctime` behaviour (a write updates the change time). On Windows `getctime` is the creation time, and `to_csv` rewrites an existing file without changing it. There, once a copy is five days old every load fetches again, and ReferenceCache.LoadIndicatorsTwice does not hold.
- The pandas CSV round trip is left out. `to_csv` followed by `read_csv` is taken to give the same table back. In fact pandas reads the string `'None'` back as a missing value and may coerce numeric-looking ids.
- `.dropna()` is left out because every cell the builders write is a string, so it removes nothing.
- `FileAge.AgeInDays` works on whole seconds. The source divides floating-point seconds, so fractions of a second are not modelled.
- Non-string JSON values (numbers, booleans, nested objects) under `label`, `description`, `unit` or `source` are not modelled. A property is missing, `null` or a string.
- A plain string passed to `get_data` as a country, group or region list is not modelled. The comprehension would iterate it character by character. The model takes sequences of names, and an empty sequence stands for `None`.
- Series.GetData resolves names and units against the reference tables in force, using the cache-hit rule. Inside `get_data`, each resolution is a full loader call that may itself refresh a stale copy and answer by the rebuild rule. That interleaving is not modelled.
- Streamlit's `@cache_data` memoization (utilities/tools.py:28, 103, 163, 223) is left out because it is framework caching.
- The user interface in `app.py` is not part of this model.
- The commented-out earlier `get_data` (utilities/tools.py:330-370) is left out because it is dead code.

## Findings

| source | as written | input that shows it | evidently intended | confidence | as-written member | corrected member |
|---|---|---|---|---|---|---|
| utilities/tools.py:79-94 | the `for` loop rebinds the `indicator` parameter (likewise `country`, `group`, `region` at lines 145, 206, 266), so after a rebuild the lookup uses the reply's last key, not the caller's name | `get_indicators('Real GDP growth', 'id')` with a stale copy and the reply `{NGDP_RPCH: Real GDP growth, NGDPD: GDP}` looks up `'NGDPD'` and raises `IndexError` | the caller's name is looked up, giving `'NGDP_RPCH'` as the cache-hit path does | not executed | Lookup.MissIndicatorAnswer (shown by Findings.RebuildLosesCallerName, Findings.RebuildIgnoresCallerArgument) | Lookup.IndicatorAnswer |
| utilities/tools.py:95-97 | after a rebuild, the `'unit'` lookup matches the argument against `indicator_name`, while the cache-hit path (line 61) and `get_data` (line 325) pass an id | `get_indicators('NGDP_RPCH', 'unit')` right after a rebuild from the same reply raises `IndexError` (even with the caller's argument kept) | the argument is matched against `indicator_id`, giving `'Percent'`. The docstring (line 36) calls the argument a name, so this reading rests on the cache-hit path and on the only caller, which passes an id | not executed | Lookup.MissIndicatorAnswer (shown by Findings.RebuildMatchesUnitAgainstNames) | Lookup.IndicatorAnswer, which Series.UnitLookup agrees with (Series.LookupsAreLoaderAnswers) |
