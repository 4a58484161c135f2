# Near-Earth-object query pipeline, modelled in Dafny

This project models the core of a small Python pipeline over near-Earth objects (NEOs) and their close approaches to Earth. The pipeline has five stages:

1. **Load.** Two loaders read the NEO catalogue rows and the close-approach document.
2. **Link.** A database links every approach to the first NEO with its designation. It caches designation hits and indexes NEOs by name.
3. **Filter.** A factory turns user criteria into attribute filters.
4. **Query and limit.** A query yields the approaches every filter accepts, and a limiter truncates that stream.
5. **Write.** Two writers emit the results as CSV or as JSON.

The model follows the arena style:

- NEOs and approaches are two sequences.
- A link is an index into the other sequence (`Approach.neo: Option<nat>`, `Neo.approaches: seq<nat>`).
- The query yields approach positions.
- A Python generator that may raise is modelled as a `Run(items, raised)`: the items it produced, then the exception that ended it, if any.

Files and modules:

- `outcomes.dfy` (`Outcomes`): `Option`, `Result` and `Run`.
- `models.dfy` (`Models`): the NEO and approach records, the exceptions, and name truthiness.
- `filters.dfy` (`Filters`): the filter kinds, `all(...)` over filters, `create_filters` and `limit`.
- `database.dfy` (`Database`): the constructor's linking loop, the designation cache, the name index and the two lookups.
- `query.dfy` (`QueryEngine`): the `query` generator and its algebra.
- `extract.dfy` (`Extract`): `load_neos` and `load_approaches` over in-memory rows.
- `write.dfy` (`Write`): `write_to_csv` and `write_to_json` over the values handed to the CSV and JSON encoders, with readers that invert them.

### Behaviour worth knowing

- **Unlinked approaches under neo-dependent filters.** A diameter or hazardous filter applied to an unlinked approach reads `approach.neo.diameter` on `None`. Python raises AttributeError, so the query ends with that exception instead of skipping the approach. `QueryEngine.QueryRaisesOnUnlinked` and `QueryEngine.SampleHazardousQuery` exhibit this.
- **Zero bounds.** `create_filters` tests numeric criteria for truthiness, so a bound of exactly zero creates no filter. Date criteria are always present-and-true, and `hazardous` is tested with `is not None`.
- **NEOs without approaches.** Both indices are filled only while linking approaches. A NEO that no approach refers to cannot be found by designation or by name, and neither can a later NEO that repeats an earlier designation.
- **Zero diameters in CSV.** The CSV writer writes the diameter through a truthiness test, so a diameter of `0.0` becomes the text `nan`, just like an unknown diameter.

## Model

| member | source | states |
|---|---|---|
| Filters.Eval | filters.py:66-68 | calling a filter raises (AttributeError on `None`) exactly when it is a diameter or hazardous filter and the approach is unlinked |
| Filters.EvalSemantics | filters.py:87-129 | each kind compares its own attribute (date, distance, velocity, NEO diameter, NEO hazard flag) as the left operand against the reference value; an unknown diameter satisfies no comparison |
| Filters.EvalReadsOneAttribute | filters.py:87-129 | two approaches that agree on the one attribute a filter reads are judged alike |
| Filters.AllHold | database.py:133 | the conjunction is true exactly when every filter returns true, and cannot raise when no filter raises |
| Filters.AllHoldShortCircuits | database.py:133 | `all` stops at the first filter that is not true; its false result or its exception is the result of the whole |
| Filters.SlotRequested | filters.py:176-196 | each of the ten steps makes the filter of its own rank, and its test passes exactly when that filter is requested by the criteria |
| Filters.Steps | filters.py:173-196 | after the first k steps the list is in strict rank order, holds exactly the filters of passing tests, and has one entry per passing test |
| Filters.CreateFilters | filters.py:131-198 | the factory returns exactly the requested filters (zero numeric bounds excluded), each once, in the fixed factory order; its length is the number of active criteria |
| Filters.LimitRun | filters.py:200-214 | no limit (None, zero or negative) leaves the stream unchanged; otherwise the first n items survive and an exception surfaces only if it came before the n-th item |
| Database.ScanNeos | database.py:62-67 | the linear scan returns the first NEO with the designation, or none |
| Database.Resolve | database.py:58-67 | the cached lookup returns the same NEO as a fresh scan, and the cache stays exactly the set of designations seen with a hit |
| Database.RecordNameStep | database.py:73-77 | recording a linked NEO's name keeps the name index equal to "every non-empty name maps to the NEO of its first approach" |
| Database.LinkAll | database.py:54-77 | after the loop every approach is linked to the first NEO with its designation, every NEO lists exactly its approaches in order, and both indices hold their invariants |
| Database.Build | database.py:26-77 | the constructor yields a valid database that changes nothing but the links |
| Database.GetNeoByDesignation | database.py:79-94 | a hit exactly for designations some approach carried and linked, and the hit is the first NEO with that designation |
| Database.GetNeoByName | database.py:96-112 | a hit exactly for names of linked NEOs, and the hit is the NEO of the first such approach; the empty name never hits |
| Database.DesignationHitHasApproaches | database.py:58-72 | a NEO found by designation has at least one approach |
| Database.NameHitHasApproaches | database.py:73-77 | a NEO found by name has at least one approach |
| Database.LinksAgree | database.py:68-72 | an approach points to a NEO exactly when that NEO lists the approach |
| Database.UnlinkedMeansNoMatch | database.py:58-69 | an approach stays unlinked exactly when no NEO carries its designation |
| Database.DuplicateDesignationUnlinked | database.py:62-67 | the first NEO with a designation wins; a later duplicate gets no approaches and is never found by designation |
| QueryEngine.Sweep | database.py:131-134 | the generator yields, in increasing order, only accepted positions before the first check that raises, and misses none of them; it then stops with that exception |
| QueryEngine.Query | database.py:114-134 | the query yields, in storage order, exactly the approaches every filter accepts up to the first approach whose check raises, then raises that exception |
| QueryEngine.QueryUnfiltered | database.py:114-134 | with no filters every approach is yielded, in storage order, and nothing is raised |
| QueryEngine.QueryPermutation | database.py:133 | permuting filters that cannot raise does not change the query's output |
| QueryEngine.QueryConjunction | database.py:133 | for two filter lists that cannot raise on any stored approach, querying with both at once keeps exactly the approaches both separate queries keep |
| QueryEngine.QueryRaisesOnUnlinked | filters.py:115-129 | a diameter or hazardous filter makes the query raise if any stored approach is unlinked |
| QueryEngine.SampleDatabaseValid | database.py:54-77 | the two-NEO sample satisfies every invariant linking establishes: first-match links, per-NEO approach lists, the designation cache and the name index |
| QueryEngine.SampleHazardousQuery | database.py:114-134 | on a two-NEO sample, a hazardous filter yields the linked approach and then raises at the unlinked one; a limit of one hides the exception |
| Extract.NeoFromRow | extract.py:33-42 | one row loads exactly when the four keys are present and a non-blank diameter parses; designation and name are copied verbatim, a blank diameter is unknown, hazardous means exactly `pha == "Y"`; a missing key or bad number is raised in reading order |
| Extract.LoadRows | extract.py:31-44 | a loader's loop yields one record per row in order, or the error of the first failing row |
| Extract.LoadNeos | extract.py:20-44 | loading fails exactly when some catalogue row fails, with the error of the first such row; otherwise one unlinked NEO per row, in row order |
| Extract.NeoRowRoundTrip | extract.py:35-42 | loading the row written for an unlinked named NEO gives the NEO back |
| Extract.BlankCells | extract.py:37-40 | a blank `pha` cell means not hazardous and a blank diameter cell means unknown |
| Extract.IndexOf | extract.py:61-64 | `fields.index` finds the first occurrence, and fails exactly when the name is absent |
| Extract.ResolveColumns | extract.py:60-64 | the four columns resolve exactly when all four names are in the manifest, to their first occurrences; otherwise the first missing name, in the order cd, dist, v_rel, des, is raised |
| Extract.ApproachFromRow | extract.py:66-71 | a row too short for a resolved column raises IndexError; otherwise the approach carries the designation cell and the converted time, distance and velocity, unlinked |
| Extract.LoadApproaches | extract.py:46-73 | loading succeeds exactly when the document has `fields`, the four columns resolve, it has `data` and every data row loads; otherwise the first of these to fail gives the error (KeyError `fields`, the missing column, KeyError `data`, the first bad row's error); on success one unlinked approach per data row, in row order, each built from the resolved columns |
| Extract.ColumnOrderIrrelevant | extract.py:60-73 | two documents with the same cells under the four names load to the same approaches, whatever the column order and extra columns |
| Extract.CadRoundTrip | extract.py:46-73 | loading the document written for unlinked approaches gives them back |
| Write.CsvRowRoundTrip | write.py:44-50 | a written row reads back as the approach's record (time text, distance, velocity, designation, name or blank, diameter, hazard flag), except that a zero diameter reads back as unknown |
| Write.WriteCsv | write.py:18-52 | the header row `datetime_utc`, `distance_au`, `velocity_km_s`, `designation`, `name`, `diameter_km`, `potentially_hazardous`, then one row per result in stream order; reaching an unlinked approach stops the file there and raises, otherwise the stream's own exception is passed on |
| Write.CsvCompleteWhenLinked | write.py:42-52 | when every result is linked and no result's NEO has a zero diameter, the file has one row per result and each reads back as its record |
| Write.JsonEntryRoundTrip | write.py:72-78 | an entry, with its nested neo object, reads back by key as exactly the approach's record |
| Write.WriteJson | write.py:54-83 | the intended writer produces one entry per result, and nothing when a result is unlinked or the stream raises |
| Write.WriteJsonRoundTrip | write.py:54-83 | the written array reads back as the records of the results, in stream order |
| Write.WriteJsonAsWritten | write.py:69-80 | the writer as written fails on every non-empty stream and writes `[]` for an empty one |
| Write.JsonWriterAsWrittenFails | write.py:75 | for a single linked result the intended writer gives a one-entry array while the writer as written raises |

## Left out

- File handling: `open`, `csv.DictReader`/`DictWriter`, `json.load`/`json.dump` and the scoped file handles. Rows are in-memory maps and sequences, and output is the value handed to the encoder.
- `models.py` is not part of this model. The conversions its constructors perform (text to float, text to instant, the `time_str` rendering) are function parameters. A conversion that returns `None` stands for the exception it raises. For approaches, the conversions are assumed to run in the order time, distance, velocity. The NEO and approach constructors are taken to store the designation and the name as given, with no turning of a blank name into `None`; every consumer of a name goes through its truthiness (`HasName`, `NameText`), so a blank name behaves like a missing one either way.
- Floating point: numbers are reals, and NaN is an explicit `None` diameter that no comparison accepts. Parsing the text `nan` and the text rendering of floats are left out.
- Short catalogue rows: `csv.DictReader` fills missing cells with `None`. The model gives every row a cell for each header key.
- The base `AttributeFilter.get` and `UnsupportedCriterionError`: the model's filter kinds are a closed datatype, so the base class cannot be instantiated.
- `__repr__` of filters, and the object identity of NEOs and approaches. Links are positions, and a NEO's approach list is a value.
- The truthiness of a NEO object in `if neo:`: NEO objects are taken to be always true.
- JSON key order: `Write.JsonEntry` builds each object with its keys in the order of write.py, but the readers look members up by key, so the round-trip lemmas do not by themselves rule out another key order or extra keys.
- Laziness: a generator is modelled by what it delivers before stopping, not by when each item is computed.
- The command-line front end, the quote and meme engines, and the meme script: they are outside the query pipeline.

## Findings

| source | as written | input that shows it | evidently intended | confidence | as-written member | corrected member |
|---|---|---|---|---|---|---|
| write.py:75 | The loop reads `.neo` from the plain dict being filled, which raises AttributeError before anything is written. It also assigns into a `'neo'` key that was never created, and it reuses one dict for all entries (lines 69, 80). | a result stream holding one linked approach | a fresh entry per approach whose nested `neo` object is read from the approach's NEO, dumped once the stream is consumed | high; not executed | Write.WriteJsonAsWritten | Write.WriteJson |
