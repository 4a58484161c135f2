/** The two result writers: a CSV table with a fixed header, and a JSON array
    with one object per close approach. Both consume a result stream of
    approach positions, as the limiter delivers it.

    Rendering numbers as text and opening files are left out: a CSV row is the
    sequence of cell values handed to the CSV writer, and a JSON document is
    the value handed to the JSON encoder. */
module Write {
  import opened Outcomes
  import opened Models

  /** What the writers say about one close approach and its NEO, as a reader
      of the output recovers it. `diameter` is `None` for not-a-number. */
  datatype Record = Record(
    datetime: string,
    distance: real,
    velocity: real,
    designation: string,
    name: string,
    diameter: Option<real>,
    hazardous: bool)

  /** The record the output should carry for a linked approach: its time text,
      distance and velocity, and its NEO's designation, name (blank when it has
      none), diameter and hazard flag. */
  function RecordOf(neos: seq<Neo>, a: Approach, timeStr: Time -> string): Record
    requires a.neo.Some? && a.neo.value < |neos|
  {
    var n := neos[a.neo.value];
    Record(timeStr(a.time), a.distance, a.velocity, n.designation, NameText(n), n.diameter, n.hazardous)
  }

  /** The records of a stream of linked results, in stream order. */
  function RecordsOf(neos: seq<Neo>, approaches: seq<Approach>, ids: seq<nat>, timeStr: Time -> string): (rs: seq<Record>)
    requires LinksInRange(neos, approaches) && InRange(approaches, ids)
    requires forall j :: 0 <= j < |ids| ==> approaches[ids[j]].neo.Some?
  {
    seq(|ids|, j requires 0 <= j < |ids| => RecordOf(neos, approaches[ids[j]], timeStr))
  }

  /** How far a writer gets through `ids`: the position of the first unlinked
      approach, where reading `approach.neo.designation` raises, or the end. */
  function Reached(approaches: seq<Approach>, ids: seq<nat>, from: nat): (k: nat)
    requires from <= |ids|
    requires forall j :: 0 <= j < |ids| ==> ids[j] < |approaches|
    ensures from <= k <= |ids|
    ensures forall j :: from <= j < k ==> approaches[ids[j]].neo.Some?
    ensures k < |ids| ==> approaches[ids[k]].neo.None?
    decreases |ids| - from
  {
    if from == |ids| || approaches[ids[from]].neo.None? then from
    else Reached(approaches, ids, from + 1)
  }

  /** Every position of the stream refers to a stored approach. */
  predicate InRange(approaches: seq<Approach>, ids: seq<nat>) {
    forall j :: 0 <= j < |ids| ==> ids[j] < |approaches|
  }

  // ---------------------------------------------------------------------------
  // write_to_csv
  // ---------------------------------------------------------------------------

  /** A value handed to the CSV writer: text, a number, or the float NaN. */
  datatype Cell = Text(text: string) | Number(x: real) | NotANumber

  /** The column names, in output order. */
  const CsvHeader: seq<string> := [
    "datetime_utc", "distance_au", "velocity_km_s",
    "designation", "name", "diameter_km", "potentially_hazardous"]

  /** The header row `writeheader` writes. */
  const HeaderRow: seq<Cell> := seq(|CsvHeader|, k requires 0 <= k < |CsvHeader| => Text(CsvHeader[k]))

  /** The diameter cell: `neo.diameter if neo.diameter else 'nan'`. A zero
      diameter is false in Python, so it becomes the text `nan`; an unknown
      diameter (NaN) is true and is handed over as the float itself. */
  function DiameterCell(diameter: Option<real>): Cell {
    match diameter
    case None => NotANumber
    case Some(d) => if d == 0.0 then Text("nan") else Number(d)
  }

  /** The row written for one linked approach, in header order. */
  function CsvRow(neos: seq<Neo>, a: Approach, timeStr: Time -> string): (r: seq<Cell>)
    requires a.neo.Some? && a.neo.value < |neos|
    ensures |r| == |CsvHeader|
  {
    var n := neos[a.neo.value];
    [ Text(timeStr(a.time)), Number(a.distance), Number(a.velocity),
      Text(n.designation), Text(NameText(n)), DiameterCell(n.diameter),
      Text(if n.hazardous then "True" else "False") ]
  }

  /** Reads a diameter cell back: `nan`, as text or as the float, is unknown. */
  function ReadDiameter(c: Cell): Option<Option<real>> {
    match c
    case Number(x) => Some(Some(x))
    case NotANumber => Some(None)
    case Text(t) => if t == "nan" then Some(None) else None
  }

  /** Reads a data row back into a record, or `None` when it is not shaped
      like one the writer produces. */
  function ReadCsvRow(row: seq<Cell>): Option<Record> {
    if |row| != |CsvHeader| then None
    else if !(row[0].Text? && row[1].Number? && row[2].Number? && row[3].Text? && row[4].Text? && row[6].Text?) then None
    else if ReadDiameter(row[5]).None? || row[6].text !in {"True", "False"} then None
    else Some(Record(row[0].text, row[1].x, row[2].x, row[3].text, row[4].text,
                     ReadDiameter(row[5]).value, row[6].text == "True"))
  }

  /** Reading a written row back recovers the record, except that a zero
      diameter comes back as unknown. */
  lemma CsvRowRoundTrip(neos: seq<Neo>, a: Approach, timeStr: Time -> string)
    requires a.neo.Some? && a.neo.value < |neos|
    ensures neos[a.neo.value].diameter != Some(0.0) ==>
      ReadCsvRow(CsvRow(neos, a, timeStr)) == Some(RecordOf(neos, a, timeStr))
    ensures neos[a.neo.value].diameter == Some(0.0) ==>
      ReadCsvRow(CsvRow(neos, a, timeStr)) == Some(RecordOf(neos, a, timeStr).(diameter := None))
  {
  }

  /** `write_to_csv`: writes the header, then one row per result in stream
      order. Reaching an unlinked approach raises and ends the file after the
      rows already written; otherwise an exception of the stream itself ends
      it after every row. */
  method WriteCsv(neos: seq<Neo>, approaches: seq<Approach>, results: Run<nat, Fault>, timeStr: Time -> string)
    returns (out: Run<seq<Cell>, Fault>)
    requires LinksInRange(neos, approaches) && InRange(approaches, results.items)
    ensures |out.items| == 1 + Reached(approaches, results.items, 0)
    ensures out.items[0] == [
      Text("datetime_utc"), Text("distance_au"), Text("velocity_km_s"),
      Text("designation"), Text("name"), Text("diameter_km"), Text("potentially_hazardous")]
    ensures forall j :: 0 <= j < |out.items| - 1 ==>
      && approaches[results.items[j]].neo.Some?
      && out.items[j + 1] == CsvRow(neos, approaches[results.items[j]], timeStr)
    ensures out.raised ==
      if Reached(approaches, results.items, 0) < |results.items| then Some(NeoIsNone) else results.raised
  {
    var ids := results.items;
    var rows := [HeaderRow];
    var j := 0;
    while j < |ids|
      invariant 0 <= j <= |ids| && j <= Reached(approaches, ids, 0)
      invariant |rows| == 1 + j && rows[0] == HeaderRow
      invariant forall m :: 0 <= m < j ==>
        approaches[ids[m]].neo.Some? && rows[m + 1] == CsvRow(neos, approaches[ids[m]], timeStr)
    {
      var a := approaches[ids[j]];
      if a.neo.None? {
        return Run(rows, Some(NeoIsNone));
      }
      rows := rows + [CsvRow(neos, a, timeStr)];
      j := j + 1;
    }
    return Run(rows, results.raised);
  }

  /** When every result is linked, the file holds the header and one row per
      result, and each row reads back as its approach's record (zero
      diameters aside). */
  lemma CsvCompleteWhenLinked(
    neos: seq<Neo>, approaches: seq<Approach>, results: Run<nat, Fault>, timeStr: Time -> string,
    rows: seq<seq<Cell>>)
    requires LinksInRange(neos, approaches) && InRange(approaches, results.items)
    requires forall j :: 0 <= j < |results.items| ==> approaches[results.items[j]].neo.Some?
    requires |rows| == 1 + Reached(approaches, results.items, 0)
    requires forall j :: 0 <= j < |rows| - 1 ==>
      rows[j + 1] == CsvRow(neos, approaches[results.items[j]], timeStr)
    requires forall j :: 0 <= j < |results.items| ==>
      neos[approaches[results.items[j]].neo.value].diameter != Some(0.0)
    ensures |rows| == 1 + |results.items|
    ensures forall j :: 0 <= j < |results.items| ==>
      ReadCsvRow(rows[j + 1]) == Some(RecordOf(neos, approaches[results.items[j]], timeStr))
  {
    forall j | 0 <= j < |results.items|
      ensures ReadCsvRow(rows[j + 1]) == Some(RecordOf(neos, approaches[results.items[j]], timeStr))
    {
      CsvRowRoundTrip(neos, approaches[results.items[j]], timeStr);
    }
  }

  // ---------------------------------------------------------------------------
  // write_to_json
  // ---------------------------------------------------------------------------

  /** A value handed to the JSON encoder. Objects keep their keys in
      insertion order. */
  datatype Json =
    | JString(s: string)
    | JNumber(x: real)
    | JNaN
    | JBool(b: bool)
    | JObject(members: seq<(string, Json)>)
    | JArray(elements: seq<Json>)

  /** The value under `key` in an object's members, first occurrence. */
  function Member(members: seq<(string, Json)>, key: string): Option<Json> {
    if |members| == 0 then None
    else if members[0].0 == key then Some(members[0].1)
    else Member(members[1..], key)
  }

  /** The first member with a given key is the one `Member` finds. */
  lemma {:induction false} MemberAt(members: seq<(string, Json)>, key: string, k: nat)
    requires k < |members| && members[k].0 == key
    requires forall j :: 0 <= j < k ==> members[j].0 != key
    ensures Member(members, key) == Some(members[k].1)
  {
    if k > 0 {
      MemberAt(members[1..], key, k - 1);
    }
  }

  /** The nested object describing the NEO of a linked approach. */
  function NeoObject(n: Neo): Json {
    JObject([
      ("designation", JString(n.designation)),
      ("name", JString(NameText(n))),
      ("diameter_km", if n.diameter.Some? then JNumber(n.diameter.value) else JNaN),
      ("potentially_hazardous", JBool(n.hazardous))])
  }

  /** The object written for one linked approach, built fresh for each. */
  function JsonEntry(neos: seq<Neo>, a: Approach, timeStr: Time -> string): Json
    requires a.neo.Some? && a.neo.value < |neos|
  {
    JObject([
      ("datetime_utc", JString(timeStr(a.time))),
      ("distance_au", JNumber(a.distance)),
      ("velocity_km_s", JNumber(a.velocity)),
      ("neo", NeoObject(neos[a.neo.value]))])
  }

  /** Reads a NEO object back as (designation, name, diameter, hazardous). */
  function ReadNeoObject(j: Json): Option<(string, string, Option<real>, bool)> {
    if !j.JObject? then None
    else
      var des, name := Member(j.members, "designation"), Member(j.members, "name");
      var dia, pha := Member(j.members, "diameter_km"), Member(j.members, "potentially_hazardous");
      if des.None? || name.None? || dia.None? || pha.None? then None
      else if !(des.value.JString? && name.value.JString? && pha.value.JBool?) then None
      else if !(dia.value.JNumber? || dia.value.JNaN?) then None
      else Some((des.value.s, name.value.s, if dia.value.JNumber? then Some(dia.value.x) else None, pha.value.b))
  }

  /** Reads one entry of the array back into a record, by key. */
  function ReadJsonEntry(j: Json): Option<Record> {
    if !j.JObject? then None
    else
      var t, d, v := Member(j.members, "datetime_utc"), Member(j.members, "distance_au"), Member(j.members, "velocity_km_s");
      var neo := Member(j.members, "neo");
      if t.None? || d.None? || v.None? || neo.None? then None
      else if !(t.value.JString? && d.value.JNumber? && v.value.JNumber?) then None
      else
        match ReadNeoObject(neo.value)
        case None => None
        case Some((des, name, dia, pha)) => Some(Record(t.value.s, d.value.x, v.value.x, des, name, dia, pha))
  }

  /** Reading an entry back recovers its record exactly; unlike the CSV
      writer, a zero diameter survives. */
  lemma JsonEntryRoundTrip(neos: seq<Neo>, a: Approach, timeStr: Time -> string)
    requires a.neo.Some? && a.neo.value < |neos|
    ensures ReadJsonEntry(JsonEntry(neos, a, timeStr)) == Some(RecordOf(neos, a, timeStr))
  {
    var n := neos[a.neo.value];
    var o := NeoObject(n);
    MemberAt(o.members, "designation", 0);
    MemberAt(o.members, "name", 1);
    MemberAt(o.members, "diameter_km", 2);
    MemberAt(o.members, "potentially_hazardous", 3);
    var e := JsonEntry(neos, a, timeStr);
    MemberAt(e.members, "datetime_utc", 0);
    MemberAt(e.members, "distance_au", 1);
    MemberAt(e.members, "velocity_km_s", 2);
    MemberAt(e.members, "neo", 3);
  }

  /** The entries of the results from position `from` on, all linked. */
  function Entries(neos: seq<Neo>, approaches: seq<Approach>, ids: seq<nat>, from: nat, timeStr: Time -> string): (es: seq<Json>)
    requires LinksInRange(neos, approaches) && InRange(approaches, ids)
    requires from <= |ids|
    requires forall j :: from <= j < |ids| ==> approaches[ids[j]].neo.Some?
    ensures |es| == |ids| - from
    ensures forall j :: 0 <= j < |es| ==> es[j] == JsonEntry(neos, approaches[ids[from + j]], timeStr)
    decreases |ids| - from
  {
    if from == |ids| then []
    else [JsonEntry(neos, approaches[ids[from]], timeStr)] + Entries(neos, approaches, ids, from + 1, timeStr)
  }

  /** `write_to_json` as evidently intended: the loop builds a fresh entry per
      result and the document is dumped only after the whole stream has been
      consumed, so an unlinked approach or an exception of the stream leaves
      nothing written. */
  function WriteJson(neos: seq<Neo>, approaches: seq<Approach>, results: Run<nat, Fault>, timeStr: Time -> string)
    : (r: Result<Json, Fault>)
    requires LinksInRange(neos, approaches) && InRange(approaches, results.items)
    ensures r.Success? <==> Reached(approaches, results.items, 0) == |results.items| && results.raised.None?
    ensures Reached(approaches, results.items, 0) < |results.items| ==> r == Failure(NeoIsNone)
    ensures Reached(approaches, results.items, 0) == |results.items| && results.raised.Some?
            ==> r == Failure(results.raised.value)
    ensures r.Success? ==> r.value.JArray? && |r.value.elements| == |results.items|
  {
    var ids := results.items;
    if Reached(approaches, ids, 0) < |ids| then Failure(NeoIsNone)
    else if results.raised.Some? then Failure(results.raised.value)
    else Success(JArray(Entries(neos, approaches, ids, 0, timeStr)))
  }

  /** Reads a written document back: one record per entry. */
  function ReadJson(j: Json): Option<seq<Record>> {
    if !j.JArray? then None
    else ReadEntries(j.elements)
  }

  function ReadEntries(es: seq<Json>): (r: Option<seq<Record>>)
    ensures r.Some? ==> |r.value| == |es|
    ensures r.Some? ==> forall j :: 0 <= j < |es| ==> ReadJsonEntry(es[j]) == Some(r.value[j])
    ensures (forall j :: 0 <= j < |es| ==> ReadJsonEntry(es[j]).Some?) ==> r.Some?
  {
    if |es| == 0 then Some([])
    else
      match (ReadJsonEntry(es[0]), ReadEntries(es[1..]))
      case (Some(x), Some(xs)) => Some([x] + xs)
      case _ => None
  }

  /** The structured round trip: a document written from a stream of linked
      results reads back as the records of those results, in stream order. */
  lemma WriteJsonRoundTrip(neos: seq<Neo>, approaches: seq<Approach>, results: Run<nat, Fault>, timeStr: Time -> string)
    requires LinksInRange(neos, approaches) && InRange(approaches, results.items)
    requires WriteJson(neos, approaches, results, timeStr).Success?
    ensures forall j :: 0 <= j < |results.items| ==> approaches[results.items[j]].neo.Some?
    ensures ReadJson(WriteJson(neos, approaches, results, timeStr).value)
         == Some(RecordsOf(neos, approaches, results.items, timeStr))
  {
    var ids := results.items;
    var es := Entries(neos, approaches, ids, 0, timeStr);
    var want := RecordsOf(neos, approaches, ids, timeStr);
    forall j | 0 <= j < |ids| ensures ReadJsonEntry(es[j]) == Some(want[j]) {
      JsonEntryRoundTrip(neos, approaches[ids[j]], timeStr);
    }
    assert WriteJson(neos, approaches, results, timeStr).value == JArray(es);
    var got := ReadEntries(es);
    assert got.Some?;
    assert forall j :: 0 <= j < |ids| ==> got.value[j] == want[j];
    assert got.value == want;
  }

  /** `write_to_json` as written. The first pass of its loop stores three
      keys in the shared dict and then evaluates `close_approach_entry.neo`,
      reading an attribute of a plain dict, which raises AttributeError; an
      empty stream writes an empty array. */
  function WriteJsonAsWritten(results: Run<nat, Fault>): (r: Result<Json, Fault>)
    ensures r.Success? <==> results.items == [] && results.raised.None?
    ensures results.items != [] ==> r == Failure(EntryHasNoNeo)
    ensures results.items == [] && results.raised.None? ==> r == Success(JArray([]))
    ensures results.items == [] && results.raised.Some? ==> r == Failure(results.raised.value)
  {
    if results.items != [] then Failure(EntryHasNoNeo)
    else if results.raised.Some? then Failure(results.raised.value)
    else Success(JArray([]))
  }

  /** The discrepancy: a single linked result, which the intended writer
      turns into a one-entry array, makes the writer as written raise. */
  lemma JsonWriterAsWrittenFails(neos: seq<Neo>, approaches: seq<Approach>, i: nat, timeStr: Time -> string)
    requires LinksInRange(neos, approaches)
    requires i < |approaches| && approaches[i].neo.Some?
    ensures WriteJson(neos, approaches, Run([i], None), timeStr) == Success(JArray([JsonEntry(neos, approaches[i], timeStr)]))
    ensures WriteJsonAsWritten(Run([i], None)) == Failure(EntryHasNoNeo)
  {
    assert Reached(approaches, [i], 0) == 1;
    assert Entries(neos, approaches, [i], 0, timeStr) == [JsonEntry(neos, approaches[i], timeStr)];
  }
}
