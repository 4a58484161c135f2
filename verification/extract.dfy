/** The two loaders: catalogue rows become NEOs and the rows of the
    close-approach document become approaches, one record per row and in row
    order, with no linking yet.

    Turning text into numbers and instants is done by the record constructors,
    which are not part of this model. Those conversions are parameters here,
    and a conversion that returns `None` stands for the exception it raises. */
module Extract {
  import opened Outcomes
  import opened Models

  /** The exceptions a loader can raise. */
  datatype LoadError =
    | MissingKey(key: string)      // KeyError: a row or the document lacks `key`
    | MissingField(name: string)   // ValueError from `fields.index(name)`
    | ShortRow                     // IndexError: a data row has no cell at a resolved position
    | Malformed(text: string)      // ValueError: a cell does not convert to a number or an instant

  /** One row of the catalogue, as a mapping from header names to cell text. */
  type CatalogueRow = map<string, string>

  /** The close-approach document: its `fields` manifest and its `data` rows.
      A component is `None` when the document has no such key. */
  datatype CadDocument = CadDocument(fields: Option<seq<string>>, data: Option<seq<seq<string>>>)

  // ---------------------------------------------------------------------------
  // load_neos
  // ---------------------------------------------------------------------------

  /** The catalogue header names the loader reads, in the order it reads them. */
  const NeoKeys: seq<string> := ["pdes", "name", "diameter", "pha"]

  /** The diameter a cell holds: unknown when the cell is blank, else its
      conversion to a number. */
  function CellDiameter(text: string, parseFloat: string -> Option<real>): Result<Option<real>, LoadError> {
    if text == "" then Success(None)
    else if parseFloat(text).Some? then Success(Some(parseFloat(text).value))
    else Failure(Malformed(text))
  }

  /** The body of the loop of `load_neos`: one NEO from one row. Cells are
      read in the order `pdes`, `name`, `diameter`, `pha`, so the first problem
      met in that order is the one raised. */
  function NeoFromRow(row: CatalogueRow, parseFloat: string -> Option<real>): (r: Result<Neo, LoadError>)
    ensures r.Success? <==> (forall k :: k in NeoKeys ==> k in row) && CellDiameter(row["diameter"], parseFloat).Success?
    ensures r.Success? ==>
      && r.value.designation == row["pdes"]
      && r.value.name == Some(row["name"])
      && (r.value.diameter.None? <==> row["diameter"] == "")
      && (r.value.diameter.Some? ==> parseFloat(row["diameter"]) == r.value.diameter)
      && (r.value.hazardous <==> row["pha"] == "Y")
      && r.value.approaches == []
    ensures "pdes" !in row ==> r == Failure(MissingKey("pdes"))
    ensures "pdes" in row && "name" !in row ==> r == Failure(MissingKey("name"))
    ensures "pdes" in row && "name" in row && "diameter" !in row ==> r == Failure(MissingKey("diameter"))
    ensures ("pdes" in row && "name" in row && "diameter" in row && row["diameter"] != ""
             && parseFloat(row["diameter"]).None?) ==> r == Failure(Malformed(row["diameter"]))
    ensures ("pdes" in row && "name" in row && "diameter" in row
             && CellDiameter(row["diameter"], parseFloat).Success? && "pha" !in row) ==> r == Failure(MissingKey("pha"))
  {
    if "pdes" !in row then Failure(MissingKey("pdes"))
    else if "name" !in row then Failure(MissingKey("name"))
    else if "diameter" !in row then Failure(MissingKey("diameter"))
    else
      match CellDiameter(row["diameter"], parseFloat)
      case Failure(e) => Failure(e)
      case Success(diameter) =>
        if "pha" !in row then Failure(MissingKey("pha"))
        else Success(Neo(row["pdes"], Some(row["name"]), diameter, row["pha"] == "Y", []))
  }

  /** The first row, at or after `from`, that fails to load. */
  function FirstBadRow<R, T>(rows: seq<R>, load: R -> Result<T, LoadError>, from: nat): (r: Option<nat>)
    requires from <= |rows|
    ensures r.Some? ==> from <= r.value < |rows| && load(rows[r.value]).Failure?
    ensures r.Some? ==> forall j :: from <= j < r.value ==> load(rows[j]).Success?
    ensures r.None? ==> forall j :: from <= j < |rows| ==> load(rows[j]).Success?
    decreases |rows| - from
  {
    if from == |rows| then None
    else if load(rows[from]).Failure? then Some(from)
    else FirstBadRow(rows, load, from + 1)
  }

  /** A loader's loop over its rows, from position `from`: one record per row,
      in row order, ending with the error of the first row that fails. */
  function LoadRows<R, T>(rows: seq<R>, load: R -> Result<T, LoadError>, from: nat): (r: Result<seq<T>, LoadError>)
    requires from <= |rows|
    ensures r.Failure? <==> FirstBadRow(rows, load, from).Some?
    ensures r.Failure? ==> load(rows[FirstBadRow(rows, load, from).value]) == Failure(r.error)
    ensures r.Success? ==> |r.value| == |rows| - from
    ensures r.Success? ==> forall j :: 0 <= j < |r.value| ==> load(rows[from + j]) == Success(r.value[j])
    decreases |rows| - from
  {
    if from == |rows| then Success([])
    else
      match load(rows[from])
      case Failure(e) => Failure(e)
      case Success(x) =>
        match LoadRows(rows, load, from + 1)
        case Failure(e) => Failure(e)
        case Success(xs) => Success([x] + xs)
  }

  /** The loop body of `load_neos` as a function of the row. */
  function NeoLoader(parseFloat: string -> Option<real>): CatalogueRow -> Result<Neo, LoadError> {
    row => NeoFromRow(row, parseFloat)
  }

  /** `load_neos`: one unlinked NEO per catalogue row, in row order, or the
      error of the first row that fails. */
  function LoadNeos(rows: seq<CatalogueRow>, parseFloat: string -> Option<real>): (r: Result<seq<Neo>, LoadError>)
    ensures r.Failure? <==> FirstBadRow(rows, NeoLoader(parseFloat), 0).Some?
    ensures r.Failure? ==>
      NeoFromRow(rows[FirstBadRow(rows, NeoLoader(parseFloat), 0).value], parseFloat) == Failure(r.error)
    ensures r.Success? ==> |r.value| == |rows|
    ensures r.Success? ==> forall i :: 0 <= i < |rows| ==> NeoFromRow(rows[i], parseFloat) == Success(r.value[i])
    ensures r.Success? ==> forall i :: 0 <= i < |rows| ==> r.value[i].approaches == []
  {
    var load := NeoLoader(parseFloat);
    var out := LoadRows(rows, load, 0);
    assert out.Success? ==> forall i :: 0 <= i < |rows| ==> load(rows[i]) == Success(out.value[i]);
    out
  }

  /** A catalogue row describing `n`, with numbers written by `format`. */
  function NeoRow(n: Neo, format: real -> string): CatalogueRow {
    map[
      "pdes" := n.designation,
      "name" := n.name.GetOr(""),
      "diameter" := if n.diameter.Some? then format(n.diameter.value) else "",
      "pha" := if n.hazardous then "Y" else "N"]
  }

  /** Loading the row written for an unlinked NEO gives that NEO back, provided
      the NEO has a name cell and the number format reads back to a non-blank
      text that parses to the same number. */
  lemma NeoRowRoundTrip(n: Neo, format: real -> string, parseFloat: string -> Option<real>)
    requires n.approaches == [] && n.name.Some?
    requires n.diameter.Some? ==> format(n.diameter.value) != "" && parseFloat(format(n.diameter.value)) == n.diameter
    ensures NeoFromRow(NeoRow(n, format), parseFloat) == Success(n)
  {
  }

  /** A blank `pha` cell, like every other text but `Y`, marks the NEO as not
      hazardous; a blank diameter cell marks the diameter unknown. */
  lemma BlankCells(designation: string, name: string, parseFloat: string -> Option<real>)
    ensures NeoFromRow(map["pdes" := designation, "name" := name, "diameter" := "", "pha" := ""], parseFloat)
         == Success(Neo(designation, Some(name), None, false, []))
  {
  }

  // ---------------------------------------------------------------------------
  // load_approaches
  // ---------------------------------------------------------------------------

  /** `fields.index(name)`: the first position holding `name`, or `None` where
      Python raises ValueError. */
  function IndexOf(fields: seq<string>, name: string): (r: Option<nat>)
    ensures r.None? <==> name !in fields
    ensures r.Some? ==> r.value < |fields| && fields[r.value] == name
    ensures r.Some? ==> forall j :: 0 <= j < r.value ==> fields[j] != name
  {
    if |fields| == 0 then None
    else if fields[0] == name then Some(0)
    else
      match IndexOf(fields[1..], name)
      case None => None
      case Some(j) => Some(j + 1)
  }

  /** The position of the first occurrence is the one `IndexOf` finds. */
  lemma IndexOfAt(fields: seq<string>, name: string, k: nat)
    requires k < |fields| && fields[k] == name
    requires forall j :: 0 <= j < k ==> fields[j] != name
    ensures IndexOf(fields, name) == Some(k)
  {
  }

  /** The positions of the four columns the loader uses. */
  datatype Columns = Columns(time: nat, distance: nat, velocity: nat, designation: nat)

  /** The manifest names all four columns the loader uses. */
  predicate HasColumns(fields: seq<string>) {
    "cd" in fields && "dist" in fields && "v_rel" in fields && "des" in fields
  }

  /** The column positions, resolved by name in the order `cd`, `dist`,
      `v_rel`, `des`; the first name missing from the manifest is raised. */
  function ResolveColumns(fields: seq<string>): (r: Result<Columns, LoadError>)
    ensures r.Success? <==> HasColumns(fields)
    ensures r.Success? ==>
      && r.value.time == IndexOf(fields, "cd").value
      && r.value.distance == IndexOf(fields, "dist").value
      && r.value.velocity == IndexOf(fields, "v_rel").value
      && r.value.designation == IndexOf(fields, "des").value
    ensures "cd" !in fields ==> r == Failure(MissingField("cd"))
    ensures "cd" in fields && "dist" !in fields ==> r == Failure(MissingField("dist"))
    ensures "cd" in fields && "dist" in fields && "v_rel" !in fields ==> r == Failure(MissingField("v_rel"))
    ensures "cd" in fields && "dist" in fields && "v_rel" in fields && "des" !in fields ==> r == Failure(MissingField("des"))
  {
    match (IndexOf(fields, "cd"), IndexOf(fields, "dist"), IndexOf(fields, "v_rel"), IndexOf(fields, "des"))
    case (None, _, _, _) => Failure(MissingField("cd"))
    case (Some(_), None, _, _) => Failure(MissingField("dist"))
    case (Some(_), Some(_), None, _) => Failure(MissingField("v_rel"))
    case (Some(_), Some(_), Some(_), None) => Failure(MissingField("des"))
    case (Some(t), Some(d), Some(v), Some(n)) => Success(Columns(t, d, v, n))
  }

  /** Every resolved position has a cell in `row`. */
  predicate Covers(cols: Columns, row: seq<string>) {
    cols.time < |row| && cols.distance < |row| && cols.velocity < |row| && cols.designation < |row|
  }

  /** The body of the loop of `load_approaches`: one unlinked approach from one
      data row. All four cells are read before any is converted; the
      conversions are assumed to run in the order time, distance, velocity. */
  function ApproachFromRow(
    cols: Columns, row: seq<string>,
    parseTime: string -> Option<Time>, parseFloat: string -> Option<real>): (r: Result<Approach, LoadError>)
    ensures !Covers(cols, row) ==> r == Failure(ShortRow)
    ensures r.Success? <==>
      Covers(cols, row)
      && parseTime(row[cols.time]).Some?
      && parseFloat(row[cols.distance]).Some?
      && parseFloat(row[cols.velocity]).Some?
    ensures r.Success? ==>
      && r.value.designation == row[cols.designation]
      && Some(r.value.time) == parseTime(row[cols.time])
      && Some(r.value.distance) == parseFloat(row[cols.distance])
      && Some(r.value.velocity) == parseFloat(row[cols.velocity])
      && r.value.neo.None?
  {
    if !Covers(cols, row) then Failure(ShortRow)
    else
      var time, distance, velocity := row[cols.time], row[cols.distance], row[cols.velocity];
      if parseTime(time).None? then Failure(Malformed(time))
      else if parseFloat(distance).None? then Failure(Malformed(distance))
      else if parseFloat(velocity).None? then Failure(Malformed(velocity))
      else Success(Approach(row[cols.designation], parseTime(time).value,
                            parseFloat(distance).value, parseFloat(velocity).value, None))
  }

  /** The loop body of `load_approaches` as a function of the row. */
  function ApproachLoader(
    cols: Columns, parseTime: string -> Option<Time>, parseFloat: string -> Option<real>): seq<string> -> Result<Approach, LoadError> {
    row => ApproachFromRow(cols, row, parseTime, parseFloat)
  }

  /** `load_approaches`: reads `fields`, resolves the four columns, reads
      `data`, then builds one unlinked approach per data row, in row order.
      It succeeds exactly when each of these steps does; otherwise the first
      step to fail, in that order, gives the error. */
  function LoadApproaches(
    doc: CadDocument,
    parseTime: string -> Option<Time>, parseFloat: string -> Option<real>): (r: Result<seq<Approach>, LoadError>)
    ensures r.Success? <==>
      && doc.fields.Some?
      && ResolveColumns(doc.fields.value).Success?
      && doc.data.Some?
      && FirstBadRow(doc.data.value, ApproachLoader(ResolveColumns(doc.fields.value).value, parseTime, parseFloat), 0).None?
    ensures doc.fields.None? ==> r == Failure(MissingKey("fields"))
    ensures doc.fields.Some? && ResolveColumns(doc.fields.value).Failure? ==>
      r == Failure(ResolveColumns(doc.fields.value).error)
    ensures doc.fields.Some? && ResolveColumns(doc.fields.value).Success? && doc.data.None? ==>
      r == Failure(MissingKey("data"))
    ensures doc.fields.Some? && ResolveColumns(doc.fields.value).Success? && doc.data.Some?
            && FirstBadRow(doc.data.value, ApproachLoader(ResolveColumns(doc.fields.value).value, parseTime, parseFloat), 0).Some? ==>
      var bad := FirstBadRow(doc.data.value, ApproachLoader(ResolveColumns(doc.fields.value).value, parseTime, parseFloat), 0).value;
      r.Failure? && ApproachFromRow(ResolveColumns(doc.fields.value).value, doc.data.value[bad], parseTime, parseFloat) == Failure(r.error)
    ensures r.Success? ==> |r.value| == |doc.data.value|
    ensures r.Success? ==> forall i :: 0 <= i < |r.value| ==>
      ApproachFromRow(ResolveColumns(doc.fields.value).value, doc.data.value[i], parseTime, parseFloat)
        == Success(r.value[i])
    ensures r.Success? ==> forall i :: 0 <= i < |r.value| ==> r.value[i].neo.None?
  {
    if doc.fields.None? then Failure(MissingKey("fields"))
    else
      match ResolveColumns(doc.fields.value)
      case Failure(e) => Failure(e)
      case Success(cols) =>
        if doc.data.None? then Failure(MissingKey("data"))
        else
          var rows := doc.data.value;
          var load := ApproachLoader(cols, parseTime, parseFloat);
          var out := LoadRows(rows, load, 0);
          assert out.Success? ==> forall i :: 0 <= i < |rows| ==> load(rows[i]) == Success(out.value[i]);
          out
  }

  /** The cell of `row` under the column named `name`. */
  function Cell(fields: seq<string>, row: seq<string>, name: string): Option<string> {
    var k := IndexOf(fields, name);
    if k.Some? && k.value < |row| then Some(row[k.value]) else None
  }

  /** Under each of the four names, both rows hold the same cell. */
  predicate SameCells(fieldsA: seq<string>, rowA: seq<string>, fieldsB: seq<string>, rowB: seq<string>) {
    && Cell(fieldsA, rowA, "cd").Some? && Cell(fieldsA, rowA, "cd") == Cell(fieldsB, rowB, "cd")
    && Cell(fieldsA, rowA, "dist").Some? && Cell(fieldsA, rowA, "dist") == Cell(fieldsB, rowB, "dist")
    && Cell(fieldsA, rowA, "v_rel").Some? && Cell(fieldsA, rowA, "v_rel") == Cell(fieldsB, rowB, "v_rel")
    && Cell(fieldsA, rowA, "des").Some? && Cell(fieldsA, rowA, "des") == Cell(fieldsB, rowB, "des")
  }

  /** Two documents carry the same data: both manifests name the four
      columns, and the documents have the same number of rows and in each row
      the same cell under each of the four names. */
  predicate SameColumns(a: CadDocument, b: CadDocument)
    requires a.fields.Some? && a.data.Some? && b.fields.Some? && b.data.Some?
  {
    && HasColumns(a.fields.value) && HasColumns(b.fields.value)
    && |a.data.value| == |b.data.value|
    && forall i :: 0 <= i < |a.data.value| ==>
         SameCells(a.fields.value, a.data.value[i], b.fields.value, b.data.value[i])
  }

  /** Column lookup is by name, so the order of the columns, and any other
      columns, make no difference to the loaded approaches. */
  lemma ColumnOrderIrrelevant(
    a: CadDocument, b: CadDocument,
    parseTime: string -> Option<Time>, parseFloat: string -> Option<real>)
    requires a.fields.Some? && a.data.Some? && b.fields.Some? && b.data.Some?
    requires SameColumns(a, b)
    ensures LoadApproaches(a, parseTime, parseFloat) == LoadApproaches(b, parseTime, parseFloat)
  {
    var ca, cb := ResolveColumns(a.fields.value).value, ResolveColumns(b.fields.value).value;
    var la := ApproachLoader(ca, parseTime, parseFloat);
    var lb := ApproachLoader(cb, parseTime, parseFloat);
    forall i | 0 <= i < |a.data.value| ensures la(a.data.value[i]) == lb(b.data.value[i]) {
      assert SameCells(a.fields.value, a.data.value[i], b.fields.value, b.data.value[i]);
    }
    LoadRowsAgree(a.data.value, b.data.value, la, lb, 0);
  }

  /** Row-wise equal loads give equal results. */
  lemma {:induction false} LoadRowsAgree<R, T>(
    xs: seq<R>, ys: seq<R>, f: R -> Result<T, LoadError>, g: R -> Result<T, LoadError>, from: nat)
    requires from <= |xs| == |ys|
    requires forall i :: from <= i < |xs| ==> f(xs[i]) == g(ys[i])
    ensures LoadRows(xs, f, from) == LoadRows(ys, g, from)
    decreases |xs| - from
  {
    if from < |xs| {
      LoadRowsAgree(xs, ys, f, g, from + 1);
    }
  }

  /** A manifest holding just the four columns, with the designation first
      as the close-approach service writes it. */
  const CadFields: seq<string> := ["des", "cd", "dist", "v_rel"]

  lemma CadFieldsColumns()
    ensures ResolveColumns(CadFields) == Success(Columns(1, 2, 3, 0))
  {
    IndexOfAt(CadFields, "des", 0);
    IndexOfAt(CadFields, "cd", 1);
    IndexOfAt(CadFields, "dist", 2);
    IndexOfAt(CadFields, "v_rel", 3);
  }

  /** A data row in the `CadFields` layout describing `a`, with instants and
      numbers written by the given formats and the unused cells blank. */
  function CadRow(a: Approach, formatTime: Time -> string, format: real -> string): (r: seq<string>)
    ensures |r| == |CadFields|
  {
    [a.designation, formatTime(a.time), format(a.distance), format(a.velocity)]
  }

  /** The document in the `CadFields` layout describing `approaches`. */
  function CadDocumentFor(approaches: seq<Approach>, formatTime: Time -> string, format: real -> string): CadDocument
  {
    CadDocument(Some(CadFields), Some(seq(|approaches|, i requires 0 <= i < |approaches| =>
      CadRow(approaches[i], formatTime, format))))
  }

  /** Loading the document written for unlinked approaches gives them back,
      provided the formats read back through the conversions. */
  lemma CadRoundTrip(
    approaches: seq<Approach>,
    formatTime: Time -> string, format: real -> string,
    parseTime: string -> Option<Time>, parseFloat: string -> Option<real>)
    requires forall i :: 0 <= i < |approaches| ==> approaches[i].neo.None?
    requires forall i :: 0 <= i < |approaches| ==>
      && parseTime(formatTime(approaches[i].time)) == Some(approaches[i].time)
      && parseFloat(format(approaches[i].distance)) == Some(approaches[i].distance)
      && parseFloat(format(approaches[i].velocity)) == Some(approaches[i].velocity)
    ensures LoadApproaches(CadDocumentFor(approaches, formatTime, format), parseTime, parseFloat) == Success(approaches)
  {
    var doc := CadDocumentFor(approaches, formatTime, format);
    var rows := doc.data.value;
    CadFieldsColumns();
    var cols := Columns(1, 2, 3, 0);
    var load := ApproachLoader(cols, parseTime, parseFloat);
    forall i | 0 <= i < |rows| ensures load(rows[i]) == Success(approaches[i]) {
      var row := CadRow(approaches[i], formatTime, format);
      assert rows[i] == row;
      assert row[1] == formatTime(approaches[i].time) && row[2] == format(approaches[i].distance);
      assert row[3] == format(approaches[i].velocity) && row[0] == approaches[i].designation;
    }
    LoadRowsAll(rows, load, approaches, 0);
  }

  /** Rows that each load to the matching record load to all of them. */
  lemma {:induction false} LoadRowsAll<R, T>(rows: seq<R>, load: R -> Result<T, LoadError>, xs: seq<T>, from: nat)
    requires from <= |rows| == |xs|
    requires forall i :: from <= i < |rows| ==> load(rows[i]) == Success(xs[i])
    ensures LoadRows(rows, load, from) == Success(xs[from..])
    decreases |rows| - from
  {
    if from < |rows| {
      LoadRowsAll(rows, load, xs, from + 1);
      assert xs[from..] == [xs[from]] + xs[from + 1..];
    }
  }
}
