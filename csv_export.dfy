/** The CSV rows written for one resource type (main.go:186-242): a header and
    one row per resource. A row is modelled as its list of cells; quoting,
    escaping and the file itself are not part of this module. */
module CsvExport {
  import opened Wrappers
  import opened Inventory

  /** The columns every row starts with. */
  const FixedColumns: seq<string> := ["TYPE", "ID", "CREATED"]

  /** Cell for an attribute the provider's schema does not report. */
  const NotAvailable: string := "N/A"

  /** Cell for an attribute whose extraction failed. */
  const ExtractionFailed: string := "error"

  /** A debug-level log entry for a failed extraction: resource type, id and the error. */
  datatype DebugEntry = DebugEntry(rtype: string, id: string, err: string)

  /** printHeaderCsv: the fixed columns, then the requested attributes in order. */
  method PrintHeaderCsv(attributes: seq<string>) returns (header: seq<string>)
    ensures header == FixedColumns + attributes
  {
    header := FixedColumns;
    for i := 0 to |attributes|
      invariant header == FixedColumns + attributes[..i]
    {
      header := header + [attributes[i]];
    }
    assert attributes[..|attributes|] == attributes;
  }

  /** The CREATED cell: empty exactly when the resource has no creation time. */
  function CreatedCell(r: Resource): (cell: string)
    ensures cell == "" <==> r.createdAt.None?
    ensures r.createdAt.Some? ==> cell == r.createdAt.value
  {
    match r.createdAt
    case None => ""
    case Some(t) => t
  }

  /** The cell for one requested attribute. Only the presence of the key in
      `hasAttrs` matters, not the boolean stored under it. */
  function AttributeCell(attr: string, r: Resource, hasAttrs: map<string, bool>, getAttribute: Extractor): string
  {
    if attr !in hasAttrs then NotAvailable
    else
      match getAttribute(attr, r)
      case Ok(v) => v
      case Err(_) => ExtractionFailed
  }

  /** The attribute cells of one row, built from the front as the loop does. */
  function Cells(attributes: seq<string>, r: Resource, hasAttrs: map<string, bool>, getAttribute: Extractor): seq<string>
    decreases |attributes|
  {
    if attributes == [] then []
    else
      var n := |attributes| - 1;
      Cells(attributes[..n], r, hasAttrs, getAttribute) + [AttributeCell(attributes[n], r, hasAttrs, getAttribute)]
  }

  /** The attributes for which extraction is attempted, in the order they are attempted. */
  function Attempted(attributes: seq<string>, hasAttrs: map<string, bool>): seq<string>
    decreases |attributes|
  {
    if attributes == [] then []
    else
      var n := |attributes| - 1;
      Attempted(attributes[..n], hasAttrs) + (if attributes[n] in hasAttrs then [attributes[n]] else [])
  }

  /** The debug entries logged while building the row of `r`. */
  function Failures(attributes: seq<string>, r: Resource, hasAttrs: map<string, bool>, getAttribute: Extractor): seq<DebugEntry>
    decreases |attributes|
  {
    if attributes == [] then []
    else
      var n := |attributes| - 1;
      var attr := attributes[n];
      Failures(attributes[..n], r, hasAttrs, getAttribute) +
        (if attr in hasAttrs && getAttribute(attr, r).Err?
         then [DebugEntry(r.rtype, r.id, getAttribute(attr, r).error)]
         else [])
  }

  /** The row written for one resource. */
  function RowOf(r: Resource, hasAttrs: map<string, bool>, attributes: seq<string>, getAttribute: Extractor): seq<string>
  {
    [r.rtype, r.id, CreatedCell(r)] + Cells(attributes, r, hasAttrs, getAttribute)
  }

  /** The body of the per-resource loop of printResourcesCsv: grows the row
      cell by cell. `attempted` records each call of the extractor and `debug`
      each debug log entry. */
  method BuildRow(r: Resource, hasAttrs: map<string, bool>, attributes: seq<string>, getAttribute: Extractor)
    returns (row: seq<string>, attempted: seq<string>, debug: seq<DebugEntry>)
    ensures row == RowOf(r, hasAttrs, attributes, getAttribute)
    ensures attempted == Attempted(attributes, hasAttrs)
    ensures debug == Failures(attributes, r, hasAttrs, getAttribute)
  {
    row := [r.rtype, r.id];
    if r.createdAt.Some? {
      row := row + [r.createdAt.value];
    } else {
      row := row + [""];
    }
    attempted, debug := [], [];
    for i := 0 to |attributes|
      invariant row == [r.rtype, r.id, CreatedCell(r)] + Cells(attributes[..i], r, hasAttrs, getAttribute)
      invariant attempted == Attempted(attributes[..i], hasAttrs)
      invariant debug == Failures(attributes[..i], r, hasAttrs, getAttribute)
    {
      var attr := attributes[i];
      var v := NotAvailable;
      if attr in hasAttrs {
        attempted := attempted + [attr];
        var got := getAttribute(attr, r);
        if got.Err? {
          debug := debug + [DebugEntry(r.rtype, r.id, got.error)];
          v := ExtractionFailed;
        } else {
          v := got.value;
        }
      }
      row := row + [v];
      assert attributes[..i + 1][..i] == attributes[..i];
    }
    assert attributes[..|attributes|] == attributes;
  }

  lemma {:induction false} CellsAt(attributes: seq<string>, r: Resource, hasAttrs: map<string, bool>, getAttribute: Extractor)
    ensures |Cells(attributes, r, hasAttrs, getAttribute)| == |attributes|
    ensures forall i :: 0 <= i < |attributes| ==>
      Cells(attributes, r, hasAttrs, getAttribute)[i] == AttributeCell(attributes[i], r, hasAttrs, getAttribute)
    decreases |attributes|
  {
    if attributes != [] {
      var n := |attributes| - 1;
      CellsAt(attributes[..n], r, hasAttrs, getAttribute);
    }
  }

  /** A row has 3 + |attributes| cells: type, id, CREATED, then cell 3+i for
      attributes[i], which is "N/A" when the attribute is not a key of
      `hasAttrs`, "error" when extraction fails, and the extracted text otherwise. */
  lemma RowShape(r: Resource, hasAttrs: map<string, bool>, attributes: seq<string>, getAttribute: Extractor)
    ensures |RowOf(r, hasAttrs, attributes, getAttribute)| == 3 + |attributes|
    ensures RowOf(r, hasAttrs, attributes, getAttribute)[0] == r.rtype
    ensures RowOf(r, hasAttrs, attributes, getAttribute)[1] == r.id
    ensures RowOf(r, hasAttrs, attributes, getAttribute)[2] == CreatedCell(r)
    ensures forall i :: 0 <= i < |attributes| && attributes[i] !in hasAttrs ==>
      RowOf(r, hasAttrs, attributes, getAttribute)[3 + i] == NotAvailable
    ensures forall i :: 0 <= i < |attributes| && attributes[i] in hasAttrs && getAttribute(attributes[i], r).Err? ==>
      RowOf(r, hasAttrs, attributes, getAttribute)[3 + i] == ExtractionFailed
    ensures forall i :: 0 <= i < |attributes| && attributes[i] in hasAttrs && getAttribute(attributes[i], r).Ok? ==>
      RowOf(r, hasAttrs, attributes, getAttribute)[3 + i] == getAttribute(attributes[i], r).value
  {
    CellsAt(attributes, r, hasAttrs, getAttribute);
  }

  /** Extraction is attempted for exactly the requested attributes that are
      keys of `hasAttrs`, so never for one whose cell reads "N/A". */
  lemma {:induction false} AttemptedExactlySupported(attributes: seq<string>, hasAttrs: map<string, bool>)
    ensures forall a :: a in Attempted(attributes, hasAttrs) <==> a in attributes && a in hasAttrs
    ensures |Attempted(attributes, hasAttrs)| <= |attributes|
    decreases |attributes|
  {
    if attributes != [] {
      var n := |attributes| - 1;
      AttemptedExactlySupported(attributes[..n], hasAttrs);
      assert attributes == attributes[..n] + [attributes[n]];
    }
  }

  /** Every debug entry names the resource's type and id and the error of a
      supported attribute's failed extraction, and every such failure is logged. */
  lemma {:induction false} FailuresAreLogged(attributes: seq<string>, r: Resource, hasAttrs: map<string, bool>, getAttribute: Extractor)
    ensures forall e :: e in Failures(attributes, r, hasAttrs, getAttribute) ==>
      e.rtype == r.rtype && e.id == r.id &&
      exists a :: a in attributes && a in hasAttrs && getAttribute(a, r) == Err(e.err)
    ensures forall a :: a in attributes && a in hasAttrs && getAttribute(a, r).Err? ==>
      DebugEntry(r.rtype, r.id, getAttribute(a, r).error) in Failures(attributes, r, hasAttrs, getAttribute)
    decreases |attributes|
  {
    if attributes != [] {
      var n := |attributes| - 1;
      FailuresAreLogged(attributes[..n], r, hasAttrs, getAttribute);
      assert attributes == attributes[..n] + [attributes[n]];
    }
  }

  /** The data rows of the table, one per resource in order. */
  function Rows(resources: seq<Resource>, hasAttrs: map<string, bool>, attributes: seq<string>, getAttribute: Extractor): seq<seq<string>>
    decreases |resources|
  {
    if resources == [] then []
    else
      var n := |resources| - 1;
      Rows(resources[..n], hasAttrs, attributes, getAttribute) + [RowOf(resources[n], hasAttrs, attributes, getAttribute)]
  }

  /** The debug entries logged while writing all rows. */
  function DebugLog(resources: seq<Resource>, hasAttrs: map<string, bool>, attributes: seq<string>, getAttribute: Extractor): seq<DebugEntry>
    decreases |resources|
  {
    if resources == [] then []
    else
      var n := |resources| - 1;
      DebugLog(resources[..n], hasAttrs, attributes, getAttribute) + Failures(attributes, resources[n], hasAttrs, getAttribute)
  }

  /** printResourcesCsv: the header followed by one row per resource. */
  method PrintResourcesCsv(resources: seq<Resource>, hasAttrs: map<string, bool>, attributes: seq<string>, getAttribute: Extractor)
    returns (table: seq<seq<string>>, debug: seq<DebugEntry>)
    ensures table == [FixedColumns + attributes] + Rows(resources, hasAttrs, attributes, getAttribute)
    ensures debug == DebugLog(resources, hasAttrs, attributes, getAttribute)
  {
    var header := PrintHeaderCsv(attributes);
    table, debug := [header], [];
    for k := 0 to |resources|
      invariant table == [header] + Rows(resources[..k], hasAttrs, attributes, getAttribute)
      invariant debug == DebugLog(resources[..k], hasAttrs, attributes, getAttribute)
    {
      // The extractor-call trace of a row is stated per row (`BuildRow`, `AttemptedExactlySupported`); the table does not collect it.
      var row, attempted, failed := BuildRow(resources[k], hasAttrs, attributes, getAttribute);
      table := table + [row];
      debug := debug + failed;
      assert resources[..k + 1][..k] == resources[..k];
    }
    assert resources[..|resources|] == resources;
  }

  /** One data row per resource, in the order of `resources`. */
  lemma {:induction false} RowsAt(resources: seq<Resource>, hasAttrs: map<string, bool>, attributes: seq<string>, getAttribute: Extractor)
    ensures |Rows(resources, hasAttrs, attributes, getAttribute)| == |resources|
    ensures forall k :: 0 <= k < |resources| ==>
      Rows(resources, hasAttrs, attributes, getAttribute)[k] == RowOf(resources[k], hasAttrs, attributes, getAttribute)
    decreases |resources|
  {
    if resources != [] {
      var n := |resources| - 1;
      RowsAt(resources[..n], hasAttrs, attributes, getAttribute);
    }
  }
}
