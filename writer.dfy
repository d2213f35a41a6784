/** `ExcelHandler.GenerateExcelFromData`: a list of dictionaries written to a
    new worksheet, a header row taken from the first dictionary's keys and one
    row per dictionary below it. */
module Writer {
  import opened Wrappers
  import opened Records

  /** A dictionary value: `None` for `null`, otherwise the text its
      `ToString()` gives. */
  type Value = Option<string>

  /** A `Dictionary<string, object>`, keys in enumeration order. A real
      dictionary never repeats a key, so every `Dict` that comes from the
      source satisfies `DistinctKeys`; the writer does not depend on it, and
      only the exact round trip asks for it. */
  type Dict = Record<Value>

  /** The `data` argument: a list that may be `null`, of dictionaries that may
      be `null` (a JSON document `[null]` decodes to one). */
  type Data = Option<seq<Option<Dict>>>

  /** A cell address (row, column), both 1-based. */
  type Cell = (int, int)

  /** The exceptions that escape the writers. */
  datatype WriteError =
    | InvalidArgument(message: string)   // ArgumentException
    | InvalidOperation(message: string)  // InvalidOperationException
    | KeyNotFound(key: string)           // KeyNotFoundException from the dictionary indexer
    | NullReference                      // NullReferenceException

  const EmptyDataMessage := "Os dados fornecidos estão vazios."

  /** The worksheet name both writers use when the caller gives none. */
  const DefaultSheetName := "Sheet1"

  /** The produced workbook: one worksheet, its name and its written cells
      (a cell written with `null` maps to `None`). */
  datatype Workbook = Workbook(sheetName: string, cells: map<Cell, Value>)

  /** The worksheet being filled. */
  class Worksheet {
    const name: string
    var cells: map<Cell, Value>

    /** `Worksheets.Add(name)`: a new, empty worksheet. */
    constructor (name: string)
      ensures this.name == name && cells == map[]
    {
      this.name := name;
      cells := map[];
    }

    /** `Cells[row, col].Value = value`. */
    method SetCell(row: int, col: int, value: Value)
      modifies this
      ensures cells == old(cells)[(row, col) := value]
    {
      cells := cells[(row, col) := value];
    }

    /** Whether the worksheet has a used range (`Dimension` is not `null`). */
    predicate HasDimension()
      reads this
    {
      cells != map[]
    }
  }

  /** Why `d[h]` fails for some header `h`, taking headers in order: the
      first header `d` lacks. */
  function MissingKey(d: Dict, headers: seq<string>): (r: Option<WriteError>)
    ensures r.None? <==> forall j :: 0 <= j < |headers| ==> headers[j] in Keys(d)
    ensures r.Some? ==> r.value.KeyNotFound? && r.value.key in headers && r.value.key !in Keys(d)
  {
    if headers == [] then None
    else if headers[0] !in Keys(d) then Some(KeyNotFound(headers[0]))
    else MissingKey(d, headers[1..])
  }

  /** Why writing one data row fails, if it does: a `null` row fails as soon
      as there is a column to write; otherwise the first missing header. */
  function RowError(row: Option<Dict>, headers: seq<string>): Option<WriteError>
  {
    if headers == [] then None
    else if row.None? then Some(NullReference)
    else MissingKey(row.value, headers)
  }

  /** The error of the first data row that fails, rows taken in order. */
  function FirstError(rows: seq<Option<Dict>>, headers: seq<string>): (r: Option<WriteError>)
    ensures r.None? <==> forall i :: 0 <= i < |rows| ==> RowError(rows[i], headers).None?
    ensures r.Some? ==> exists i :: 0 <= i < |rows| && RowError(rows[i], headers) == r
  {
    if rows == [] then None
    else if RowError(rows[0], headers).Some? then RowError(rows[0], headers)
    else
      var r := FirstError(rows[1..], headers);
      assert forall i :: 1 <= i < |rows| ==> rows[i] == rows[1..][i - 1];
      r
  }

  /** When all rows before `i` are fine and row `i` fails, the write fails
      with row `i`'s error. */
  lemma {:induction false} FirstErrorAt(rows: seq<Option<Dict>>, headers: seq<string>, i: nat)
    requires i < |rows|
    requires forall k :: 0 <= k < i ==> RowError(rows[k], headers).None?
    requires RowError(rows[i], headers).Some?
    ensures FirstError(rows, headers) == RowError(rows[i], headers)
  {
    if i > 0 {
      var tail := rows[1..];
      assert RowError(rows[0], headers).None?;
      assert tail[i - 1] == rows[i];
      forall k | 0 <= k < i - 1 ensures RowError(tail[k], headers).None? {
        assert tail[k] == rows[k + 1];
      }
      FirstErrorAt(tail, headers, i - 1);
    }
  }

  /** When headers before `j` are all present and header `j` is missing, the
      key reported missing is header `j`. */
  lemma {:induction false} MissingKeyAt(d: Dict, headers: seq<string>, j: nat)
    requires j < |headers|
    requires forall k :: 0 <= k < j ==> headers[k] in Keys(d)
    requires headers[j] !in Keys(d)
    ensures MissingKey(d, headers) == Some(KeyNotFound(headers[j]))
  {
    if j > 0 {
      MissingKeyAt(d, headers[1..], j - 1);
    }
  }

  /** Every data row is present and has every header. */
  ghost predicate Complete(rows: seq<Option<Dict>>, headers: seq<string>)
  {
    forall i :: 0 <= i < |rows| ==> rows[i].Some? && forall j :: 0 <= j < |headers| ==> headers[j] in Keys(rows[i].value)
  }

  lemma CompleteRows(rows: seq<Option<Dict>>, headers: seq<string>)
    requires headers != []
    requires FirstError(rows, headers).None?
    ensures Complete(rows, headers)
  {
    forall i | 0 <= i < |rows|
      ensures rows[i].Some? && forall j :: 0 <= j < |headers| ==> headers[j] in Keys(rows[i].value)
    {
      assert RowError(rows[i], headers).None?;
    }
  }

  /** The text written at `(r, c)`: the header name in row 1, the value of
      that header in the dictionary of row `r` below it. */
  function CellValue(rows: seq<Option<Dict>>, headers: seq<string>, r: int, c: int): Value
    requires Complete(rows, headers)
    requires 1 <= r <= |rows| + 1 && 1 <= c <= |headers|
  {
    if r == 1 then Some(headers[c - 1])
    else Lookup(rows[r - 2].value, headers[c - 1]).value
  }

  /** The written grid: rows 1..|rows|+1, columns 1..|headers|. */
  function Grid(rows: seq<Option<Dict>>, headers: seq<string>): map<Cell, Value>
    requires Complete(rows, headers)
  {
    map r, c | 1 <= r <= |rows| + 1 && 1 <= c <= |headers| :: (r, c) := CellValue(rows, headers, r, c)
  }

  /** The grid covers exactly rows 1..|rows|+1 and columns 1..|headers|. */
  lemma GridCells(rows: seq<Option<Dict>>, headers: seq<string>)
    requires Complete(rows, headers)
    ensures forall p :: p in Grid(rows, headers) <==> 1 <= p.0 <= |rows| + 1 && 1 <= p.1 <= |headers|
  {
    var g := Grid(rows, headers);
    forall p: Cell | 1 <= p.0 <= |rows| + 1 && 1 <= p.1 <= |headers| ensures p in g {
      assert p == (p.0, p.1);
    }
  }

  /** What `GenerateExcelFromData(data, sheetName)` returns or throws. */
  function Generate(data: Data, sheetName: string): Result<Workbook, WriteError>
  {
    if data.None? || data.value == [] then Failure(InvalidArgument(EmptyDataMessage))
    else if data.value[0].None? then Failure(NullReference)
    else
      var rows, headers := data.value, Keys(data.value[0].value);
      match FirstError(rows, headers)
      case Some(e) => Failure(e)
      case None =>
        if headers == [] then Failure(NullReference)
        else
          CompleteRows(rows, headers);
          Success(Workbook(sheetName, Grid(rows, headers)))
  }

  /** The header row and the first `n` data rows are written, and nothing else. */
  ghost predicate WrittenUpTo(cells: map<Cell, Value>, rows: seq<Option<Dict>>, headers: seq<string>, n: nat)
    requires n <= |rows|
  {
    && (forall p :: p in cells <==> 1 <= p.0 <= n + 1 && 1 <= p.1 <= |headers|)
    && (forall j :: 0 <= j < |headers| ==> (1, j + 1) in cells && cells[(1, j + 1)] == Some(headers[j]))
    && (forall k, j :: 0 <= k < n && 0 <= j < |headers| ==>
          && rows[k].Some? && headers[j] in Keys(rows[k].value) && (k + 2, j + 1) in cells
          && cells[(k + 2, j + 1)] == Lookup(rows[k].value, headers[j]).value)
  }

  /** Nothing is written exactly when there are no headers. */
  lemma WrittenEmpty(cells: map<Cell, Value>, rows: seq<Option<Dict>>, headers: seq<string>, n: nat)
    requires n <= |rows|
    requires WrittenUpTo(cells, rows, headers, n)
    ensures cells == map[] <==> headers == []
  {
    if headers == [] {
      assert forall p :: p !in cells;
    } else {
      assert (1, 1) in cells;
    }
  }

  lemma WrittenAll(cells: map<Cell, Value>, rows: seq<Option<Dict>>, headers: seq<string>)
    requires WrittenUpTo(cells, rows, headers, |rows|)
    requires Complete(rows, headers)
    ensures cells == Grid(rows, headers)
  {
    var g := Grid(rows, headers);
    GridCells(rows, headers);
    forall p | p in cells ensures p in g && cells[p] == g[p] {
      WrittenAt(cells, rows, headers, p);
      GridAt(rows, headers, p.0, p.1);
    }
  }

  lemma WrittenAt(cells: map<Cell, Value>, rows: seq<Option<Dict>>, headers: seq<string>, p: Cell)
    requires WrittenUpTo(cells, rows, headers, |rows|)
    requires Complete(rows, headers)
    requires p in cells
    ensures 1 <= p.0 <= |rows| + 1 && 1 <= p.1 <= |headers|
    ensures cells[p] == CellValue(rows, headers, p.0, p.1)
  {
    var r, c := p.0, p.1;
    if r > 1 {
      assert cells[((r - 2) + 2, (c - 1) + 1)] == Lookup(rows[r - 2].value, headers[c - 1]).value;
    } else {
      assert cells[(1, (c - 1) + 1)] == Some(headers[c - 1]);
    }
  }

  /** The dictionary of a row, a `null` row read as having no keys. */
  function DictOf(row: Option<Dict>): Dict
  {
    if row.Some? then row.value else []
  }

  /** From `before` to `after`, columns 1..j of sheet row `r` were written
      with the values of headers 0..j-1 in `d`, and nothing else changed. */
  ghost predicate RowWrittenUpTo(before: map<Cell, Value>, after: map<Cell, Value>, r: int, d: Dict, headers: seq<string>, j: nat)
    requires j <= |headers|
  {
    && (forall p :: p in after <==> p in before || (p.0 == r && 1 <= p.1 <= j))
    && (forall p :: p in before && p.0 != r ==> after[p] == before[p])
    && (forall jj :: 0 <= jj < j ==> headers[jj] in Keys(d) && (r, jj + 1) in after && after[(r, jj + 1)] == Lookup(d, headers[jj]).value)
  }

  lemma RowWrittenStep(before: map<Cell, Value>, mid: map<Cell, Value>, r: int, d: Dict, headers: seq<string>, j: nat)
    requires j < |headers|
    requires RowWrittenUpTo(before, mid, r, d, headers, j)
    requires headers[j] in Keys(d)
    ensures RowWrittenUpTo(before, mid[(r, j + 1) := Lookup(d, headers[j]).value], r, d, headers, j + 1)
  {
    var q := (r, j + 1);
    var after := mid[q := Lookup(d, headers[j]).value];
    forall p | p in after ensures p in before || (p.0 == r && 1 <= p.1 <= j + 1) {
      if p != q {
        assert p in mid;
      }
    }
    forall p | p in before && p.0 != r ensures p in after && after[p] == before[p] {
      assert p != q;
    }
    forall jj | 0 <= jj < j + 1 ensures (r, jj + 1) in after && after[(r, jj + 1)] == Lookup(d, headers[jj]).value {
      if jj < j {
        assert (r, jj + 1) != q;
      }
    }
  }

  /** Writing data row `n + 1` (sheet row `n + 2`) extends the written part by one row. */
  lemma WrittenStep(before: map<Cell, Value>, after: map<Cell, Value>, rows: seq<Option<Dict>>, headers: seq<string>, n: nat)
    requires n < |rows|
    requires WrittenUpTo(before, rows, headers, n)
    requires RowError(rows[n], headers).None?
    requires RowWrittenUpTo(before, after, n + 2, DictOf(rows[n]), headers, |headers|)
    ensures WrittenUpTo(after, rows, headers, n + 1)
  {
    var d := DictOf(rows[n]);
    forall p | p in after ensures 1 <= p.0 <= n + 2 && 1 <= p.1 <= |headers| {
      if p !in before {
        assert p.0 == n + 2 && 1 <= p.1 <= |headers|;
      }
    }
    forall p: Cell | 1 <= p.0 <= n + 2 && 1 <= p.1 <= |headers| ensures p in after {
      if p.0 <= n + 1 {
        assert p in before;
      }
    }
    forall j | 0 <= j < |headers| ensures (1, j + 1) in after && after[(1, j + 1)] == Some(headers[j]) {
      assert (1, j + 1) in before && (1, j + 1).0 != n + 2;
    }
    forall k, j | 0 <= k < n + 1 && 0 <= j < |headers|
      ensures && rows[k].Some? && headers[j] in Keys(rows[k].value) && (k + 2, j + 1) in after
              && after[(k + 2, j + 1)] == Lookup(rows[k].value, headers[j]).value
    {
      if k < n {
        assert (k + 2, j + 1) in before && (k + 2, j + 1).0 != n + 2;
      } else {
        assert rows[n].Some? && d == rows[n].value;
        assert headers[j] in Keys(d) && (n + 2, j + 1) in after;
      }
    }
  }

  /** Lines 77-80: the header names into row 1, in order. */
  method WriteHeader(worksheet: Worksheet, headers: seq<string>)
    requires worksheet.cells == map[]
    modifies worksheet
    ensures WrittenUpTo(worksheet.cells, [], headers, 0)
  {
    for i := 0 to |headers|
      invariant forall p :: p in worksheet.cells <==> p.0 == 1 && 1 <= p.1 <= i
      invariant forall j :: 0 <= j < i ==> worksheet.cells[(1, j + 1)] == Some(headers[j])
    {
      worksheet.SetCell(1, i + 1, Some(headers[i]));
    }
  }

  /** Lines 85-89: one dictionary into row `r`, column by column; stops at
      the first column whose lookup throws. */
  method WriteRow(worksheet: Worksheet, rowData: Option<Dict>, headers: seq<string>, r: int) returns (error: Option<WriteError>)
    modifies worksheet
    ensures error == RowError(rowData, headers)
    ensures error.None? ==> RowWrittenUpTo(old(worksheet.cells), worksheet.cells, r, DictOf(rowData), headers, |headers|)
  {
    ghost var d := DictOf(rowData);
    for j := 0 to |headers|
      invariant j > 0 ==> rowData.Some?
      invariant RowWrittenUpTo(old(worksheet.cells), worksheet.cells, r, d, headers, j)
    {
      if rowData.None? {
        return Some(NullReference);
      }
      var value := Lookup(rowData.value, headers[j]);
      if value.None? {
        MissingKeyAt(rowData.value, headers, j);
        return Some(KeyNotFound(headers[j]));
      }
      RowWrittenStep(old(worksheet.cells), worksheet.cells, r, d, headers, j);
      worksheet.SetCell(r, j + 1, value.value);
    }
    return None;
  }

  /** `GenerateExcelFromData`. */
  method GenerateExcelFromData(data: Data, worksheetName: string := DefaultSheetName) returns (result: Result<Workbook, WriteError>)
    ensures result == Generate(data, worksheetName)
  {
    if data.None? || data.value == [] {
      return Failure(InvalidArgument(EmptyDataMessage));
    }
    var rows := data.value;
    var worksheet := new Worksheet(worksheetName);
    if rows[0].None? {
      return Failure(NullReference);
    }
    var headers := Keys(rows[0].value);
    WriteHeader(worksheet, headers);
    for i := 0 to |rows|
      invariant forall k :: 0 <= k < i ==> RowError(rows[k], headers).None?
      invariant WrittenUpTo(worksheet.cells, rows, headers, i)
    {
      ghost var before := worksheet.cells;
      var error := WriteRow(worksheet, rows[i], headers, i + 2);
      if error.Some? {
        FirstErrorAt(rows, headers, i);
        return Failure(error.value);
      }
      WrittenStep(before, worksheet.cells, rows, headers, i);
    }
    WrittenEmpty(worksheet.cells, rows, headers, |rows|);
    if !worksheet.HasDimension() {
      return Failure(NullReference);
    }
    CompleteRows(rows, headers);
    WrittenAll(worksheet.cells, rows, headers);
    return Success(Workbook(worksheet.name, worksheet.cells));
  }

  /** The write succeeds exactly when the list is non-empty, the first
      dictionary is present and has at least one key, and every dictionary is
      present and has every key of the first. */
  lemma GenerateSucceeds(data: Data, sheetName: string)
    ensures Generate(data, sheetName).Success? <==>
              && data.Some? && data.value != [] && data.value[0].Some?
              && Keys(data.value[0].value) != []
              && Complete(data.value, Keys(data.value[0].value))
  {
    if data.Some? && data.value != [] && data.value[0].Some? {
      var rows, headers := data.value, Keys(data.value[0].value);
      if headers != [] && Complete(rows, headers) {
        forall i | 0 <= i < |rows| ensures RowError(rows[i], headers).None? {
          assert rows[i].Some?;
          assert forall j :: 0 <= j < |headers| ==> headers[j] in Keys(rows[i].value);
        }
      }
    }
  }

  lemma GridAt(rows: seq<Option<Dict>>, headers: seq<string>, r: int, c: int)
    requires Complete(rows, headers)
    requires 1 <= r <= |rows| + 1 && 1 <= c <= |headers|
    ensures (r, c) in Grid(rows, headers) && Grid(rows, headers)[(r, c)] == CellValue(rows, headers, r, c)
  {
  }

  /** A successful write is the grid of the rows under the first
      dictionary's keys. */
  lemma GenerateIsGrid(data: Data, sheetName: string)
    requires Generate(data, sheetName).Success?
    ensures data.Some? && data.value != [] && data.value[0].Some?
    ensures Keys(data.value[0].value) != [] && Complete(data.value, Keys(data.value[0].value))
    ensures Generate(data, sheetName).value == Workbook(sheetName, Grid(data.value, Keys(data.value[0].value)))
  {
    GenerateSucceeds(data, sheetName);
  }

  /** A successful write names the sheet as asked and writes exactly the
      cells of rows 1..|data|+1 and columns 1..|headers|, where the headers are
      the keys of the first dictionary, in order. */
  lemma GenerateWritten(data: Data, sheetName: string)
    requires Generate(data, sheetName).Success?
    ensures data.Some? && data.value != [] && data.value[0].Some?
    ensures var wb, rows, headers := Generate(data, sheetName).value, data.value, Keys(data.value[0].value);
            && wb.sheetName == sheetName
            && headers != []
            && forall p :: p in wb.cells <==> 1 <= p.0 <= |rows| + 1 && 1 <= p.1 <= |headers|
  {
    GenerateIsGrid(data, sheetName);
    GridCells(data.value, Keys(data.value[0].value));
  }

  /** In a successful write, cell (1, j + 1) holds header `j`. */
  lemma GenerateHeaderCell(data: Data, sheetName: string, j: int)
    requires Generate(data, sheetName).Success?
    requires data.Some? && data.value != [] && data.value[0].Some?
    requires 0 <= j < |Keys(data.value[0].value)|
    ensures Generate(data, sheetName).value.cells[(1, j + 1)] == Some(Keys(data.value[0].value)[j])
  {
    GenerateIsGrid(data, sheetName);
    GridAt(data.value, Keys(data.value[0].value), 1, j + 1);
  }

  /** In a successful write, dictionary `i` has header `j`, and cell
      (i + 2, j + 1) holds its value (`None` for a `null` value). */
  lemma GenerateDataCell(data: Data, sheetName: string, i: int, j: int)
    requires Generate(data, sheetName).Success?
    requires data.Some? && data.value != [] && data.value[0].Some?
    requires 0 <= i < |data.value| && 0 <= j < |Keys(data.value[0].value)|
    ensures var rows, headers := data.value, Keys(data.value[0].value);
            && rows[i].Some? && headers[j] in Keys(rows[i].value)
            && Generate(data, sheetName).value.cells[(i + 2, j + 1)] == Lookup(rows[i].value, headers[j]).value
  {
    GenerateIsGrid(data, sheetName);
    GridDataCell(data.value, Keys(data.value[0].value), i, j);
  }

  lemma GridDataCell(rows: seq<Option<Dict>>, headers: seq<string>, i: int, j: int)
    requires Complete(rows, headers)
    requires 0 <= i < |rows| && 0 <= j < |headers|
    ensures rows[i].Some? && headers[j] in Keys(rows[i].value)
    ensures (i + 2, j + 1) in Grid(rows, headers)
    ensures Grid(rows, headers)[(i + 2, j + 1)] == Lookup(rows[i].value, headers[j]).value
  {
    CompleteAt(rows, headers, i, j);
    var g, d, k := Grid(rows, headers), rows[i].value, headers[j];
    GridAt(rows, headers, i + 2, j + 1);
    assert g[(i + 2, j + 1)] == Lookup(d, k).value;
  }

  lemma CompleteAt(rows: seq<Option<Dict>>, headers: seq<string>, i: int, j: int)
    requires Complete(rows, headers)
    requires 0 <= i < |rows| && 0 <= j < |headers|
    ensures rows[i].Some? && headers[j] in Keys(rows[i].value)
  {
  }

  /** A key-not-found failure names a key of the first dictionary that some
      later dictionary lacks. */
  lemma GenerateKeyNotFound(data: Data, sheetName: string, k: string)
    requires Generate(data, sheetName) == Failure(KeyNotFound(k))
    ensures data.Some? && data.value != [] && data.value[0].Some?
    ensures k in Keys(data.value[0].value)
    ensures exists i :: 0 < i < |data.value| && data.value[i].Some? && k !in Keys(data.value[i].value)
  {
    var rows, headers := data.value, Keys(data.value[0].value);
    var i :| 0 <= i < |rows| && RowError(rows[i], headers) == Some(KeyNotFound(k));
    assert rows[i].Some? && k !in Keys(rows[i].value);
  }

  /** When every dictionary is present, one that lacks a key of the first
      makes the write fail with a key-not-found error. */
  lemma MissingKeyFails(data: Data, sheetName: string, i: int, j: int)
    requires data.Some? && data.value != []
    requires forall m :: 0 <= m < |data.value| ==> data.value[m].Some?
    requires 0 < i < |data.value| && 0 <= j < |Keys(data.value[0].value)|
    requires Keys(data.value[0].value)[j] !in Keys(data.value[i].value)
    ensures Generate(data, sheetName).Failure? && Generate(data, sheetName).error.KeyNotFound?
  {
    var rows, headers := data.value, Keys(data.value[0].value);
    assert RowError(rows[i], headers).Some?;
    var m :| 0 <= m < |rows| && RowError(rows[m], headers) == FirstError(rows, headers);
    assert rows[m].Some?;
  }

  /** The earlier failing dictionary decides the error, whichever kind it is:
      `[{"a":1}, null, {}]` fails with a null reference and
      `[{"a":1}, {}, null]` with a missing "a". */
  lemma EarlierRowWins(sheetName: string)
    ensures var first := Some([Field("a", Some("1"))]);
            Generate(Some([first, None, Some([])]), sheetName) == Failure(NullReference)
    ensures var first := Some([Field("a", Some("1"))]);
            Generate(Some([first, Some([]), None]), sheetName) == Failure(KeyNotFound("a"))
  {
    var first: Option<Dict> := Some([Field("a", Some("1"))]);
    var headers := Keys(first.value);
    assert headers == ["a"];
    var rows := [first, None, Some([])];
    assert RowError(rows[0], headers).None?;
    FirstErrorAt(rows, headers, 1);
    var rows' := [first, Some([]), None];
    assert RowError(rows'[0], headers).None?;
    MissingKeyAt(rows'[1].value, headers, 0);
    FirstErrorAt(rows', headers, 1);
  }

  /** Keys that the first dictionary does not have are never written: adding
      one to a later dictionary changes nothing. */
  lemma ExtraKeysIgnored(rows: seq<Option<Dict>>, sheetName: string, i: nat, k: string, v: Value)
    requires 0 < i < |rows| && rows[0].Some? && rows[i].Some?
    requires k !in Keys(rows[0].value)
    ensures Generate(Some(rows[i := Some(Put(rows[i].value, k, v))]), sheetName) == Generate(Some(rows), sheetName)
  {
    var headers := Keys(rows[0].value);
    var rows' := rows[i := Some(Put(rows[i].value, k, v))];
    assert rows'[0] == rows[0];
    ExtraKeyRowsSame(rows, i, k, v, headers);
    FirstErrorSame(rows, rows', headers);
    if FirstError(rows, headers).None? && headers != [] {
      CompleteRows(rows, headers);
      CompleteRows(rows', headers);
      GridSame(rows, rows', headers);
    }
  }

  /** Adding a field that is not a header to dictionary `i` changes neither
      the rows' errors nor their values under the headers. */
  lemma ExtraKeyRowsSame(rows: seq<Option<Dict>>, i: nat, k: string, v: Value, headers: seq<string>)
    requires i < |rows| && rows[i].Some?
    requires k !in headers
    ensures var rows' := rows[i := Some(Put(rows[i].value, k, v))];
            && (forall m :: 0 <= m < |rows| ==> RowError(rows'[m], headers) == RowError(rows[m], headers))
            && (forall m, j :: 0 <= m < |rows| && 0 <= j < |headers| && rows[m].Some? ==>
                  rows'[m].Some? && Lookup(rows'[m].value, headers[j]) == Lookup(rows[m].value, headers[j]))
  {
    var d := rows[i].value;
    var d' := Put(d, k, v);
    PutSpec(d, k, v);
    if headers != [] {
      MissingKeySame(d, d', headers);
    }
    forall j | 0 <= j < |headers| ensures Lookup(d', headers[j]) == Lookup(d, headers[j]) {
      PutOther(d, k, v, headers[j]);
    }
  }

  /** Two row lists with the same value under every header give the same grid. */
  lemma GridSame(rows: seq<Option<Dict>>, rows': seq<Option<Dict>>, headers: seq<string>)
    requires |rows| == |rows'|
    requires Complete(rows, headers) && Complete(rows', headers)
    requires forall m, j :: 0 <= m < |rows| && 0 <= j < |headers| ==>
               Lookup(rows'[m].value, headers[j]) == Lookup(rows[m].value, headers[j])
    ensures Grid(rows', headers) == Grid(rows, headers)
  {
    forall r, c | 1 <= r <= |rows| + 1 && 1 <= c <= |headers|
      ensures CellValue(rows', headers, r, c) == CellValue(rows, headers, r, c)
    {
      if r != 1 {
        assert Lookup(rows'[r - 2].value, headers[c - 1]) == Lookup(rows[r - 2].value, headers[c - 1]);
      }
    }
  }

  lemma {:induction false} MissingKeySame(d: Dict, d': Dict, headers: seq<string>)
    requires forall j :: 0 <= j < |headers| ==> (headers[j] in Keys(d') <==> headers[j] in Keys(d))
    ensures MissingKey(d', headers) == MissingKey(d, headers)
  {
    if headers != [] {
      MissingKeySame(d, d', headers[1..]);
    }
  }

  lemma {:induction false} FirstErrorSame(rows: seq<Option<Dict>>, rows': seq<Option<Dict>>, headers: seq<string>)
    requires |rows| == |rows'|
    requires forall m :: 0 <= m < |rows| ==> RowError(rows'[m], headers) == RowError(rows[m], headers)
    ensures FirstError(rows', headers) == FirstError(rows, headers)
  {
    if rows != [] {
      FirstErrorSame(rows[1..], rows'[1..], headers);
    }
  }
}
