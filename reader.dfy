/** `ExcelHandler.ReadMultipleExcelFiles`: every file's first worksheet is
    read as a header row followed by data rows, one record per data row. */
module Reader {
  import opened Wrappers
  import opened Text
  import opened Records

  type Pos = n: int | 1 <= n witness 1

  /** The used range: `LastRowUsed().RowNumber()` and
      `LastColumnUsed().ColumnNumber()`, both 1-based. */
  datatype Extent = Extent(lastRow: Pos, lastCol: Pos)

  /** The first worksheet of an opened workbook: the text of every cell
      (empty for a blank cell) and the used range, `None` when the sheet has
      no used cell (the library then returns `null` for the last used row). */
  datatype Sheet = Sheet(text: (int, int) -> string, used: Option<Extent>)

  /** `NullPaths`: the list of paths is `null`, so the `foreach` over it
      throws a `NullReferenceException`.
      `Unreadable`: the workbook could not be opened (an I/O exception).
      `EmptySheet`: the first worksheet has no used cell, so the source
      dereferences a `null` row (a `NullReferenceException`). */
  datatype ReadError = NullPaths | Unreadable(path: string) | EmptySheet(path: string)

  type Row = Record<string>

  /** Opening a workbook file: `None` when it cannot be opened. */
  type Opener = string -> Option<Sheet>

  /** Trimmed text of the cells of row `row`, columns 1..lastCol, in order. */
  function RowText(sheet: Sheet, row: int, lastCol: nat): seq<string>
  {
    seq(lastCol, i => Trim(sheet.text(row, i + 1)))
  }

  /** The header: row 1, trimmed. */
  function Header(sheet: Sheet, e: Extent): seq<string>
  {
    RowText(sheet, 1, e.lastCol)
  }

  /** The record of data row `row`: each column's trimmed text written under
      that column's header name. */
  function RowRecord(sheet: Sheet, e: Extent, row: int): Row
  {
    FromColumns(Header(sheet, e), RowText(sheet, row, e.lastCol))
  }

  /** The records of data rows 2..last, in row order. */
  function RecordsUpTo(sheet: Sheet, e: Extent, last: int): seq<Row>
    decreases last
  {
    if last < 2 then [] else RecordsUpTo(sheet, e, last - 1) + [RowRecord(sheet, e, last)]
  }

  /** The records of one sheet: one per data row 2..lastRow, in row order. */
  function SheetRecords(sheet: Sheet, e: Extent): seq<Row>
  {
    RecordsUpTo(sheet, e, e.lastRow)
  }

  /** A sheet yields exactly lastRow - 1 records, record i coming from row i + 2. */
  lemma {:induction false} RecordsUpToRows(sheet: Sheet, e: Extent, last: int)
    ensures |RecordsUpTo(sheet, e, last)| == if last < 2 then 0 else last - 1
    ensures forall i :: 0 <= i < |RecordsUpTo(sheet, e, last)| ==>
              RecordsUpTo(sheet, e, last)[i] == RowRecord(sheet, e, i + 2)
    decreases last
  {
    if last >= 2 {
      RecordsUpToRows(sheet, e, last - 1);
    }
  }

  /** What reading one file yields. */
  function ReadFile(open: Opener, path: string): Result<seq<Row>, ReadError>
  {
    match open(path)
    case None => Failure(Unreadable(path))
    case Some(sheet) =>
      match sheet.used
      case None => Failure(EmptySheet(path))
      case Some(e) => Success(SheetRecords(sheet, e))
  }

  /** Sequencing of two steps: the first failure wins, otherwise the records
      are concatenated in order. */
  function AndThen(a: Result<seq<Row>, ReadError>, b: Result<seq<Row>, ReadError>): Result<seq<Row>, ReadError>
  {
    match a
    case Failure(e) => Failure(e)
    case Success(x) =>
      match b
      case Failure(e) => Failure(e)
      case Success(y) => Success(x + y)
  }

  /** What reading a list of files yields: the files are read in list order
      and the first file that fails makes the whole call fail. */
  function ReadAll(open: Opener, paths: seq<string>): Result<seq<Row>, ReadError>
  {
    if paths == [] then Success([])
    else AndThen(ReadFile(open, paths[0]), ReadAll(open, paths[1..]))
  }

  lemma AndThenAssociative(a: Result<seq<Row>, ReadError>, b: Result<seq<Row>, ReadError>, c: Result<seq<Row>, ReadError>)
    ensures AndThen(AndThen(a, b), c) == AndThen(a, AndThen(b, c))
  {
    if a.Success? && b.Success? && c.Success? {
      assert (a.value + b.value) + c.value == a.value + (b.value + c.value);
    }
  }

  /** Reading `ps + qs` is reading `ps`, then `qs`: the result is the
      concatenation, in file order, of each file's records. */
  lemma {:induction false} ReadAllConcat(open: Opener, ps: seq<string>, qs: seq<string>)
    ensures ReadAll(open, ps + qs) == AndThen(ReadAll(open, ps), ReadAll(open, qs))
  {
    if ps == [] {
      assert ps + qs == qs;
      var b := ReadAll(open, qs);
      if b.Success? { assert [] + b.value == b.value; }
    } else {
      assert (ps + qs)[1..] == ps[1..] + qs;
      ReadAllConcat(open, ps[1..], qs);
      AndThenAssociative(ReadFile(open, ps[0]), ReadAll(open, ps[1..]), ReadAll(open, qs));
    }
  }

  /** Reading succeeds exactly when every file can be opened and has a used
      cell, and then yields lastRow - 1 records per file. */
  lemma {:induction false} ReadAllSucceeds(open: Opener, paths: seq<string>)
    ensures ReadAll(open, paths).Success? <==>
              forall i :: 0 <= i < |paths| ==> ReadFile(open, paths[i]).Success?
    ensures ReadAll(open, paths).Success? ==>
              |ReadAll(open, paths).value| == RowCount(open, paths)
  {
    if paths != [] {
      ReadAllSucceeds(open, paths[1..]);
      if open(paths[0]).Some? && open(paths[0]).value.used.Some? {
        RecordsUpToRows(open(paths[0]).value, open(paths[0]).value.used.value, open(paths[0]).value.used.value.lastRow);
      }
      assert forall i :: 1 <= i < |paths| ==> paths[i] == paths[1..][i - 1];
    }
  }

  /** The number of data rows of the files, lastRow - 1 per file, summed. */
  function RowCount(open: Opener, paths: seq<string>): nat
  {
    if paths == [] then 0
    else
      var here := match open(paths[0])
                  case Some(Sheet(_, Some(e))) => e.lastRow - 1
                  case _ => 0;
      here + RowCount(open, paths[1..])
  }

  /** Reads row 1, columns 1..lastCol, trimming each cell. */
  method ReadHeader(sheet: Sheet, e: Extent) returns (names: seq<string>)
    ensures |names| == e.lastCol
    ensures forall c :: 1 <= c <= e.lastCol ==> names[c - 1] == Trim(sheet.text(1, c))
    ensures names == Header(sheet, e)
  {
    names := [];
    for c := 1 to e.lastCol + 1
      invariant |names| == c - 1
      invariant forall k :: 1 <= k < c ==> names[k - 1] == Trim(sheet.text(1, k))
    {
      names := names + [Trim(sheet.text(1, c))];
    }
  }

  /** The record of data row `row` holds every header name once, in the
      order names first occur in the header. */
  lemma RowRecordKeys(sheet: Sheet, e: Extent, row: int)
    ensures var names, record := Header(sheet, e), RowRecord(sheet, e, row);
            && DistinctKeys(record)
            && (forall k :: k in Keys(record) <==> k in names)
            && InFirstOccurrenceOrder(Keys(record), names)
  {
    FromColumnsKeys(Header(sheet, e), RowText(sheet, row, e.lastCol));
  }

  /** Under the name of header column `c`, the record of data row `row`
      holds the trimmed text of the last column that carries that name. */
  lemma RowRecordValue(sheet: Sheet, e: Extent, row: int, c: Pos)
    requires c <= e.lastCol
    ensures var names := Header(sheet, e);
            Lookup(RowRecord(sheet, e, row), names[c - 1])
              == Some(Trim(sheet.text(row, LastIndex(names, names[c - 1]) + 1)))
  {
    var names, values := Header(sheet, e), RowText(sheet, row, e.lastCol);
    FromColumnsValues(names, values, names[c - 1]);
  }

  /** Builds the record of data row `row` field by field through the indexer. */
  method ReadRecord(sheet: Sheet, e: Extent, names: seq<string>, row: int) returns (record: Row)
    requires names == Header(sheet, e)
    ensures record == RowRecord(sheet, e, row)
  {
    ghost var values := RowText(sheet, row, e.lastCol);
    record := [];
    for c := 1 to e.lastCol + 1
      invariant record == FromColumns(names[..c - 1], values[..c - 1])
    {
      var text := Trim(sheet.text(row, c));
      ghost var before := FromColumns(names[..c - 1], values[..c - 1]);
      assert names[..c][..c - 1] == names[..c - 1];
      assert values[..c][..c - 1] == values[..c - 1];
      assert FromColumns(names[..c], values[..c]) == Put(before, names[c - 1], text);
      record := Put(record, names[c - 1], text);
    }
    assert names[..e.lastCol] == names && values[..e.lastCol] == values;
  }

  /** Reads one opened file: the header row, then one record per data row
      2..lastRow, in row order. */
  method ReadSheet(sheet: Sheet, path: string) returns (result: Result<seq<Row>, ReadError>)
    ensures sheet.used.None? ==> result == Failure(EmptySheet(path))
    ensures sheet.used.Some? ==> result == Success(SheetRecords(sheet, sheet.used.value))
    ensures sheet.used.Some? ==>
              && |result.value| == sheet.used.value.lastRow - 1
              && forall i :: 0 <= i < |result.value| ==> result.value[i] == RowRecord(sheet, sheet.used.value, i + 2)
  {
    if sheet.used.None? {
      return Failure(EmptySheet(path));
    }
    var e := sheet.used.value;
    var names := ReadHeader(sheet, e);
    var records: seq<Row> := [];
    for row := 2 to e.lastRow + 1
      invariant records == RecordsUpTo(sheet, e, row - 1)
    {
      var record := ReadRecord(sheet, e, names, row);
      records := records + [record];
    }
    RecordsUpToRows(sheet, e, e.lastRow);
    return Success(records);
  }

  /** `ReadMultipleExcelFiles`: a `null` list fails; otherwise reads every
      file in list order and returns all their records, file by file; no
      files give no records. */
  method ReadMultipleExcelFiles(open: Opener, filePaths: Option<seq<string>>) returns (result: Result<seq<Row>, ReadError>)
    ensures filePaths.None? ==> result == Failure(NullPaths)
    ensures filePaths == Some([]) ==> result == Success([])
    ensures filePaths.Some? ==> result == ReadAll(open, filePaths.value)
  {
    if filePaths.None? {
      return Failure(NullPaths);
    }
    var paths := filePaths.value;
    var records: seq<Row> := [];
    for k := 0 to |paths|
      invariant ReadAll(open, paths[..k]) == Success(records)
    {
      var path := paths[k];
      ReadAllConcat(open, paths[..k], [path]);
      assert paths[..k + 1] == paths[..k] + [path];
      assert ReadAll(open, [path]) == AndThen(ReadFile(open, path), Success([]));
      var workbook := open(path);
      if workbook.None? {
        ReadAllConcat(open, paths[..k + 1], paths[k + 1..]);
        assert paths[..k + 1] + paths[k + 1..] == paths;
        return Failure(Unreadable(path));
      }
      var fileRecords := ReadSheet(workbook.value, path);
      if fileRecords.Failure? {
        ReadAllConcat(open, paths[..k + 1], paths[k + 1..]);
        assert paths[..k + 1] + paths[k + 1..] == paths;
        return fileRecords;
      }
      assert fileRecords.value + [] == fileRecords.value;
      records := records + fileRecords.value;
    }
    assert paths[..|paths|] == paths;
    return Success(records);
  }
}
