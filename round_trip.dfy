/** Writing a list of dictionaries and reading the produced sheet back. */
module RoundTrip {
  import opened Wrappers
  import opened Text
  import opened Records
  import opened Reader
  import opened Writer

  /** The text a reader sees in a written cell: a `null` value reads as an
      empty cell. */
  function TextOf(v: Value): string
  {
    match v
    case Some(t) => t
    case None => ""
  }

  /** The dictionaries as the `data` argument: a list of present dictionaries. */
  function Present(rows: seq<Dict>): (data: seq<Option<Dict>>)
    ensures |data| == |rows| && forall i :: 0 <= i < |rows| ==> data[i] == Some(rows[i])
  {
    seq(|rows|, i requires 0 <= i < |rows| => Some(rows[i]))
  }

  /** `sheet` is how a reader sees the written workbook `wb`: its used range
      is rows 1..lastRow, columns 1..lastCol, and each cell in it reads as the
      text written there. */
  ghost predicate Presents(sheet: Sheet, wb: Workbook, lastRow: int, lastCol: int)
  {
    && lastRow >= 1 && lastCol >= 1
    && sheet.used == Some(Extent(lastRow, lastCol))
    && forall r, c :: 1 <= r <= lastRow && 1 <= c <= lastCol ==>
         (r, c) in wb.cells && sheet.text(r, c) == TextOf(wb.cells[(r, c)])
  }

  /** The header names as the reader sees them: each one trimmed. */
  function TrimmedNames(headers: seq<string>): seq<string>
  {
    seq(|headers|, j requires 0 <= j < |headers| => Trim(headers[j]))
  }

  /** The texts the reader sees in the row of dictionary `d`: the trimmed
      text of each header's value, in header order. */
  function ValueTexts(d: Dict, headers: seq<string>): seq<string>
  {
    seq(|headers|, j requires 0 <= j < |headers| => Trim(TextOf(ValueOr(d, headers[j]))))
  }

  /** The record the reader makes of dictionary `d` under `headers`: each
      trimmed header name written, in column order, with the trimmed text of
      that header's value. */
  function ReadBack(d: Dict, headers: seq<string>): Row
  {
    FromColumns(TrimmedNames(headers), ValueTexts(d, headers))
  }

  /** The value of `k` in `d`; `null` when `d` has no `k`. */
  function ValueOr(d: Dict, k: string): Value
  {
    match Lookup(d, k)
    case Some(v) => v
    case None => None
  }

  /** The text of `sheet` is that of the written dictionaries: the used
      range is the header row and one row per dictionary, row 1 holds the
      headers and row i + 2 the text of dictionary `i`'s values. */
  ghost predicate ReadsAs(sheet: Sheet, rows: seq<Dict>, headers: seq<string>)
  {
    && |headers| >= 1
    && sheet.used == Some(Extent(|rows| + 1, |headers|))
    && (forall j :: 0 <= j < |headers| ==> sheet.text(1, j + 1) == headers[j])
    && (forall i, j :: 0 <= i < |rows| && 0 <= j < |headers| ==>
          sheet.text(i + 2, j + 1) == TextOf(ValueOr(rows[i], headers[j])))
  }

  /** Cell (1, j + 1) reads as header `j`. */
  lemma HeaderCellReadBack(sheet: Sheet, wb: Workbook, rows: seq<Dict>, sheetName: string, j: int)
    requires |rows| > 0 && 0 <= j < |Keys(rows[0])|
    requires Generate(Some(Present(rows)), sheetName) == Success(wb)
    requires Presents(sheet, wb, |rows| + 1, |Keys(rows[0])|)
    ensures sheet.text(1, j + 1) == Keys(rows[0])[j]
  {
    var data := Some(Present(rows));
    assert data.value[0] == Some(rows[0]);
    GenerateHeaderCell(data, sheetName, j);
    assert sheet.text(1, j + 1) == TextOf(wb.cells[(1, j + 1)]);
  }

  /** Cell (i + 2, j + 1) reads as the text of header `j`'s value in
      dictionary `i`. */
  lemma CellReadBack(sheet: Sheet, wb: Workbook, rows: seq<Dict>, sheetName: string, i: int, j: int)
    requires 0 <= i < |rows| && 0 <= j < |Keys(rows[0])|
    requires Generate(Some(Present(rows)), sheetName) == Success(wb)
    requires Presents(sheet, wb, |rows| + 1, |Keys(rows[0])|)
    ensures sheet.text(i + 2, j + 1) == TextOf(ValueOr(rows[i], Keys(rows[0])[j]))
  {
    var data := Some(Present(rows));
    assert data.value[0] == Some(rows[0]) && data.value[i] == Some(rows[i]);
    GenerateDataCell(data, sheetName, i, j);
    assert sheet.text(i + 2, j + 1) == TextOf(wb.cells[(i + 2, j + 1)]);
  }

  /** A sheet that presents the written workbook reads as the dictionaries. */
  lemma PresentsReadsAs(sheet: Sheet, wb: Workbook, rows: seq<Dict>, sheetName: string)
    requires |rows| > 0
    requires Generate(Some(Present(rows)), sheetName) == Success(wb)
    requires Presents(sheet, wb, |rows| + 1, |Keys(rows[0])|)
    ensures ReadsAs(sheet, rows, Keys(rows[0]))
  {
    var headers := Keys(rows[0]);
    forall j | 0 <= j < |headers| ensures sheet.text(1, j + 1) == headers[j] {
      HeaderCellReadBack(sheet, wb, rows, sheetName, j);
    }
    forall i, j | 0 <= i < |rows| && 0 <= j < |headers|
      ensures sheet.text(i + 2, j + 1) == TextOf(ValueOr(rows[i], headers[j]))
    {
      CellReadBack(sheet, wb, rows, sheetName, i, j);
    }
  }

  /** Header row read back: the reader's header is the written headers,
      each trimmed. */
  lemma HeaderReadBack(sheet: Sheet, rows: seq<Dict>, headers: seq<string>)
    requires ReadsAs(sheet, rows, headers)
    ensures Header(sheet, sheet.used.value) == TrimmedNames(headers)
  {
    var h, names := Header(sheet, sheet.used.value), TrimmedNames(headers);
    forall j | 0 <= j < |headers| ensures h[j] == names[j] {
      assert sheet.text(1, j + 1) == headers[j];
    }
  }

  /** Data row `i + 2` read back is dictionary `i` under the headers. */
  lemma RowReadBack(sheet: Sheet, rows: seq<Dict>, headers: seq<string>, i: int)
    requires 0 <= i < |rows|
    requires ReadsAs(sheet, rows, headers)
    ensures RowRecord(sheet, sheet.used.value, i + 2) == ReadBack(rows[i], headers)
  {
    var e := sheet.used.value;
    HeaderReadBack(sheet, rows, headers);
    var values, expected := RowText(sheet, i + 2, e.lastCol), ValueTexts(rows[i], headers);
    forall j | 0 <= j < |headers| ensures values[j] == expected[j] {
      assert sheet.text(i + 2, j + 1) == TextOf(ValueOr(rows[i], headers[j]));
    }
    assert values == expected;
  }

  /** A sheet that reads as the dictionaries yields one record per
      dictionary, in order, each the dictionary read back under the headers. */
  lemma ReadsAsRecords(sheet: Sheet, rows: seq<Dict>, headers: seq<string>)
    requires ReadsAs(sheet, rows, headers)
    ensures sheet.used.Some?
    ensures SheetRecords(sheet, sheet.used.value) == seq(|rows|, i requires 0 <= i < |rows| => ReadBack(rows[i], headers))
  {
    var e := sheet.used.value;
    var got := SheetRecords(sheet, e);
    var want := seq(|rows|, i requires 0 <= i < |rows| => ReadBack(rows[i], headers));
    RecordsUpToRows(sheet, e, e.lastRow);
    forall i | 0 <= i < |rows| ensures got[i] == want[i] {
      RowReadBack(sheet, rows, headers, i);
    }
    assert got == want;
  }

  /** Write, then read: the reader gets one record per dictionary, in order,
      each built from the first dictionary's keys, trimmed, and the trimmed
      text of the dictionary's values (`null` reads as empty text). Keys of
      later dictionaries that the first lacks are lost; keys that trim to the
      same name are merged, as `ReadBackFields` states. */
  lemma WriteThenRead(sheet: Sheet, rows: seq<Dict>, sheetName: string)
    requires Generate(Some(Present(rows)), sheetName).Success?
    requires |rows| > 0
    requires Presents(sheet, Generate(Some(Present(rows)), sheetName).value, |rows| + 1, |Keys(rows[0])|)
    ensures sheet.used.Some?
    ensures SheetRecords(sheet, sheet.used.value) == seq(|rows|, i requires 0 <= i < |rows| => ReadBack(rows[i], Keys(rows[0])))
  {
    PresentsReadsAs(sheet, Generate(Some(Present(rows)), sheetName).value, rows, sheetName);
    ReadsAsRecords(sheet, rows, Keys(rows[0]));
  }

  /** A dictionary read back under `headers` holds each trimmed header name
      once, in the order the trimmed names first occur, and nothing else;
      under the trimmed name of header `j` it holds the trimmed value text of
      the last header that trims to the same name. */
  lemma ReadBackFields(d: Dict, headers: seq<string>, j: int)
    requires 0 <= j < |headers|
    ensures var names, r := TrimmedNames(headers), ReadBack(d, headers);
            && DistinctKeys(r)
            && (forall k :: k in Keys(r) <==> k in names)
            && InFirstOccurrenceOrder(Keys(r), names)
            && Lookup(r, names[j]) == Some(Trim(TextOf(ValueOr(d, headers[LastIndex(names, names[j])]))))
  {
    var names, values := TrimmedNames(headers), ValueTexts(d, headers);
    FromColumnsKeys(names, values);
    FromColumnsValues(names, values, names[j]);
  }

  /** With trimmed headers whose names are distinct, a dictionary reads back
      as the headers paired with its trimmed value texts, in header order. */
  lemma ReadBackDistinct(d: Dict, headers: seq<string>)
    requires Distinct(headers)
    requires forall j :: 0 <= j < |headers| ==> IsTrimmed(headers[j])
    ensures ReadBack(d, headers) == Zip(headers, ValueTexts(d, headers))
  {
    var names := TrimmedNames(headers);
    forall j | 0 <= j < |headers| ensures names[j] == headers[j] {
      TrimTrimmed(headers[j]);
    }
    assert names == headers;
    FromColumnsDistinct(headers, ValueTexts(d, headers));
  }

  /** A dictionary as the reader returns it: the same names in the same
      order, each value as text (`null` as empty text). */
  function AsText(d: Dict): Row
  {
    seq(|d|, k requires 0 <= k < |d| => Field(d[k].name, TextOf(d[k].value)))
  }

  /** Write, then read, of dictionaries that all have the same keys in the
      same order, with trimmed keys and trimmed text values: the reader gives
      back exactly the dictionaries, values as text. (Distinct keys hold of
      every real dictionary; see `Dict`.) */
  lemma WriteThenReadExact(sheet: Sheet, wb: Workbook, rows: seq<Dict>, sheetName: string)
    requires |rows| > 0 && Keys(rows[0]) != []
    requires forall i :: 0 <= i < |rows| ==> Keys(rows[i]) == Keys(rows[0])
    requires Distinct(Keys(rows[0]))
    requires forall j :: 0 <= j < |Keys(rows[0])| ==> IsTrimmed(Keys(rows[0])[j])
    requires forall i, k :: 0 <= i < |rows| && 0 <= k < |rows[i]| ==> IsTrimmed(TextOf(rows[i][k].value))
    requires Generate(Some(Present(rows)), sheetName) == Success(wb)
    requires Presents(sheet, wb, |rows| + 1, |Keys(rows[0])|)
    ensures sheet.used.Some?
    ensures SheetRecords(sheet, sheet.used.value) == seq(|rows|, i requires 0 <= i < |rows| => AsText(rows[i]))
  {
    WriteThenRead(sheet, rows, sheetName);
    ReadBackAll(rows);
  }

  /** Dictionaries with the same distinct, trimmed keys in the same order and
      trimmed text values read back, under the first one's keys, as themselves. */
  lemma ReadBackAll(rows: seq<Dict>)
    requires |rows| > 0
    requires forall i :: 0 <= i < |rows| ==> Keys(rows[i]) == Keys(rows[0])
    requires Distinct(Keys(rows[0]))
    requires forall j :: 0 <= j < |Keys(rows[0])| ==> IsTrimmed(Keys(rows[0])[j])
    requires forall i, k :: 0 <= i < |rows| && 0 <= k < |rows[i]| ==> IsTrimmed(TextOf(rows[i][k].value))
    ensures seq(|rows|, i requires 0 <= i < |rows| => ReadBack(rows[i], Keys(rows[0])))
            == seq(|rows|, i requires 0 <= i < |rows| => AsText(rows[i]))
  {
    var headers := Keys(rows[0]);
    var readBack := seq(|rows|, i requires 0 <= i < |rows| => ReadBack(rows[i], headers));
    var asText := seq(|rows|, i requires 0 <= i < |rows| => AsText(rows[i]));
    forall i | 0 <= i < |rows| ensures readBack[i] == asText[i] {
      assert Keys(rows[i]) == headers;
      forall k | 0 <= k < |rows[i]| ensures IsTrimmed(rows[i][k].name) {
        assert rows[i][k].name == headers[k];
      }
      ReadBackExact(rows[i]);
    }
    assert readBack == asText;
  }

  /** A dictionary with distinct, trimmed keys and trimmed text values reads
      back, under its own keys, as itself. */
  lemma ReadBackExact(d: Dict)
    requires DistinctKeys(d)
    requires forall k :: 0 <= k < |d| ==> IsTrimmed(d[k].name)
    requires forall k :: 0 <= k < |d| ==> IsTrimmed(TextOf(d[k].value))
    ensures ReadBack(d, Keys(d)) == AsText(d)
  {
    var ks := Keys(d);
    ReadBackDistinct(d, ks);
    var a, b := Zip(ks, ValueTexts(d, ks)), AsText(d);
    forall k | 0 <= k < |d| ensures a[k] == b[k] {
      LookupAt(d, k);
      TrimTrimmed(TextOf(d[k].value));
    }
    assert a == b;
  }
}
