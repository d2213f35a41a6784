# ExcelHandler, modelled in Dafny

The repository is a single static class, `ExcelHandler` (`pv1/ReadExcelClass.cs`).
It converts in both directions between a spreadsheet's grid of cells and an
ordered list of records, each record mapping field names to values.

- `ReadMultipleExcelFiles(filePaths)` fails on a `null` list. Otherwise it
  opens each file in turn and takes its first worksheet. Row 1 gives the
  trimmed header names. Each later row, up to the last used row, becomes one
  record, built by one indexer write per column into an `ExpandoObject`. A
  repeated header name therefore keeps one field, at its first position,
  holding the text of the last such column. All records of all files are
  returned in file order, then row order.
- `GenerateExcelFromData(data, worksheetName = "Sheet1")` rejects a null or empty list.
  It takes the headers from the key order of the first dictionary and writes
  them into row 1. Dictionary `i` goes into row `i + 2`, one column per header.
  It then auto-fits the used range and returns the workbook.
- `GenerateExcelFromJson(jsonInput, worksheetName = "Sheet1")` rejects a null or empty
  string. It deserializes the text into a list of dictionaries, turns a JSON
  error into an `InvalidOperationException`, and otherwise delegates to
  `GenerateExcelFromData`.

The spreadsheet libraries and the JSON parser are inputs to the model:

- A sheet being read is a function from (row, column) to cell text, plus the
  used range. `None` means the sheet has no used cell.
- Opening a file is a function from path to `Option<Sheet>`.
- The deserializer is a function from text to `Malformed | Parsed(data)`.
- The sheet being written is a class `Worksheet` whose `cells` map is filled
  cell by cell. The method returns its value, a `Workbook` holding the sheet
  name and the cells.

Modules, one file each:

- `Wrappers`: `Option` and `Result`.
- `Text`: .NET `String.Trim` over `char.IsWhiteSpace`.
- `Records`: ordered association lists. `Put` updates a field in place or
  appends it, `Lookup` finds a field.
- `Reader`, `Writer` and `JsonWriter`: the three entry points.
- `RoundTrip`: writing, then reading back.

Each method is proved against a specification function: `ReadAll`,
`SheetRecords`, `RowRecord` and `Header` for the reader, `Generate` for the
writer. The lemmas state what those functions mean.

Behaviour of the code that is easy to get wrong, and that the model keeps:

- **A sheet with no used cell is a failure** (`EmptySheet`), not "no records".
  `LastRowUsed()` then returns `null` and line 24 dereferences it.
- **An empty JSON string is an argument error** (`InvalidArgument`, line 110),
  not a malformed-input error. Only a `JsonException` from the parser becomes
  `InvalidOperation`.
- **A later dictionary that lacks a header key makes the call fail** with
  `KeyNotFound` (line 88). The code never writes a blank in its place.
- **A first dictionary with no keys fails with a null reference.** Nothing is
  written, so `worksheet.Dimension` is `null` at line 93.
- **A `null` dictionary makes the call fail with a null reference.** A JSON
  document such as `[null]` produces one.
  - If it is the first, it fails at line 74.
  - If it comes later, it fails at line 88, as soon as there is a header to
    look up.
- **The first failing dictionary, in list order, decides the error.** The
  loop of lines 83-90 stops at the first row that throws
  (`Writer.FirstErrorAt`). So `[{"a":1}, null, {}]` fails with a null
  reference, and `[{"a":1}, {}, null]` fails with `KeyNotFound("a")`
  (`Writer.EarlierRowWins`).
- **A `null` list of paths fails with a null reference** (`NullPaths`) at the
  `foreach` of line 19.
- **A round trip is exact only under conditions.** The reader trims every
  cell and keys a record by the first dictionary's keys. A key `" a"` reads
  back as `"a"`. Keys that trim to the same name become one field, holding
  the value of the last such column. Write-then-read gives back the
  dictionaries exactly, with each value as text (a `null` value reads back as
  `""`), only when all of these hold:
  - every dictionary has the same keys, in the same order;
  - the keys are distinct, as a dictionary's keys always are;
  - keys and text values are already trimmed.

  `RoundTrip.WriteThenRead` states the general case, with no condition on the
  keys, and `RoundTrip.ReadBackFields` says what each record read back holds.

## Model

| member | source | states |
|---|---|---|
| Text.TrimStartSpec | pv1/ReadExcelClass.cs:42 | trimming the start drops a whitespace-only prefix and keeps a suffix that does not start with whitespace |
| Text.TrimEndSpec | pv1/ReadExcelClass.cs:42 | trimming the end drops a whitespace-only suffix and keeps a prefix that does not end with whitespace |
| Text.TrimIsTrimmed | pv1/ReadExcelClass.cs:42 | the trimmed text neither starts nor ends with whitespace |
| Text.TrimFrames | pv1/ReadExcelClass.cs:42 | the trimmed text has no whitespace at either end, and the original is that text framed by whitespace on both sides |
| Text.TrimTrimmed | pv1/ReadExcelClass.cs:31 | text with no surrounding whitespace is left unchanged by `Trim` |
| Text.TrimIdempotent | pv1/ReadExcelClass.cs:42 | trimming twice is trimming once |
| Records.Keys | pv1/ReadExcelClass.cs:74 | the key list has one entry per field, entry `i` being field `i`'s name (`Keys.ToList()`) |
| Records.Lookup | pv1/ReadExcelClass.cs:88 | the indexer read finds nothing exactly when the key is not among the record's keys (`KeyNotFoundException`) |
| Records.PutSpec | pv1/ReadExcelClass.cs:43 | an indexer write keeps an existing key in its place, or appends a new key at the end; the key then reads back as the written value |
| Records.PutOther | pv1/ReadExcelClass.cs:43 | an indexer write leaves every other key's value unchanged |
| Records.PutDistinct | pv1/ReadExcelClass.cs:43 | indexer writes keep a record's keys distinct |
| Records.PutFresh | pv1/ReadExcelClass.cs:43 | writing a key the record lacks appends exactly one field |
| Records.LookupAt | pv1/ReadExcelClass.cs:88 | with distinct keys, reading field `j`'s name gives field `j`'s value |
| Records.FromColumnsKeys | pv1/ReadExcelClass.cs:40-44 | writing the columns in order gives distinct keys, exactly the column names, in the order in which each name first occurs |
| Records.FromColumnsValues | pv1/ReadExcelClass.cs:40-44 | a repeated column name holds the value of its last column |
| Records.FromColumnsDistinct | pv1/ReadExcelClass.cs:40-44 | with distinct column names the record is the names zipped with the values, in column order |
| Reader.RecordsUpToRows | pv1/ReadExcelClass.cs:35-47 | a sheet yields `lastRow - 1` records, record `i` coming from row `i + 2` |
| Reader.AndThenAssociative | pv1/ReadExcelClass.cs:19-49 | sequencing the reads of three groups of files does not depend on grouping |
| Reader.ReadAllConcat | pv1/ReadExcelClass.cs:19-49 | reading `ps + qs` yields the records of `ps` followed by those of `qs`, and fails if either part fails |
| Reader.ReadAllSucceeds | pv1/ReadExcelClass.cs:19-49 | reading succeeds exactly when every file opens and has a used cell, and then yields the sum over files of `lastRow - 1` records |
| Reader.ReadHeader | pv1/ReadExcelClass.cs:28-32 | the header has `lastCol` entries, entry `c - 1` being the trimmed text of cell `(1, c)` |
| Reader.RowRecordKeys | pv1/ReadExcelClass.cs:37-44 | a data row's record holds every header name once, in first-occurrence order, and nothing else |
| Reader.RowRecordValue | pv1/ReadExcelClass.cs:40-44 | under header name `c - 1`, a data row's record holds the trimmed text of the last column that carries that name |
| Reader.ReadRecord | pv1/ReadExcelClass.cs:37-44 | the loop of indexer writes builds exactly the row's specified record |
| Reader.ReadSheet | pv1/ReadExcelClass.cs:23-47 | an empty sheet fails; otherwise the result is `lastRow - 1` records, record `i` being that of row `i + 2` |
| Reader.ReadMultipleExcelFiles | pv1/ReadExcelClass.cs:15-52 | a `null` list fails with a null reference; no files yield no records; otherwise the result is the files read in order with the first failure winning, as `ReadAll` specifies |
| Writer.Worksheet.constructor | pv1/ReadExcelClass.cs:71 | a new worksheet has the given name and no cells |
| Writer.Worksheet.SetCell | pv1/ReadExcelClass.cs:88 | setting a cell changes that cell only |
| Writer.MissingKey | pv1/ReadExcelClass.cs:86-89 | no error exactly when the dictionary has every header; an error names a header the dictionary lacks |
| Writer.FirstError | pv1/ReadExcelClass.cs:83-90 | no error exactly when every row writes; an error is the error of some row |
| Writer.FirstErrorAt | pv1/ReadExcelClass.cs:83-90 | the error reported is that of the first failing row |
| Writer.MissingKeyAt | pv1/ReadExcelClass.cs:86-89 | the key reported missing is the first header, in header order, that the dictionary lacks |
| Writer.CompleteRows | pv1/ReadExcelClass.cs:83-90 | when no row fails and there is a header, every row is present and has every header |
| Writer.GridCells | pv1/ReadExcelClass.cs:77-90 | the specified grid covers exactly rows `1..n+1` and columns `1..H` |
| Writer.WrittenEmpty | pv1/ReadExcelClass.cs:93 | nothing is written exactly when there are no headers (`Dimension` is `null`) |
| Writer.WriteHeader | pv1/ReadExcelClass.cs:76-80 | row 1 holds the headers in order, and no other cell is written |
| Writer.WriteRow | pv1/ReadExcelClass.cs:85-89 | the row fails exactly as `RowError` says; otherwise it writes each header's value in its column of row `r` and changes no other row |
| Writer.GenerateExcelFromData | pv1/ReadExcelClass.cs:60-98 | the filled worksheet or the error is exactly the one `Generate` specifies |
| Writer.GenerateSucceeds | pv1/ReadExcelClass.cs:60-98 | writing succeeds exactly when the list is non-empty, the first dictionary is present and has a key, and every dictionary is present with every key of the first |
| Writer.GenerateIsGrid | pv1/ReadExcelClass.cs:74-90 | a successful write is the grid of the rows under the first dictionary's keys |
| Writer.GenerateWritten | pv1/ReadExcelClass.cs:71-90 | a successful write names the sheet as asked and writes exactly rows `1..n+1` and columns `1..H`, nothing beyond |
| Writer.GenerateHeaderCell | pv1/ReadExcelClass.cs:74-80 | cell `(1, j + 1)` holds the first dictionary's `j`-th key |
| Writer.GenerateDataCell | pv1/ReadExcelClass.cs:83-90 | dictionary `i` has header `j`, and cell `(i + 2, j + 1)` holds its value (`null` stays `null`) |
| Writer.GenerateKeyNotFound | pv1/ReadExcelClass.cs:74-88 | a key-not-found failure names a key of the first dictionary that some later dictionary lacks |
| Writer.MissingKeyFails | pv1/ReadExcelClass.cs:86-88 | when all dictionaries are present, a later one lacking a key of the first makes the write fail with key-not-found |
| Writer.EarlierRowWins | pv1/ReadExcelClass.cs:83-90 | the earliest failing dictionary decides the error: `[{"a":1}, null, {}]` fails with a null reference and `[{"a":1}, {}, null]` with key-not-found for "a" |
| Writer.ExtraKeysIgnored | pv1/ReadExcelClass.cs:74-90 | adding a key the first dictionary lacks to a later dictionary changes neither the written workbook nor the error |
| JsonWriter.GenerateExcelFromJson | pv1/ReadExcelClass.cs:106-125 | null or empty text is an argument error before decoding; a parse failure is an invalid operation; otherwise the result is exactly the data writer's, its argument error for an empty or `null` list included |
| JsonWriter.GenerateNeverInvalidOperation | pv1/ReadExcelClass.cs:113-124 | the data writer never fails with an invalid operation, so a malformed document is told apart from every failure of decoded data |
| RoundTrip.PresentsReadsAs | pv1/ReadExcelClass.cs:77-90 | a sheet showing the written workbook reads as the headers in row 1 and dictionary `i`'s value texts in row `i + 2` |
| RoundTrip.HeaderReadBack | pv1/ReadExcelClass.cs:28-32 | the reader's header is the written headers, each trimmed |
| RoundTrip.RowReadBack | pv1/ReadExcelClass.cs:35-47 | row `i + 2` reads back as the trimmed headers written, in column order, with the trimmed texts of dictionary `i`'s values |
| RoundTrip.ReadsAsRecords | pv1/ReadExcelClass.cs:35-47 | a sheet showing the dictionaries yields one record per dictionary, in order, each that dictionary read back |
| RoundTrip.WriteThenRead | pv1/ReadExcelClass.cs:15-98 | for any keys, writing and then reading gives one record per dictionary, in order, each built from the first dictionary's keys, trimmed, and the trimmed text of its values |
| RoundTrip.ReadBackFields | pv1/ReadExcelClass.cs:40-44 | a record read back holds each trimmed header name once, in first-occurrence order, and nothing else; a name holds the value text of the last header that trims to it |
| RoundTrip.ReadBackDistinct | pv1/ReadExcelClass.cs:40-44 | with distinct, trimmed headers, a record read back is the headers paired with the trimmed value texts, in header order |
| RoundTrip.WriteThenReadExact | pv1/ReadExcelClass.cs:15-98 | for dictionaries with the same distinct, trimmed keys in the same order and trimmed text values, reading back gives exactly the dictionaries, values as text |

## Left out

- Opening a workbook (`new XLWorkbook`) and disposing of it are file I/O in a foreign library. A sheet is an input, and a file that cannot be opened is `Unreadable`.
- Cell values are taken as text. `GetString()` (line 31) and `Value.ToString()` (line 42) are library conversions, assumed here to give the same text, and a conversion that fails is not modelled.
- Dictionary values are `Option<string>`. The text `object.ToString()` gives for a runtime type is not modelled.
- `Worksheets.Add` validates sheet names: length, forbidden characters and duplicates. The model records the name without checking it.
- `AutoFitColumns()` computes column widths from font metrics. Only its `null` `Dimension` failure on an empty sheet is kept.
- `GetAsByteArray()` serialises the workbook to bytes. The model returns the abstract workbook instead.
- The JSON parser `JsonSerializer.Deserialize` is an uninterpreted parameter.
- The row and column limits of spreadsheet files are not modelled, since integers are unbounded.
- RoundTrip.WriteThenRead assumes a reader sees the written cells, through the predicate `Presents`. This includes the used range being the whole written grid, which a `null` value in the last row or column could shrink in a real file.
- Records.Lookup and Writer.MissingKey compare keys by ordinal string equality. That is the default comparer of `Dictionary<string, object>`, and the one the JSON deserializer's dictionaries use. A dictionary built with another comparer, such as a case-insensitive one, is not modelled; for it the lookup at line 88 can match a key that differs in case, and `Writer.ExtraKeysIgnored` need not hold.
- The records of files read before a failing one are discarded by the model. The source discards them too, because the exception leaves the method.
