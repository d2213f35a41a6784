/** `ExcelHandler.GenerateExcelFromJson`: a JSON document, decoded to a list
    of dictionaries, handed to `GenerateExcelFromData`. */
module JsonWriter {
  import opened Wrappers
  import opened Records
  import opened Writer

  const JsonRequiredMessage := "JSON input is required."

  const InvalidJsonMessage := "Formato de JSON inválido."

  /** What the JSON deserializer gives for a document: `Malformed` when it
      throws a `JsonException`, otherwise the decoded list (`None` for the
      document `null`). */
  datatype Decoded = Malformed | Parsed(data: Data)

  type Deserializer = string -> Decoded

  /** `GenerateExcelFromJson`: a `null` or empty document is refused before
      decoding; a document the deserializer rejects becomes an invalid
      operation; anything else is written exactly as `GenerateExcelFromData`
      writes the decoded list, errors included. */
  method GenerateExcelFromJson(jsonInput: Option<string>, deserialize: Deserializer, worksheetName: string := DefaultSheetName)
    returns (result: Result<Workbook, WriteError>)
    ensures jsonInput.None? || jsonInput.value == [] ==>
              result == Failure(InvalidArgument(JsonRequiredMessage))
    ensures jsonInput.Some? && jsonInput.value != [] && deserialize(jsonInput.value).Malformed? ==>
              result == Failure(InvalidOperation(InvalidJsonMessage))
    ensures jsonInput.Some? && jsonInput.value != [] && deserialize(jsonInput.value).Parsed? ==>
              result == Generate(deserialize(jsonInput.value).data, worksheetName)
  {
    if jsonInput.None? || jsonInput.value == [] {
      return Failure(InvalidArgument(JsonRequiredMessage));
    }
    var decoded := deserialize(jsonInput.value);
    if decoded.Malformed? {
      return Failure(InvalidOperation(InvalidJsonMessage));
    }
    result := GenerateExcelFromData(decoded.data, worksheetName);
  }

  /** The data writer never fails with an invalid operation, so a malformed
      document is told apart from every failure of the decoded data. */
  lemma GenerateNeverInvalidOperation(data: Data, sheetName: string)
    ensures Generate(data, sheetName).Failure? ==> !Generate(data, sheetName).error.InvalidOperation?
  {
    if data.Some? && data.value != [] && data.value[0].Some? {
      var rows, headers := data.value, Keys(data.value[0].value);
      if FirstError(rows, headers).Some? {
        var i :| 0 <= i < |rows| && RowError(rows[i], headers) == FirstError(rows, headers);
      }
    }
  }
}
