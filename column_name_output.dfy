/** `ColumnNamesOutput`: the structured result of the column-renaming tool. */
module ColumnNameOutput {
  import opened Errors

  const FieldName: string := "corrected_columns"

  /** The `no_empty_columns` validator: only emptiness of the list is checked, so empty
      names and repeated names pass, and an accepted list comes back as it was. */
  function NoEmptyColumns(value: seq<string>): (r: Result<seq<string>>)
    ensures r.Ok? <==> |value| > 0
    ensures r.Ok? ==> r.value == value
    ensures r.Err? ==> r.error == Error(ValueError, "The corrected_columns list cannot be empty.")
  {
    if |value| == 0 then Err(Error(ValueError, "The corrected_columns list cannot be empty."))
    else Ok(value)
  }

  /** Building a `ColumnNamesOutput` from the fields a completion was parsed into: the field
      is required and has no default; a present list then goes through the validator.
      pydantic reports both failures as a `ValidationError`, which is a `ValueError`. */
  function ParseColumnNamesOutput(fields: map<string, seq<string>>): (r: Result<seq<string>>)
    ensures FieldName !in fields ==> r == Err(Error(ValueError, "Field required"))
    ensures r.Ok? <==> FieldName in fields && |fields[FieldName]| > 0
    ensures r.Ok? ==> r.value == fields[FieldName]
    ensures r.Err? ==> IsValueError(r.error.kind)
  {
    if FieldName !in fields then Err(Error(ValueError, "Field required"))
    else NoEmptyColumns(fields[FieldName])
  }
}
