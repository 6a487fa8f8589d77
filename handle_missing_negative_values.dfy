/** `handle_missing_values`: ask the language model for pandas code that repairs missing and
    negative numbers, run it, and fall back to the input table on any failure. */
module HandleMissingNegativeValues {
  import opened Errors
  import opened Text
  import opened Tables
  import opened PandasCodeParser

  /** The number of rows `df.head()` samples. */
  const SampleRows: nat := 5

  /** `chain.invoke({"columns": ..., "data_sample": ...}).content`: the completion for the
      column names and the sample, or what the call raised. The prompt wording and the model
      are not modelled. */
  type CodeGenerator = (seq<string>, Table) -> Result<string>

  /** The generator sees the column names in order and the first min(5, n) rows. Text that
      fails validation, an `exec` that raises, and a `cleaned_df` that is missing, `None`
      or not a DataFrame all leave the input table as the result; otherwise the result is
      the DataFrame the code bound to `cleaned_df`. The result is a table in every case:
      no `Exception` escapes. */
  function HandleMissingValues(df: Table, chain: CodeGenerator, exec: ExecOracle): (r: Table)
    ensures var reply := chain(df.columns, Head(df, SampleRows));
      && (reply.Err? ==> r == df)
      && (reply.Ok? && !Contains(reply.value, DefMarker) ==> r == df)
      && (reply.Ok? && NoFence(reply.value) ==> r == df)
      && (reply.Ok? && ValidateAndExtractFunctions(reply.value).Ok? ==>
            var out := exec(ValidateAndExtractFunctions(reply.value).value, ExecGlobals(), ExecLocals(df));
            && (out.Raised? ==> r == df)
            && (out.Finished? && !Lookup(out.locals, "cleaned_df").PyFrame? ==> r == df)
            && (out.Finished? && Lookup(out.locals, "cleaned_df").PyFrame? ==> PyFrame(r) == out.locals["cleaned_df"]))
  {
    var columns := df.columns;
    var dataSample := Head(df, SampleRows);
    match chain(columns, dataSample)
    case Err(_) => df
    case Ok(generatedCode) =>
      match ParseAndExecute(generatedCode, df, exec)
      case Ok(cleaned) => cleaned
      case Err(_) => df
  }
}
