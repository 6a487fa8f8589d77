/** `CleanData`: the cleaning pipeline. It reads the two raw tables, has their column names
    rewritten, merges them, runs the two generated-code repairs and saves the result. */
module DataCleaningService {
  import opened Errors
  import opened Text
  import opened Tables
  import opened ColumnNameOutput
  import opened LlmHelper
  import opened DataFrameUtils
  import opened PandasCodeParser
  import MissingValues = HandleMissingNegativeValues
  import Inconsistencies = HandleDataInconsistencies

  const BookingsPath: string := "app/data/Flight Bookings.csv"
  const MappingPath: string := "app/data/Airline ID to Name.csv"
  const CleanedPath: string := "app/data/Clean_Booking_Details.csv"
  const RenamePromptPrefix: string := "Please correct and humanize the following column names: "
  const MergeFailureMessage: string := "Error while merging on common columns"

  /** `pd.read_csv(path)`: the table, or what it raised (`FileNotFoundError`, pandas'
      `ParserError`, or anything else). */
  type CsvReader = string -> Result<Table>

  /** What the renaming agent's run returns: the structured output of the renaming tool,
      given as the fields the completion was parsed into, or plain text when the agent
      answered without it. */
  datatype AgentAnswer = StructuredNames(fields: map<string, seq<string>>) | PlainText(text: string)

  /** `agent.run(prompt)` of the renaming agent, or what it raised. */
  type RenameAgent = string -> Result<AgentAnswer>

  /** `df.to_csv(path, index=False)`: `None`, or what it raised. */
  type CsvWriter = (string, Table) -> Option<Error>

  /** Everything the pipeline consults outside itself. */
  datatype CleaningEnv = CleaningEnv(
    readCsv: CsvReader,
    renameAgent: RenameAgent,
    missingChain: MissingValues.CodeGenerator,
    inconsistencyChain: Inconsistencies.CodeGenerator,
    exec: ExecOracle,
    writeCsv: CsvWriter)

  // ---------------------------------------------------------------------------------
  // _read_csv

  /** `_read_csv`: a missing file stays a `FileNotFoundError` with a new message, a parse
      error becomes a plain `Exception`, and anything else passes through untouched. */
  function ReadCsv(path: string, readCsv: CsvReader): (r: Result<Table>)
    ensures readCsv(path).Ok? ==> r == readCsv(path)
    ensures readCsv(path).Err? && readCsv(path).error.kind == FileNotFoundError ==>
              r == Err(Error(FileNotFoundError, "CSV file not found: " + path))
    ensures readCsv(path).Err? && readCsv(path).error.kind == ParserError ==>
              r == Err(Error(Exception, "Error parsing CSV file: " + path))
    ensures (readCsv(path).Err? && readCsv(path).error.kind != FileNotFoundError
             && readCsv(path).error.kind != ParserError) ==> r == readCsv(path)
  {
    match readCsv(path)
    case Ok(df) => Ok(df)
    case Err(e) =>
      if e.kind == FileNotFoundError then Err(Error(FileNotFoundError, "CSV file not found: " + path))
      else if e.kind == ParserError then Err(Error(Exception, "Error parsing CSV file: " + path))
      else Err(e)
  }

  /** Reading fails exactly when the reader does, with a missing file still reported as
      one, and never with a parse error. */
  lemma ReadCsvErrorClasses(path: string, readCsv: CsvReader)
    ensures ReadCsv(path, readCsv).Err? <==> readCsv(path).Err?
    ensures ReadCsv(path, readCsv).Err? ==>
              (ReadCsv(path, readCsv).error.kind == FileNotFoundError <==> readCsv(path).error.kind == FileNotFoundError)
    ensures ReadCsv(path, readCsv).Err? ==> ReadCsv(path, readCsv).error.kind != ParserError
  {
  }

  // ---------------------------------------------------------------------------------
  // _correct_column_names

  /** The prompt given to the renaming agent. */
  function RenamePrompt(columns: seq<string>): (p: string)
    ensures |p| >= |RenamePromptPrefix| && p[..|RenamePromptPrefix|] == RenamePromptPrefix
    ensures p[|RenamePromptPrefix|..] == Join(columns, ", ")
  {
    RenamePromptPrefix + Join(columns, ", ")
  }

  /** The prompt lists the columns in order: one more column adds ", " and its name at the end. */
  lemma RenamePromptSnoc(columns: seq<string>, c: string)
    requires |columns| > 0
    ensures RenamePrompt(columns + [c]) == RenamePrompt(columns) + ", " + c
  {
    JoinSnoc(columns, c, ", ");
  }

  /** pandas' message when a new column list has the wrong length. */
  function LengthMismatchMessage(expected: nat, given: nat): string {
    "Length mismatch: Expected axis has " + NatToString(expected) + " elements, new values have "
    + NatToString(given) + " elements"
  }

  function RenameErrorPrefix(agentName: string): string {
    "Error correcting column names for " + agentName + " DataFrame: "
  }

  /** The column names the agent's answer carries, as the two kinds of failure the source
      wraps alike: an answer without them, and names the validator rejects. */
  function AnswerNames(answer: AgentAnswer): (r: Result<seq<string>>)
    ensures answer.StructuredNames? ==> r.Err? == ParseColumnNamesOutput(answer.fields).Err?
    ensures r.Ok? ==> answer.StructuredNames? && r == ParseColumnNamesOutput(answer.fields)
  {
    match answer
    case PlainText(_) => Err(Error(Exception, "'str' object has no attribute 'corrected_columns'"))
    case StructuredNames(fields) =>
      match ParseColumnNamesOutput(fields)
      case Ok(names) => Ok(names)
      case Err(ve) => Err(Error(ValueError, "Error parsing the model output: " + ve.message))
  }

  /** What renaming does to a table's contents: the returned names replace the old ones
      position by position and the rows stay. An `AssertionError` raised by the agent run
      reaches the `except AssertionError` handler, which raises it again with the same
      message. Any other failed run, an unusable answer and a list of the wrong length all
      fail with a plain `Exception` naming the table. */
  function RenameSpec(t: Table, agentName: string, agent: RenameAgent): (r: Result<Table>)
    ensures var reply := agent(RenamePrompt(t.columns));
      r.Ok? <==> reply.Ok? && AnswerNames(reply.value).Ok? && |AnswerNames(reply.value).value| == |t.columns|
    ensures r.Ok? ==> r.value.columns == AnswerNames(agent(RenamePrompt(t.columns)).value).value
    ensures r.Ok? ==> r.value.rows == t.rows && |r.value.columns| == |t.columns|
    ensures var reply := agent(RenamePrompt(t.columns));
      reply.Err? && reply.error.kind == AssertionError ==> r == Err(reply.error)
    ensures var reply := agent(RenamePrompt(t.columns));
      r.Err? && r.error.kind == AssertionError ==> reply.Err? && r.error == reply.error
    ensures r.Err? && r.error.kind != AssertionError ==> r.error.kind == Exception
    ensures r.Err? && r.error.kind != AssertionError ==>
              |r.error.message| >= |RenameErrorPrefix(agentName)|
              && r.error.message[..|RenameErrorPrefix(agentName)|] == RenameErrorPrefix(agentName)
  {
    var prefix := RenameErrorPrefix(agentName);
    match agent(RenamePrompt(t.columns))
    case Err(e) => if e.kind == AssertionError then Err(e) else Err(Error(Exception, prefix + e.message))
    case Ok(answer) =>
      match AnswerNames(answer)
      case Err(e) => Err(Error(Exception, prefix + e.message))
      case Ok(names) =>
        if |names| != |t.columns| then
          Err(Error(Exception, prefix + LengthMismatchMessage(|t.columns|, |names|)))
        else Ok(Frame(names, t.rows))
  }

  /** A list of the wrong length is refused by pandas before the assert is reached, so the
      failure is the generic one carrying pandas' message, never an `AssertionError`. */
  lemma RenameCountMismatch(t: Table, agentName: string, agent: RenameAgent)
    requires agent(RenamePrompt(t.columns)).Ok?
    requires AnswerNames(agent(RenamePrompt(t.columns)).value).Ok?
    requires |AnswerNames(agent(RenamePrompt(t.columns)).value).value| != |t.columns|
    ensures RenameSpec(t, agentName, agent) ==
      Err(Error(Exception, RenameErrorPrefix(agentName)
                           + LengthMismatchMessage(|t.columns|, |AnswerNames(agent(RenamePrompt(t.columns)).value).value|)))
  {
  }

  /** `_correct_column_names`: the frame's column labels are reassigned in place and the
      same frame is returned; on failure the labels are left as they were. */
  method CorrectColumnNames(df: DataFrame, agentName: string, agent: RenameAgent) returns (r: Result<DataFrame>)
    requires df.Valid()
    modifies df`columns
    ensures df.Valid() && df.rows == old(df.rows)
    ensures RenameSpec(old(df.Snapshot()), agentName, agent).Ok? ==>
              r == Ok(df) && df.Snapshot() == RenameSpec(old(df.Snapshot()), agentName, agent).value
    ensures RenameSpec(old(df.Snapshot()), agentName, agent).Err? ==>
              r == Err(RenameSpec(old(df.Snapshot()), agentName, agent).error) && df.columns == old(df.columns)
  {
    var currentColumns := df.columns;
    var prompt := RenamePrompt(currentColumns);
    var llm := GetLlm();
    DefaultSelectsOpenAi();
    assert llm.Ok?;
    var prefix := RenameErrorPrefix(agentName);
    var reply := agent(prompt);
    if reply.Err? && reply.error.kind == AssertionError {
      r := Err(reply.error);
      return;
    }
    if reply.Err? {
      r := Err(Error(Exception, prefix + reply.error.message));
      return;
    }
    var correctedOutput := AnswerNames(reply.value);
    if correctedOutput.Err? {
      r := Err(Error(Exception, prefix + correctedOutput.error.message));
      return;
    }
    var correctedColumns := correctedOutput.value;
    if |correctedColumns| != |df.columns| {
      r := Err(Error(Exception, prefix + LengthMismatchMessage(|df.columns|, |correctedColumns|)));
      return;
    }
    df.columns := correctedColumns;
    assert |currentColumns| == |df.columns|;
    r := Ok(df);
  }

  // ---------------------------------------------------------------------------------
  // _merge_dataframes, _save_cleaned_data

  /** `_merge_dataframes`: the merge on common columns, with every failure replaced by one
      fixed `Exception`. */
  function MergeDataFrames(t1: Table, t2: Table): (r: Result<Table>)
    ensures r.Ok? <==> MergeOnCommonColumns(t1, t2).Ok?
    ensures r.Ok? ==> r.value == MergeOnCommonColumns(t1, t2).value
    ensures r.Err? ==> r.error == Error(Exception, MergeFailureMessage)
  {
    match MergeOnCommonColumns(t1, t2)
    case Ok(merged) => Ok(merged)
    case Err(_) => Err(Error(Exception, MergeFailureMessage))
  }

  /** Tables without a shared column label cannot be merged. */
  lemma NoSharedColumnsFailMerge(t1: Table, t2: Table)
    requires forall c :: c in t1.columns ==> c !in t2.columns
    ensures MergeDataFrames(t1, t2) == Err(Error(Exception, MergeFailureMessage))
  {
    assert SharedColumns(t1, t2) == {};
  }

  /** `_save_cleaned_data`: `None` once written, or the writer's error wrapped with the path. */
  function SaveCleanedData(t: Table, path: string, writeCsv: CsvWriter): (r: Option<Error>)
    ensures r.None? <==> writeCsv(path, t).None?
    ensures r.Some? ==> r.value == Error(Exception, "Failed to save cleaned DataFrame to '" + path
                                                    + "': " + writeCsv(path, t).value.message)
  {
    match writeCsv(path, t)
    case None => None
    case Some(e) => Some(Error(Exception, "Failed to save cleaned DataFrame to '" + path + "': " + e.message))
  }

  // ---------------------------------------------------------------------------------
  // clean_data

  /** The message prefix `clean_data` gives each class of error it re-raises. */
  function ClassPrefix(k: Kind): string {
    if k == FileNotFoundError then "File not found: "
    else if k == AssertionError then "Assertion error: "
    else "An error occurred during data cleaning: "
  }

  /** The handlers of `clean_data`: a missing file and a failed assertion keep their class,
      every other error becomes a plain `Exception`; the message gains the class's prefix. */
  function ClassifyCleaningError(e: Error): (r: Error)
    ensures e.kind == FileNotFoundError || e.kind == AssertionError ==> r.kind == e.kind
    ensures e.kind != FileNotFoundError && e.kind != AssertionError ==> r.kind == Exception
    ensures r.message == ClassPrefix(e.kind) + e.message
  {
    if e.kind == FileNotFoundError then Error(FileNotFoundError, "File not found: " + e.message)
    else if e.kind == AssertionError then Error(AssertionError, "Assertion error: " + e.message)
    else Error(Exception, "An error occurred during data cleaning: " + e.message)
  }

  /** The steps of `clean_data`, in the order they run. */
  datatype Step =
    | ReadBookings
    | ReadMapping
    | RenameBookings
    | RenameMapping
    | MergeTables
    | RepairMissing
    | RepairInconsistencies
    | SaveCleaned

  const StepOrder: seq<Step> :=
    [ReadBookings, ReadMapping, RenameBookings, RenameMapping, MergeTables, RepairMissing,
     RepairInconsistencies, SaveCleaned]

  /** One run of the pipeline: the table that was saved, or the error re-raised; and the
      steps that completed, in order. */
  datatype CleaningRun = CleaningRun(outcome: Result<Table>, completed: seq<Step>)

  /** A run stopped by `e` after the first `done` steps. */
  function Failed(e: Error, done: nat): (run: CleaningRun)
    requires done < |StepOrder|
    ensures run.outcome.Err? && run.outcome.error.kind in {FileNotFoundError, AssertionError, Exception}
    ensures |run.completed| == done && run.completed == StepOrder[..done] && run.completed != StepOrder
  {
    CleaningRun(Err(ClassifyCleaningError(e)), StepOrder[..done])
  }

  /** `clean_data`, step by step. The mapping table is the left one of the merge. */
  function CleaningSpec(env: CleaningEnv): (run: CleaningRun)
    ensures |run.completed| <= |StepOrder| && run.completed == StepOrder[..|run.completed|]
    ensures run.outcome.Ok? <==> run.completed == StepOrder
    ensures run.outcome.Err? ==> run.outcome.error.kind in {FileNotFoundError, AssertionError, Exception}
  {
    var bookings := ReadCsv(BookingsPath, env.readCsv);
    if bookings.Err? then Failed(bookings.error, 0) else
    var mapping := ReadCsv(MappingPath, env.readCsv);
    if mapping.Err? then Failed(mapping.error, 1) else
    var renamedBookings := RenameSpec(bookings.value, "Bookings", env.renameAgent);
    if renamedBookings.Err? then Failed(renamedBookings.error, 2) else
    var renamedMapping := RenameSpec(mapping.value, "Mappings", env.renameAgent);
    if renamedMapping.Err? then Failed(renamedMapping.error, 3) else
    var merged := MergeDataFrames(renamedMapping.value, renamedBookings.value);
    if merged.Err? then Failed(merged.error, 4) else
    var repaired := MissingValues.HandleMissingValues(merged.value, env.missingChain, env.exec);
    var consistent := Inconsistencies.HandleInconsistencies(repaired, env.inconsistencyChain, env.exec);
    var saved := SaveCleanedData(consistent, CleanedPath, env.writeCsv);
    if saved.Some? then Failed(saved.value, 7) else CleaningRun(Ok(consistent), StepOrder)
  }

  /** The two repairs never fail: once the merge is done they both complete, so a run stops
      only at a read, a rename, the merge or the save. */
  lemma RepairsNeverStopTheRun(env: CleaningEnv)
    ensures var n := |CleaningSpec(env).completed|; n >= 5 ==> n >= 7
    ensures CleaningSpec(env).outcome.Err? ==> |CleaningSpec(env).completed| in {0, 1, 2, 3, 4, 7}
  {
  }

  /** The cleaned table is written only after every earlier step succeeded, and the table
      written is the merge of the renamed tables after both repairs. */
  lemma SavedTableIsRepairedMerge(env: CleaningEnv)
    requires CleaningSpec(env).outcome.Ok?
    ensures var bookings := RenameSpec(env.readCsv(BookingsPath).value, "Bookings", env.renameAgent);
      var mapping := RenameSpec(env.readCsv(MappingPath).value, "Mappings", env.renameAgent);
      && env.readCsv(BookingsPath).Ok? && env.readCsv(MappingPath).Ok?
      && bookings.Ok? && mapping.Ok? && MergeOnCommonColumns(mapping.value, bookings.value).Ok?
      && var merged := MergeOnCommonColumns(mapping.value, bookings.value).value;
         var repaired := MissingValues.HandleMissingValues(merged, env.missingChain, env.exec);
         var saved := Inconsistencies.HandleInconsistencies(repaired, env.inconsistencyChain, env.exec);
         && CleaningSpec(env).outcome.value == saved
         && env.writeCsv(CleanedPath, saved).None?
  {
  }

  /** A missing bookings file stops the run before anything else and is re-raised as a
      `FileNotFoundError` naming the path. */
  lemma MissingBookingsFile(env: CleaningEnv)
    requires env.readCsv(BookingsPath).Err? && env.readCsv(BookingsPath).error.kind == FileNotFoundError
    ensures CleaningSpec(env) ==
      CleaningRun(Err(Error(FileNotFoundError, "File not found: " + ("CSV file not found: " + BookingsPath))), [])
  {
    var e := Error(FileNotFoundError, "CSV file not found: " + BookingsPath);
    assert ReadCsv(BookingsPath, env.readCsv) == Err(e);
  }

  /** An `AssertionError` from the renaming agent on the bookings table keeps its class
      through both handlers and ends the run with the "Assertion error: " message. */
  lemma AgentAssertionFailsRun(env: CleaningEnv, m: string)
    requires env.readCsv(BookingsPath).Ok? && env.readCsv(MappingPath).Ok?
    requires env.renameAgent(RenamePrompt(env.readCsv(BookingsPath).value.columns)) == Err(Error(AssertionError, m))
    ensures CleaningSpec(env) == CleaningRun(Err(Error(AssertionError, "Assertion error: " + m)), [ReadBookings, ReadMapping])
  {
    assert RenameSpec(env.readCsv(BookingsPath).value, "Bookings", env.renameAgent) == Err(Error(AssertionError, m));
    assert StepOrder[..2] == [ReadBookings, ReadMapping];
    assert CleaningSpec(env) == Failed(Error(AssertionError, m), 2);
  }

  /** A renamed mapping table sharing no column label with the renamed bookings stops the
      run at the merge with the generic cleaning error. */
  lemma UnmergeableTablesStopAtMerge(env: CleaningEnv)
    requires env.readCsv(BookingsPath).Ok? && env.readCsv(MappingPath).Ok?
    requires RenameSpec(env.readCsv(BookingsPath).value, "Bookings", env.renameAgent).Ok?
    requires RenameSpec(env.readCsv(MappingPath).value, "Mappings", env.renameAgent).Ok?
    requires var b := RenameSpec(env.readCsv(BookingsPath).value, "Bookings", env.renameAgent).value;
      var m := RenameSpec(env.readCsv(MappingPath).value, "Mappings", env.renameAgent).value;
      forall c :: c in m.columns ==> c !in b.columns
    ensures CleaningSpec(env) ==
      CleaningRun(Err(Error(Exception, "An error occurred during data cleaning: " + MergeFailureMessage)),
                  [ReadBookings, ReadMapping, RenameBookings, RenameMapping])
  {
    var b := RenameSpec(env.readCsv(BookingsPath).value, "Bookings", env.renameAgent).value;
    var m := RenameSpec(env.readCsv(MappingPath).value, "Mappings", env.renameAgent).value;
    NoSharedColumnsFailMerge(m, b);
    assert StepOrder[..4] == [ReadBookings, ReadMapping, RenameBookings, RenameMapping];
    assert CleaningSpec(env) == Failed(Error(Exception, MergeFailureMessage), 4);
  }

  /** `CleanData.clean_data`: the frames are real objects renamed in place, and the merged
      frame is threaded through the two repairs by reassignment. */
  method CleanData(env: CleaningEnv) returns (run: CleaningRun)
    ensures run == CleaningSpec(env)
  {
    var bookingsRead := ReadCsv(BookingsPath, env.readCsv);
    if bookingsRead.Err? {
      return Failed(bookingsRead.error, 0);
    }
    var mappingRead := ReadCsv(MappingPath, env.readCsv);
    if mappingRead.Err? {
      return Failed(mappingRead.error, 1);
    }
    var dfBookings := new DataFrame(bookingsRead.value);
    var dfMapping := new DataFrame(mappingRead.value);

    var renamed := CorrectColumnNames(dfBookings, "Bookings", env.renameAgent);
    if renamed.Err? {
      return Failed(renamed.error, 2);
    }
    dfBookings := renamed.value;
    renamed := CorrectColumnNames(dfMapping, "Mappings", env.renameAgent);
    if renamed.Err? {
      return Failed(renamed.error, 3);
    }
    dfMapping := renamed.value;

    var merged := MergeDataFrames(dfMapping.Snapshot(), dfBookings.Snapshot());
    if merged.Err? {
      return Failed(merged.error, 4);
    }
    var mergedDf := merged.value;
    mergedDf := MissingValues.HandleMissingValues(mergedDf, env.missingChain, env.exec);
    mergedDf := Inconsistencies.HandleInconsistencies(mergedDf, env.inconsistencyChain, env.exec);

    var saved := SaveCleanedData(mergedDf, CleanedPath, env.writeCsv);
    if saved.Some? {
      return Failed(saved.value, 7);
    }
    run := CleaningRun(Ok(mergedDf), StepOrder);
  }
}
