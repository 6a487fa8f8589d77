# Airline booking data cleaning, modelled in Dafny

The application cleans two raw CSV tables of flight bookings. It runs at start-up, before it serves questions about the bookings. The pipeline (`CleanData.clean_data`) has these steps:

1. It reads the bookings table and the airline-id-to-name table.
2. A language-model agent rewrites each table's column labels.
3. It merges the two tables on their shared labels.
4. Two repairs ask a language model for pandas code and execute it through `PandasCodeParser`. If anything fails, a repair falls back to its input table.
5. It writes the cleaned table to a file.

`app/main.py` retries the pipeline and the construction of a pandasai question-answering agent up to five times. It then serves an index page and an `/insights` endpoint. `tests/test_services.py` is a smoke test: it derives a departure month and reports the most frequent airline and month.

The model is in Dafny, one module per source file:

| file | module |
|---|---|
| `errors.dfy` | `Errors` |
| `text.dfy` | `Text` |
| `tables.dfy` | `Tables` |
| `dataframe_utils.dfy` | `DataFrameUtils` |
| `column_name_output.dfy` | `ColumnNameOutput` |
| `llm_helper.dfy` | `LlmHelper` |
| `inconsistencies_output.dfy` | `PandasCodeParser` |
| `handle_missing_negative_values.dfy` | `HandleMissingNegativeValues` |
| `handle_data_inconsistencies.dfy` | `HandleDataInconsistencies` |
| `data_cleaning_service.dfy` | `DataCleaningService` |
| `main.dfy` | `AppMain` |
| `test_services.dfy` | `TestServices` |

The first three modules are shared ground:
- `Errors` holds Python exceptions as values (class and message), plus `Result` and `Option`.
- `Text` holds the Python string operations the code relies on.
- `Tables` holds a DataFrame's contents as a value: column labels plus rows, every row as wide as the label list.

Most of the source computes values, and the model does too. Where the source updates things in place, the model is imperative:
- **Renaming.** `df.columns = ...` becomes the class `Tables.DataFrame` and the method `DataCleaningService.CorrectColumnNames`, which modifies the `columns` field.
- **The pipeline.** `DataCleaningService.CleanData` is a method that allocates those frames.
- **Execution.** `PandasCodeParser.Execute` builds the `exec` namespaces.
- **The start-up loop.** `AppMain.Startup` keeps the source's `while` loop, with its invariants.
- **The smoke test.** `TestServices.TestQuestions` is a class whose `data` field `preprocess_data` reassigns.

Each method is proved equal to a specification function. The properties are proved about those functions.

Everything outside the program is a parameter of the model:
- reading and writing CSV files;
- the renaming agent's `run`;
- the two completion chains;
- Python's `exec`;
- pandasai's construction, training, rephrasing and chat;
- opening `index.html`;
- `pd.to_datetime` and `month_name`.

Each of these is a function from its inputs to a result or a raised error. The model proves its properties for every such function.

Where the code and its documentation disagree, the model follows the code:

- **The column-count mismatch.** `_correct_column_names` documents an `AssertionError`, and so does `clean_data`. The code assigns the new labels first, and pandas refuses a list of the wrong length with its own `ValueError` ("Length mismatch"). The generic handler wraps that error as a plain `Exception`, so the `assert` is never reached with a wrong count. `DataCleaningService.RenameCountMismatch` states this. The `except AssertionError` handler of `_correct_column_names` therefore only matters for an `AssertionError` raised inside the agent's run. It raises that error again with its message unchanged, and `clean_data` reports it as "Assertion error: ..." (`DataCleaningService.AgentAssertionFailsRun`).
- **The cleaned file name.** The pipeline writes `app/data/Clean_Booking_Details.csv`. The start-up code reads `app/data/Clean Booking Details.csv`, with a space instead of an underscore. Both names are modelled as they are written.
- **A failed training step.** The global `agent` is bound before it is trained. A training failure therefore leaves an agent bound, trained on zero or one of the two documents.
- **The `def` test.** It is a plain substring test over the whole completion, so `default` passes it. It need not lie inside the code block.

## Model

| member | source | states |
|---|---|---|
| `Text.Strip` | app/models/inconsistencies_output.py:66 | `str.strip()`: the result is a contiguous slice of the input, with only whitespace cut on either side. Neither end of the result is whitespace. |
| `Text.ContainsIffFound` | app/models/inconsistencies_output.py:59 | The substring test `'def' in value` holds exactly when a left-to-right search finds an occurrence. |
| `Text.Contains` | app/models/inconsistencies_output.py:59 | `pat in s`: a true test means the pattern fits in the text, and the empty pattern is in every text. |
| `Text.FindFrom` | app/models/inconsistencies_output.py:64 | `s.find(pat, from)`: a found position holds the pattern, at or after `from`, and no earlier position from `from` on does. Finding nothing means no position from `from` on holds it. |
| `Text.Join` | app/services/data_cleaning_service.py:127 | `sep.join(items)`: the empty list gives "". Otherwise the length is the items' total plus one separator between neighbours, and the result starts with the first item. |
| `Text.JoinSnoc` | app/services/data_cleaning_service.py:127 | `", ".join`: appending an item appends one separator and the item. |
| `Tables.Head` | app/services/handle_missing_negative_values.py:60 | `df.head()`: same columns; the first min(n, rows) rows, in order. |
| `Tables.Column` | tests/test_services.py:90 | `df[c]`: one cell per row, each the row's cell under the column labelled `c`. This holds for unique labels, which `read_csv` gives. For a duplicated label pandas returns every such column, and the model takes the first. |
| `Tables.IndexOfAppend` | tests/test_services.py:72 | Adding a column at the right keeps every existing column's position. The new label goes last. |
| `DataFrameUtils.MergeOn` | app/utils/dataframe_utils.py:42 | `pd.merge(df1, df2, on=keys, how='inner')` fails exactly when some key label is not unique in one of the tables. The `ValueError` then reads "The column label '<key>' is not unique." for such a key. On success the columns are df1's followed by df2's non-key columns. |
| `DataFrameUtils.MergeOnCommonColumns` | app/utils/dataframe_utils.py:32-48 | No shared label gives the "No common columns" `ValueError`. A non-unique key label gives the "Failed to merge DataFrames: " error. Otherwise the merge succeeds with df1's columns followed by df2's non-key columns. Every error is a `ValueError`. |
| `DataFrameUtils.MergeOnIgnoresKeyOrder` | app/utils/dataframe_utils.py:32-42 | The merge depends only on the set of join keys, not on the order `list(set(...))` gives them. |
| `DataFrameUtils.MergeRowsAreMatchingPairs` | app/utils/dataframe_utils.py:42 | The inner join's rows are exactly the combinations of a df1 row and a df2 row that agree on every shared column. |
| `DataFrameUtils.MergeHasOneRowPerAgreeingPair` | app/utils/dataframe_utils.py:42 | The inner join has exactly one row per pair (i, j) of a df1 row and a df2 row that agree on every shared column. The i-th df1 row is followed by the j-th df2 row's other cells. The pairs come df1 row by df1 row, and within one df1 row in df2 order, each exactly once. |
| `DataFrameUtils.MergeRowsArePairRows` | app/utils/dataframe_utils.py:42 | The merged rows are, in order, the output rows of the agreeing index pairs. |
| `DataFrameUtils.AgreeingPairsMembers` | app/utils/dataframe_utils.py:42 | The list of index pairs from df1 row `i` on holds exactly the agreeing pairs with a df1 index of at least `i`. |
| `DataFrameUtils.AgreeingPairsSorted` | app/utils/dataframe_utils.py:42 | The list of index pairs is strictly increasing in left-major order, so no pair occurs twice. |
| `DataFrameUtils.JoinRowsMembers` | app/utils/dataframe_utils.py:42 | A row is in the join exactly when some left row and some right row match on the keys and combine to it. |
| `DataFrameUtils.ChunkDataFrame` | app/utils/dataframe_utils.py:51-76 | The size defaults to 100. A non-positive size raises the `ValueError`. A positive size gives chunks with the original columns whose rows concatenate to the table's rows. Every chunk but the last holds exactly `chunk_size` rows, the last holds 1 to `chunk_size`, and there are no chunks only for an empty table. |
| `DataFrameUtils.ChunksFrom` | app/utils/dataframe_utils.py:73 | The chunks from row `from` keep the columns and concatenate to the rows from `from` on. All but the last hold `size` rows and the last holds 1 to `size`. There is one chunk per start index of `range(from, len(df), size)`. |
| `DataFrameUtils.RangeLengthBounds` | app/utils/dataframe_utils.py:73 | A `range(from, n, size)` with k elements and `from < n` satisfies (k-1)·size < n-from <= k·size. |
| `DataFrameUtils.RangeLengthCeiling` | app/utils/dataframe_utils.py:73 | `len(range(0, n, size))` is the ceiling of n / size. |
| `DataFrameUtils.ChunksFromCount` | app/utils/dataframe_utils.py:73 | The chunks starting at row `from` number k, where (k-1)·size < rows-from <= k·size. |
| `DataFrameUtils.ChunkCount` | app/utils/dataframe_utils.py:73 | The number of chunks is the ceiling of rows / `chunk_size`. |
| `ColumnNameOutput.NoEmptyColumns` | app/models/column_name_output.py:19-35 | The list is accepted, unchanged, exactly when it is non-empty. Otherwise the validator's `ValueError` is raised. |
| `ColumnNameOutput.ParseColumnNamesOutput` | app/models/column_name_output.py:12-35 | The field is required. Construction succeeds exactly when it is present and non-empty, and yields that list. Every failure is a `ValueError`. |
| `LlmHelper.GetLlm` | app/utils/llm_helper.py:44-70 | "groq" in any ASCII case selects Groq's `llama-3.1-8b-instant`. "openai", "gpt" or "" selects `gpt-4o`. Both use temperature 0. Any other name gives a `RuntimeError` quoting the name twice. |
| `LlmHelper.Lower` | app/utils/llm_helper.py:49 | `s.lower()` on ASCII: the same length, each character lowered on its own. |
| `LlmHelper.DefaultSelectsOpenAi` | app/utils/llm_helper.py:23-57 | The default argument selects OpenAI. |
| `LlmHelper.SelectionIsExclusive` | app/utils/llm_helper.py:49-70 | No name selects both backends. A name succeeds exactly when it names one of them, with temperature 0. Failure is always a `RuntimeError`. |
| `LlmHelper.CaseInsensitiveSelection` | app/utils/llm_helper.py:49-64 | Every mix of letter cases of "groq", "openai" or "gpt" selects that backend. |
| `LlmHelper.SelectionIgnoresCase` | app/utils/llm_helper.py:49-57 | Names equal after `lower()` select the same backend or fail alike. |
| `PandasCodeParser.FindFence` | app/models/inconsistencies_output.py:64 | Searching for the first opener, then the first closer after it, finds exactly the match of the lazy DOTALL pattern: the leftmost start, then the shortest group. It finds nothing exactly when no match exists. |
| `PandasCodeParser.FirstFenceUnique` | app/models/inconsistencies_output.py:64 | The pattern's match is unique. |
| `PandasCodeParser.ValidateAndExtractFunctions` | app/models/inconsistencies_output.py:43-71 | Without `def` it raises "must contain function definitions". With `def` but no fenced block it raises "Code block not found". With `def` and a fenced block it accepts, returning the stripped group of the pattern's match. |
| `PandasCodeParser.ExtractedCodeIsClean` | app/models/inconsistencies_output.py:64-68 | Extracted code contains no closing fence, has no surrounding whitespace, and is unchanged by a second strip. |
| `PandasCodeParser.DefCheckComesFirst` | app/models/inconsistencies_output.py:59-71 | Text lacking both `def` and a fence fails with the `def` message. |
| `PandasCodeParser.DefOutsideFenceAccepted` | app/models/inconsistencies_output.py:59-68 | "default" before a fenced "x" is accepted as the code "x". |
| `PandasCodeParser.EmptyBlockAccepted` | app/models/inconsistencies_output.py:64-68 | An empty fenced block is accepted as empty code. |
| `PandasCodeParser.Lookup` | app/models/inconsistencies_output.py:101 | `local_vars.get(name)`: the bound value when the name is bound. `None` exactly when the name is unbound or bound to `None`. |
| `PandasCodeParser.ExecGlobals` | app/models/inconsistencies_output.py:94-97 | The globals dict passed to `exec` holds exactly `pd` and `np`. Python adds `__builtins__` to it when the code runs, so the builtins stay reachable. |
| `PandasCodeParser.ExecLocals` | app/models/inconsistencies_output.py:93 | The executed code's locals are exactly `df`, bound to the input table. |
| `PandasCodeParser.ExecuteOutcome` | app/models/inconsistencies_output.py:99-113 | Execution succeeds exactly when `exec` finishes and `cleaned_df` is bound to a DataFrame. The result is that DataFrame. |
| `PandasCodeParser.ExecuteFailures` | app/models/inconsistencies_output.py:102-120 | An unbound `cleaned_df`, or one bound to `None`, gives "did not define"; a non-DataFrame gives "is not a pandas DataFrame". A `ValueError` from the code is re-raised unchanged. Any other exception becomes `Exception("An error occurred during code execution: ...")`. |
| `PandasCodeParser.Execute` | app/models/inconsistencies_output.py:73-120 | The method that builds the namespaces and runs `exec` returns exactly `ExecuteOutcome`. |
| `PandasCodeParser.ParseAndExecute` | app/services/handle_data_inconsistencies.py:87-88 | Constructing the parser runs the validator. A rejected completion re-raises its error; accepted code is executed. |
| `PandasCodeParser.UnvalidatedTextNeverRuns` | app/services/handle_data_inconsistencies.py:87-88 | For a rejected completion, the outcome does not depend on `exec` and is a `ValueError`. |
| `HandleMissingNegativeValues.HandleMissingValues` | app/services/handle_missing_negative_values.py:38-85 | The generator sees the columns and the first five rows. A failed call, a missing `def`, a missing fence, an `exec` that raises, or a missing or non-DataFrame `cleaned_df` each return the input unchanged. Otherwise the result is `cleaned_df`. |
| `HandleDataInconsistencies.HandleInconsistencies` | app/services/handle_data_inconsistencies.py:51-98 | The same fallbacks as the missing-values repair, for the inconsistency chain. |
| `DataCleaningService.ReadCsv` | app/services/data_cleaning_service.py:84-108 | A missing file is re-raised as `FileNotFoundError("CSV file not found: path")`. A parse error becomes `Exception("Error parsing CSV file: path")`. Anything else passes through. |
| `DataCleaningService.ReadCsvErrorClasses` | app/services/data_cleaning_service.py:99-108 | Reading fails exactly when the reader fails. It reports a missing file exactly when the reader did, and never reports a parse error. |
| `DataCleaningService.RenamePrompt` | app/services/data_cleaning_service.py:125-128 | The prompt is the fixed request followed by the current labels joined with ", ". |
| `DataCleaningService.RenamePromptSnoc` | app/services/data_cleaning_service.py:127 | The prompt lists the labels in order: one more label adds ", " and the label at the end. |
| `DataCleaningService.AnswerNames` | app/services/data_cleaning_service.py:134-135 | The answer yields names exactly when it is a structured output that passes validation. |
| `DataCleaningService.RenameSpec` | app/services/data_cleaning_service.py:125-147 | Renaming succeeds exactly when the agent answers with valid names of the right count. The names then replace the labels position by position and the rows are kept. An `AssertionError` raised by the agent is raised again unchanged by the `except AssertionError` handler. Every other failure is an `Exception` whose message starts "Error correcting column names for <name> DataFrame: ". |
| `DataCleaningService.RenameCountMismatch` | app/services/data_cleaning_service.py:136-147 | A wrong count fails with pandas' length-mismatch message inside the generic error, not with an `AssertionError`. |
| `DataCleaningService.CorrectColumnNames` | app/services/data_cleaning_service.py:110-147 | The frame's labels are reassigned in place as `RenameSpec` says, and the same frame is returned. On failure the labels are unchanged and the error is `RenameSpec`'s, including an `AssertionError` from the agent raised again unchanged. The rows never change. |
| `DataCleaningService.MergeDataFrames` | app/services/data_cleaning_service.py:149-170 | The merge succeeds exactly when the merge on common columns does. Every failure becomes `Exception("Error while merging on common columns")`. |
| `DataCleaningService.NoSharedColumnsFailMerge` | app/services/data_cleaning_service.py:164-170 | Tables without a shared label cannot be merged. |
| `DataCleaningService.SaveCleanedData` | app/services/data_cleaning_service.py:172-189 | Saving succeeds exactly when the writer does. Otherwise the writer's message is wrapped with the path. |
| `DataCleaningService.ClassifyCleaningError` | app/services/data_cleaning_service.py:74-82 | `FileNotFoundError` and `AssertionError` keep their class; everything else becomes `Exception`. Each message gains its class's prefix. |
| `DataCleaningService.CleaningSpec` | app/services/data_cleaning_service.py:46-82 | The completed steps are a prefix of the pipeline's eight steps. The run succeeds exactly when all eight complete. A failure is a `FileNotFoundError`, an `AssertionError` or an `Exception`. |
| `DataCleaningService.RepairsNeverStopTheRun` | app/services/data_cleaning_service.py:60-65 | Once the merge is done, both repairs complete. A run stops only at a read, a rename, the merge or the save. |
| `DataCleaningService.SavedTableIsRepairedMerge` | app/services/data_cleaning_service.py:46-71 | A successful run saved the merge of the renamed mapping and bookings tables, after both repairs, to the cleaned path. |
| `DataCleaningService.MissingBookingsFile` | app/services/data_cleaning_service.py:48-76 | A missing bookings file stops the run with no step done, as "File not found: CSV file not found: app/data/Flight Bookings.csv". |
| `DataCleaningService.AgentAssertionFailsRun` | app/services/data_cleaning_service.py:57-82 | An `AssertionError("m")` from the renaming agent on the bookings table stops the run after the two reads, as `AssertionError("Assertion error: m")`. It passes through the handlers at lines 142-144 and 77-79. |
| `DataCleaningService.UnmergeableTablesStopAtMerge` | app/services/data_cleaning_service.py:57-82 | Renamed tables without a shared label stop the run after four steps with the generic cleaning error. |
| `DataCleaningService.CleanData` | app/services/data_cleaning_service.py:26-82 | The method, with its frames renamed in place, yields exactly `CleaningSpec`. |
| `AppMain.AttemptSpec` | app/main.py:42-56 | An attempt succeeds only with a clean pipeline run, and then leaves an agent trained on both documents. Any bound agent holds the table read from the cleaned file and uses `gpt-4o`. |
| `AppMain.RunAttempt` | app/main.py:42-59 | One pass through the `try` block yields exactly `AttemptSpec`. |
| `AppMain.NextAttempt` | app/main.py:41-59 | The next pass through the `try` block extends the record of attempts by exactly that attempt's outcome. |
| `AppMain.RetryStep` | app/main.py:41-59 | After a run of failed attempts, one more attempt keeps the loop's shape when it succeeds or is the fifth, and leaves every attempt failed when it fails. The global `agent` changes only when the new attempt constructed one. |
| `AppMain.Startup` | app/main.py:40-59 | The loop makes one to five attempts, and the ghost record holds exactly those attempts' outcomes, in order. Only the last may succeed, and fewer than five are made only when the last succeeded. The global `agent` is the one bound by the latest attempt that constructed one. |
| `AppMain.LastBoundIffSomeBound` | app/main.py:41-59 | The global `agent` is bound after the loop exactly when some attempt constructed one (line 49). |
| `AppMain.LastBoundIsLatest` | app/main.py:41-59 | A bound global `agent` is the agent of the latest attempt that constructed one: no later attempt constructed another. |
| `AppMain.LatestBinds` | app/main.py:49 | An agent bound by the latest attempt is the global `agent`. |
| `AppMain.StopsAtFirstSuccess` | app/main.py:46-59 | The loop ends at the first successful attempt, or after five when none of the first five succeeds. |
| `AppMain.SuccessLeavesTrainedAgent` | app/main.py:49-56 | Ending on a success leaves a fully trained agent bound. |
| `AppMain.AgentStaysBound` | app/main.py:49-59 | Once an attempt has bound an agent, one stays bound through every later attempt. |
| `AppMain.ReadIndex` | app/main.py:62-85 | The page is the file's text. A missing file gives a 404 "Index page not found."; any other failure gives a 500 "Internal server error.". |
| `AppMain.AskQuery` | app/main.py:87-110 | The reply always has the single key `answer_fetched`. It holds the agent's answer to the rephrased query, or the error prefix followed by what failed, including the `NameError` when no agent was ever bound. |
| `TestServices.Count` | tests/test_services.py:90 | A value's count is at most the column length, and positive exactly when the value occurs. |
| `TestServices.Best` | tests/test_services.py:93 | The chosen candidate has the largest count among the candidates. |
| `TestServices.Mode` | tests/test_services.py:90-94 | `value_counts().idxmax()` and `max()`: a value that occurs, with its count, which no other value exceeds. |
| `TestServices.TopValue` | tests/test_services.py:81-103 | A missing column raises `KeyError`; an empty column raises `idxmax`'s `ValueError`. Otherwise the result is a most frequent value and its count. |
| `TestServices.TopCountIsUnique` | tests/test_services.py:93-94 | Any value with a maximal count has the count reported. |
| `TestServices.SetColumn` | tests/test_services.py:68-72 | `df[c] = values` overwrites an existing column or appends a new one at the right. The column then holds the values; every other column is unchanged. |
| `TestServices.ConvertAll` | tests/test_services.py:68 | The conversion succeeds exactly when every cell parses, giving the parsed cells in order. A failure is some cell's error. |
| `TestServices.PreprocessSpec` | tests/test_services.py:62-79 | A missing date column gives `KeyError`, and a failed parse re-raises its error. Otherwise the dates are replaced by their parses and the month column is written (or appended) with each date's month name; other columns are kept. |
| `TestServices.MonthQueryAfterPreprocess` | tests/test_services.py:68-121 | After preprocessing, the month question is answered exactly when the table has rows. |
| `TestServices.QueriesSpec` | tests/test_services.py:129-148 | If preprocessing fails, only the failure line is printed. Once preprocessing succeeds, a table with rows and an `Airline_Name` column prints both answer lines. A table without rows or without that column prints only the failure line. The data left is the preprocessed table, or the original one when preprocessing failed. |
| `TestServices.TestQuestions.Load` | tests/test_services.py:5-60 | The constructor re-raises the reader's error, or stores the path and the table read. |
| `TestServices.TestQuestions.PreprocessData` | tests/test_services.py:62-79 | `self.data` becomes `PreprocessSpec`'s table, or is left unchanged with the error reported. |
| `TestServices.TestQuestions.GetTopAirline` | tests/test_services.py:81-103 | An airline exists exactly when the column exists and the data has rows. The airline reported has the largest flight count. |
| `TestServices.TestQuestions.GetTopMonth` | tests/test_services.py:105-127 | A month exists exactly when the column exists and the data has rows. The month reported has the largest booking count. |
| `TestServices.TestQuestions.TestQueries` | tests/test_services.py:129-148 | The printed lines and the final data are exactly `QueriesSpec` of the starting data. No `Exception` escapes. |

## Left out

- Logging, the FastAPI application object and `async` are not modelled; the handlers are plain functions. Neither is `load_dotenv`, nor the logger set-up of `TestQuestions`.
- The language models, the prompt templates' wording and the module-level `chain = analysis_prompt | LLM.get_llm()` are not modelled. A chain is a parameter from the column names and the five-row sample to a completion or an error. The two repairs, `handle_missing_values` and `handle_inconsistencies`, differ only in their prompt. With the chain as a parameter, their models have the same body.
- pandasai's `Agent` is a parameter: its construction, `train`, `rephrase_query` and `chat`. `app/services/agent_service.py`, the column-renaming tool in `app/tools/column_name_correction.py` and `app/models/chat_model.py` are not part of this model. `get_agent` is taken not to raise, and the renaming agent's `run` is a parameter.
- Every outside call is a function, so every oracle is deterministic. Two calls with the same arguments give the same answer. The retry loop sees a fresh world on each attempt through `envs(k)`.
- `PandasCodeParser.Execute`, `HandleMissingNegativeValues.HandleMissingValues`, `HandleDataInconsistencies.HandleInconsistencies`: the generated code can change the caller's `df` in place through the `df` local before it fails. The repairs then fall back to that changed `df`, not the table they were given. Tables are values in the model, so this aliasing is not captured.
- `DataFrameUtils.MergeOnCommonColumns`: only two merge failures are modelled, no shared label and a label that is not unique in one of the tables. Other pandas merge failures are not modelled: incompatible key dtypes, and other `how` values than the default `inner` (the caller never passes one). Output rows are in left-major order: df1 row by df1 row, and within one df1 row in df2 order. That is the order pandas 2.2 and later give an inner join. Earlier pandas releases group the rows by key.
- `ColumnNameOutput.ParseColumnNamesOutput`: pydantic's `ValidationError` wraps the validator's message with its own header. The model carries the validator's text only, and "Field required" for a missing field. A non-list value of the field is not modelled.
- `PandasCodeParser.ParseAndExecute`: a rejected completion fails with the validator's `ValueError` message. The source's pydantic `@field_validator` raises a `ValidationError`, whose text adds pydantic's own header ("1 validation error for PandasCodeParser", the field name and the error type). It is a `ValueError` in both. Both repairs discard the error and fall back to the input table, so only the logged text differs.
- Only subclasses of `Exception` are modelled (`Errors.Kind`). Generated code that raises `SystemExit` (for instance by calling `exit()`) or `KeyboardInterrupt` gets past every `except Exception`. Such code would abort `execute`, the two repairs, `clean_data` and the start-up retry loop instead of being caught. So "no `Exception` escapes" says nothing about those.
- `LlmHelper.GetLlm`: `lower()` is modelled on ASCII letters only. The client constructors are taken not to raise (no API key problems), so a supported name always succeeds.
- `TestServices.TopValue`: among values with equal counts, pandas picks by `value_counts` order. The model picks the first in column order, so the contract only promises a most frequent value.
- `TestServices.ConvertAll`: `pd.to_datetime` is modelled cell by cell, reporting one failing cell's error. Its format inference over the whole column, and `NaT`/`NaN` cells, are not modelled. So in the model the month question cannot fail once preprocessing succeeded, and a table that has rows and an `Airline_Name` column always has both answers.
- `TestServices.TestQuestions.TestQueries`: the printed text uses `str(n)` for the counts; numpy's integer printing is not modelled.
- `chunk_dataframe` returns copies, and each `get_llm` call makes a new client. In the model every table and configuration is a value, so independence of the copies holds trivially and is not stated.
- The training documents are identified by their position (1 and 2), not by their text.
