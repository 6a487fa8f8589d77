/** `PandasCodeParser`: validating a completion that should carry generated pandas code,
    extracting the fenced code, and running it against a table through `exec`. */
module PandasCodeParser {
  import opened Errors
  import opened Text
  import opened Tables

  const DefMarker: string := "def"
  /** The opening fence of the search pattern, newline included. */
  const Opener: string := "```python\n"
  const Closer: string := "```"

  const NoDefMessage: string := "The code must contain function definitions."
  const NoBlockMessage: string := "Code block not found in the message."
  const NotDefinedMessage: string := "The executed code did not define 'cleaned_df'."
  const NotFrameMessage: string := "'cleaned_df' is not a pandas DataFrame."
  const ExecFailurePrefix: string := "An error occurred during code execution: "

  // ---------------------------------------------------------------------------------
  // The fence search: re.search(r'```python\n(.*?)```', value, re.DOTALL)

  /** The pattern matches `s` with the opener at `p` and the closer at `q`; the group is
      `s[p + |Opener|..q]`. Any character, newlines included, may sit in between, and
      neither fence has to start a line. */
  predicate FenceAt(s: string, p: int, q: int) {
    OccursAt(s, Opener, p) && p + |Opener| <= q && OccursAt(s, Closer, q)
  }

  /** The match `re.search` reports: the leftmost start, and for it the shortest group
      (the lazy `.*?`). */
  ghost predicate FirstFence(s: string, p: int, q: int) {
    FenceAt(s, p, q)
    && (forall p', q' :: FenceAt(s, p', q') ==> p <= p')
    && (forall q' :: FenceAt(s, p, q') ==> q <= q')
  }

  ghost predicate NoFence(s: string) {
    forall p, q :: !FenceAt(s, p, q)
  }

  /** The search as the code performs it: the first opener, then the first closer at or
      after the opener's end. It finds exactly the match the regular expression reports. */
  function FindFence(s: string): (r: Option<(nat, nat)>)
    ensures r.Some? ==> FirstFence(s, r.value.0, r.value.1)
    ensures r.None? <==> NoFence(s)
  {
    match FindFrom(s, Opener, 0)
    case None => None
    case Some(p) =>
      match FindFrom(s, Closer, p + |Opener|)
      case None =>
        assert forall p', q' :: FenceAt(s, p', q') ==> p <= p' && OccursAt(s, Closer, q');
        None
      case Some(q) => Some((p, q))
  }

  /** The match, when there is one, is unique. */
  lemma FirstFenceUnique(s: string, p1: int, q1: int, p2: int, q2: int)
    requires FirstFence(s, p1, q1) && FirstFence(s, p2, q2)
    ensures p1 == p2 && q1 == q2
  {
  }

  // ---------------------------------------------------------------------------------
  // validate_and_extract_functions

  /** The field validator of `code`. The `def` test is a plain substring test over the
      whole text and runs first; then the fenced group, stripped, becomes the code. */
  function ValidateAndExtractFunctions(value: string): (r: Result<string>)
    ensures !Contains(value, DefMarker) ==> r == Err(Error(ValueError, NoDefMessage))
    ensures Contains(value, DefMarker) && NoFence(value) ==> r == Err(Error(ValueError, NoBlockMessage))
    ensures r.Ok? ==> Contains(value, DefMarker)
    ensures Contains(value, DefMarker) && !NoFence(value) ==> r.Ok?
    ensures r.Ok? ==> exists p, q :: FirstFence(value, p, q) && r.value == Strip(value[p + |Opener|..q])
  {
    ContainsIffFound(value, DefMarker);
    if FindFrom(value, DefMarker, 0).None? then Err(Error(ValueError, NoDefMessage))
    else
      match FindFence(value)
      case None => Err(Error(ValueError, NoBlockMessage))
      case Some((p, q)) => Ok(Strip(value[p + |Opener|..q]))
  }

  /** A slice of a slice is a slice of the original. */
  lemma SliceOfSlice(s: string, i: int, j: int, a: int, b: int)
    requires 0 <= i <= j <= |s| && 0 <= a <= b <= j - i
    ensures s[i..j][a..b] == s[i + a..i + b]
  {
    assert forall m :: 0 <= m < b - a ==> s[i..j][a..b][m] == s[i + a + m];
  }

  /** No occurrence of `pat` inside `s[i..j]` means none when the slice is taken on its own. */
  lemma {:induction false} NoOccurrenceInSlice(s: string, pat: string, i: int, j: int)
    requires 0 <= i <= j <= |s|
    requires forall k :: i <= k && k + |pat| <= j ==> !OccursAt(s, pat, k)
    ensures !Contains(s[i..j], pat)
  {
    if Contains(s[i..j], pat) {
      var k :| 0 <= k <= j - i - |pat| && OccursAt(s[i..j], pat, k);
      SliceOfSlice(s, i, j, k, k + |pat|);
      assert OccursAt(s, pat, i + k);
    }
  }

  /** A slice of a text without `pat` has no `pat` either. */
  lemma {:induction false} NotContainsSlice(s: string, pat: string, i: int, j: int)
    requires 0 <= i <= j <= |s| && !Contains(s, pat)
    ensures !Contains(s[i..j], pat)
  {
    forall k | i <= k && k + |pat| <= j ensures !OccursAt(s, pat, k) {
      assert 0 <= k <= |s| - |pat|;
    }
    NoOccurrenceInSlice(s, pat, i, j);
  }

  /** The group of the match holds no closing fence: the lazy group stops at the first one. */
  lemma GroupHasNoCloser(s: string, p: int, q: int)
    requires FirstFence(s, p, q)
    ensures !Contains(s[p + |Opener|..q], Closer)
  {
    forall k | p + |Opener| <= k && k + |Closer| <= q ensures !OccursAt(s, Closer, k) {
      assert FenceAt(s, p, k) == OccursAt(s, Closer, k);
    }
    NoOccurrenceInSlice(s, Closer, p + |Opener|, q);
  }

  /** Stripping cannot create an occurrence. */
  lemma StripKeepsAbsence(s: string, pat: string)
    requires !Contains(s, pat)
    ensures !Contains(Strip(s), pat)
  {
    var r := Strip(s);
    var i := LeadingSpace(s);
    NotContainsSlice(s, pat, i, i + |r|);
  }

  /** Accepted code has no fence inside it, no surrounding whitespace, and survives a
      second strip unchanged. */
  lemma ExtractedCodeIsClean(value: string)
    requires ValidateAndExtractFunctions(value).Ok?
    ensures var code := ValidateAndExtractFunctions(value).value;
      !Contains(code, Closer) && Trimmed(code) && Strip(code) == code
  {
    var fence := FindFence(value);
    assert fence.Some?;
    var p, q := fence.value.0, fence.value.1;
    var body := value[p + |Opener|..q];
    assert ValidateAndExtractFunctions(value).value == Strip(body);
    GroupHasNoCloser(value, p, q);
    StripKeepsAbsence(body, Closer);
    StripIdempotent(body);
  }

  /** The order of the two checks: text with neither `def` nor a fence fails on `def`. */
  lemma DefCheckComesFirst(value: string)
    requires !Contains(value, DefMarker) && NoFence(value)
    ensures ValidateAndExtractFunctions(value) == Err(Error(ValueError, NoDefMessage))
  {
  }

  /** A fence is the one the search finds when no backtick precedes its opener and none
      sits inside its group. */
  lemma FenceWithoutStrayBackticks(s: string, p: int, q: int)
    requires FenceAt(s, p, q)
    requires '`' !in s[..p] && '`' !in s[p + |Opener|..q]
    ensures FindFence(s) == Some((p, q))
  {
    AbsentFromSlice(s, '`', 0, p);
    AbsentFromSlice(s, '`', p + |Opener|, q);
    forall p', q' | FenceAt(s, p', q') ensures p <= p' {
      assert s[p'] == s[p'..p' + |Opener|][0] == '`';
    }
    forall q' | FenceAt(s, p, q') ensures q <= q' {
      assert s[q'] == s[q'..q' + |Closer|][0] == '`';
    }
    assert !NoFence(s);
    var found := FindFence(s).value;
    FirstFenceUnique(s, p, q, found.0, found.1);
  }

  /** The `def` test is a substring test: `default` satisfies it, and it may lie outside
      the fenced block. */
  lemma DefOutsideFenceAccepted(s: string)
    requires s == "default```python\nx```"
    ensures ValidateAndExtractFunctions(s) == Ok("x")
  {
    DefaultSampleFence(s);
    assert OccursAt(s, DefMarker, 0);
    AcceptedWithFence(s, 0, 7, 18);
    assert s[17..18] == "x";
    TrimmedIsStripped("x");
  }

  /** The fence of the sample above opens at index 7 and closes at index 18. */
  lemma DefaultSampleFence(s: string)
    requires s == "default```python\nx```"
    ensures FindFence(s) == Some((7, 18))
  {
    assert FenceAt(s, 7, 18);
    assert s[..7] == "default" && s[17..18] == "x";
    FenceWithoutStrayBackticks(s, 7, 18);
  }

  /** The group may be empty, and so may the extracted code. */
  lemma EmptyBlockAccepted()
    ensures ValidateAndExtractFunctions("def\n```python\n```") == Ok("")
  {
    var s := "def\n```python\n```";
    assert OccursAt(s, DefMarker, 0);
    assert FenceAt(s, 4, 14);
    assert s[..4] == "def\n" && s[14..14] == "";
    FenceWithoutStrayBackticks(s, 4, 14);
    AcceptedWithFence(s, 0, 4, 14);
  }

  /** Text with `def` somewhere and a fence the search finds is accepted as the stripped group. */
  lemma AcceptedWithFence(s: string, k: int, p: nat, q: nat)
    requires OccursAt(s, DefMarker, k) && FindFence(s) == Some((p, q))
    ensures p + |Opener| <= q <= |s|
    ensures ValidateAndExtractFunctions(s) == Ok(Strip(s[p + |Opener|..q]))
  {
    ContainsIffFound(s, DefMarker);
    assert Contains(s, DefMarker);
  }

  // ---------------------------------------------------------------------------------
  // execute

  /** The Python values the namespaces may hold, as far as the checks on `cleaned_df`
      distinguish them. */
  datatype PyValue =
    | PyNone
    | PyFrame(frame: Table)
    | PyModule(name: string)
    | PyObject(typeName: string)

  /** What `exec` leaves behind: the local namespace after the code finished, or the
      exception it raised. */
  datatype ExecResult = Finished(locals: map<string, PyValue>) | Raised(error: Error)

  /** `exec(code, globals, locals)`. What the generated code does is not modelled. */
  type ExecOracle = (string, map<string, PyValue>, map<string, PyValue>) -> ExecResult

  /** `local_vars.get(name)`: `None` for a name that is not bound. */
  function Lookup(locals: map<string, PyValue>, name: string): (v: PyValue)
    ensures name in locals ==> v == locals[name]
    ensures v.PyNone? <==> name !in locals || locals[name].PyNone?
  {
    if name in locals then locals[name] else PyNone
  }

  /** The globals dict passed to `exec` holds exactly `pd` and `np`; Python adds
      `__builtins__` to it when the code runs. */
  function ExecGlobals(): (g: map<string, PyValue>)
    ensures g.Keys == {"pd", "np"}
  {
    map["pd" := PyModule("pandas"), "np" := PyModule("numpy")]
  }

  /** The only local the code starts with is `df`, bound to the input table. */
  function ExecLocals(df: Table): (l: map<string, PyValue>)
    ensures l.Keys == {"df"} && l["df"] == PyFrame(df)
  {
    map["df" := PyFrame(df)]
  }

  /** The outcome `execute` promises, given what `exec` did with the two namespaces. */
  function ExecuteOutcome(code: string, df: Table, exec: ExecOracle): (r: Result<Table>)
    ensures var out := exec(code, ExecGlobals(), ExecLocals(df));
      && (r.Ok? <==> out.Finished? && Lookup(out.locals, "cleaned_df").PyFrame?)
      && (r.Ok? ==> out.locals["cleaned_df"] == PyFrame(r.value))
  {
    var out := exec(code, ExecGlobals(), ExecLocals(df));
    match out
    case Raised(e) =>
      if IsValueError(e.kind) then Err(e) else Err(Error(Exception, ExecFailurePrefix + e.message))
    case Finished(locals) =>
      match Lookup(locals, "cleaned_df")
      case PyNone => Err(Error(ValueError, NotDefinedMessage))
      case PyFrame(cleaned) => Ok(cleaned)
      case _ => Err(Error(ValueError, NotFrameMessage))
  }

  /** Every way `execute` can fail, and with which exception: a missing or `None` binding
      and a binding of another type are `ValueError`s, a `ValueError` raised by the code
      comes back unchanged, and any other exception is wrapped with the fixed prefix. */
  lemma ExecuteFailures(code: string, df: Table, exec: ExecOracle)
    ensures var out := exec(code, ExecGlobals(), ExecLocals(df));
      var r := ExecuteOutcome(code, df, exec);
      && (out.Finished? && Lookup(out.locals, "cleaned_df") == PyNone ==> r == Err(Error(ValueError, NotDefinedMessage)))
      && ((out.Finished? && !Lookup(out.locals, "cleaned_df").PyNone? && !Lookup(out.locals, "cleaned_df").PyFrame?)
            ==> r == Err(Error(ValueError, NotFrameMessage)))
      && (out.Raised? && IsValueError(out.error.kind) ==> r == Err(out.error))
      && (out.Raised? && !IsValueError(out.error.kind) ==> r == Err(Error(Exception, ExecFailurePrefix + out.error.message)))
      && (r.Err? ==> IsValueError(r.error.kind) || r.error.kind == Exception)
  {
  }

  /** `PandasCodeParser.execute`: build the two namespaces, run the code, and read back the
      `cleaned_df` binding. */
  method Execute(code: string, df: Table, exec: ExecOracle) returns (r: Result<Table>)
    ensures r == ExecuteOutcome(code, df, exec)
  {
    var localVars := ExecLocals(df);
    var execGlobals := ExecGlobals();
    var out := exec(code, execGlobals, localVars);
    if out.Raised? {
      if IsValueError(out.error.kind) {
        r := Err(out.error);
      } else {
        r := Err(Error(Exception, ExecFailurePrefix + out.error.message));
      }
      return;
    }
    localVars := out.locals;
    var cleaned := Lookup(localVars, "cleaned_df");
    if cleaned == PyNone {
      r := Err(Error(ValueError, NotDefinedMessage));
    } else if !cleaned.PyFrame? {
      r := Err(Error(ValueError, NotFrameMessage));
    } else {
      r := Ok(cleaned.frame);
    }
  }

  /** `PandasCodeParser(code=completion).execute(df)`: construction runs the validator;
      only validated code reaches `exec`. */
  function ParseAndExecute(completion: string, df: Table, exec: ExecOracle): (r: Result<Table>)
    ensures ValidateAndExtractFunctions(completion).Err? ==> r == Err(ValidateAndExtractFunctions(completion).error)
    ensures ValidateAndExtractFunctions(completion).Ok? ==> r == ExecuteOutcome(ValidateAndExtractFunctions(completion).value, df, exec)
  {
    match ValidateAndExtractFunctions(completion)
    case Err(e) => Err(e)
    case Ok(code) => ExecuteOutcome(code, df, exec)
  }

  /** Text that fails validation is never executed: the outcome does not depend on `exec`. */
  lemma UnvalidatedTextNeverRuns(completion: string, df: Table, exec1: ExecOracle, exec2: ExecOracle)
    requires ValidateAndExtractFunctions(completion).Err?
    ensures ParseAndExecute(completion, df, exec1) == ParseAndExecute(completion, df, exec2)
    ensures ParseAndExecute(completion, df, exec1).error.kind == ValueError
  {
  }
}
