/** The application module: the start-up loop that runs the cleaning pipeline and builds
    the question-answering agent, and the two HTTP handlers. */
module AppMain {
  import opened Errors
  import opened Tables
  import opened LlmHelper
  import opened DataCleaningService

  const MaxAttempts: nat := 5
  /** The file the agent is built from. It is not the file the pipeline writes
      (`DataCleaningService.CleanedPath`): the two names differ in one character. */
  const CleanedReadPath: string := "app/data/Clean Booking Details.csv"
  const IndexPath: string := "app/static/index.html"

  /** A pandasai agent: the table it answers about, its language model, and how many of the
      two training documents it has taken in. */
  datatype AgentHandle = AgentHandle(data: Table, llm: LlmConfig, trainedDocs: nat)

  /** What one start-up attempt consults outside itself: the pipeline's environment, the
      read of the cleaned file, the agent's construction, and `agent.train(docs=...)` for
      training document 1 or 2. */
  datatype StartupEnv = StartupEnv(
    cleaning: CleaningEnv,
    readCsv: CsvReader,
    createAgent: (Table, LlmConfig) -> Option<Error>,
    train: (AgentHandle, nat) -> Option<Error>)

  /** The outcome of one pass through the `try` block: whether it ran to the end, and the
      agent it bound to the global `agent`, if it got that far. */
  datatype Attempt = Attempt(succeeded: bool, bound: Option<AgentHandle>)

  /** One attempt. The agent is bound as soon as it is constructed, so a training failure
      leaves it bound, trained on fewer documents. */
  function AttemptSpec(env: StartupEnv): (a: Attempt)
    ensures a.succeeded ==> a.bound.Some? && a.bound.value.trainedDocs == 2
    ensures a.succeeded ==> CleaningSpec(env.cleaning).outcome.Ok?
    ensures a.bound.Some? ==>
              && CleaningSpec(env.cleaning).outcome.Ok?
              && env.readCsv(CleanedReadPath).Ok?
              && a.bound.value.data == env.readCsv(CleanedReadPath).value
              && a.bound.value.llm == OpenAiConfig
              && a.bound.value.trainedDocs <= 2
  {
    if CleaningSpec(env.cleaning).outcome.Err? then Attempt(false, None) else
    DefaultSelectsOpenAi();
    match GetLlm()
    case Err(_) => Attempt(false, None)
    case Ok(llm) =>
      match env.readCsv(CleanedReadPath)
      case Err(_) => Attempt(false, None)
      case Ok(bookingDetails) =>
        if env.createAgent(bookingDetails, llm).Some? then Attempt(false, None) else
        var untrained := AgentHandle(bookingDetails, llm, 0);
        if env.train(untrained, 1).Some? then Attempt(false, Some(untrained)) else
        var once := AgentHandle(bookingDetails, llm, 1);
        if env.train(once, 2).Some? then Attempt(false, Some(once)) else
        Attempt(true, Some(AgentHandle(bookingDetails, llm, 2)))
  }

  /** The body of the `try` block. */
  method RunAttempt(env: StartupEnv) returns (succeeded: bool, bound: Option<AgentHandle>)
    ensures Attempt(succeeded, bound) == AttemptSpec(env)
  {
    succeeded, bound := false, None;
    var run := CleanData(env.cleaning);
    if run.outcome.Err? {
      return;
    }
    var llm := GetLlm();
    if llm.Err? {
      return;
    }
    var bookingDetails := env.readCsv(CleanedReadPath);
    if bookingDetails.Err? {
      return;
    }
    if env.createAgent(bookingDetails.value, llm.value).Some? {
      return;
    }
    var agent := AgentHandle(bookingDetails.value, llm.value, 0);
    bound := Some(agent);
    if env.train(agent, 1).Some? {
      return;
    }
    agent := agent.(trainedDocs := 1);
    bound := Some(agent);
    if env.train(agent, 2).Some? {
      return;
    }
    agent := agent.(trainedDocs := 2);
    bound := Some(agent);
    succeeded := true;
  }

  /** The global `agent` after a run of attempts: the one bound by the latest attempt that
      constructed one, or unbound. */
  function LastBound(outcomes: seq<Attempt>): Option<AgentHandle> {
    if |outcomes| == 0 then None
    else if outcomes[|outcomes| - 1].bound.Some? then outcomes[|outcomes| - 1].bound
    else LastBound(outcomes[..|outcomes| - 1])
  }

  /** The global `agent` is bound exactly when some attempt constructed one. */
  lemma {:induction false} LastBoundIffSomeBound(outcomes: seq<Attempt>)
    ensures LastBound(outcomes).Some? <==> exists k :: 0 <= k < |outcomes| && outcomes[k].bound.Some?
  {
    if |outcomes| > 0 {
      var n := |outcomes| - 1;
      var front := outcomes[..n];
      if outcomes[n].bound.None? {
        LastBoundIffSomeBound(front);
        if exists k :: 0 <= k < |outcomes| && outcomes[k].bound.Some? {
          var k :| 0 <= k < |outcomes| && outcomes[k].bound.Some?;
          assert front[k] == outcomes[k];
        }
        if exists k :: 0 <= k < |front| && front[k].bound.Some? {
          var k :| 0 <= k < |front| && front[k].bound.Some?;
          assert outcomes[k] == front[k];
        }
      }
    }
  }

  /** A bound global `agent` is the one of the latest attempt that constructed one: no later
      attempt constructed another. */
  lemma {:induction false} LastBoundIsLatest(outcomes: seq<Attempt>)
    ensures LastBound(outcomes).Some? ==>
              exists k :: 0 <= k < |outcomes| && LastBound(outcomes) == outcomes[k].bound
                          && forall k' :: k < k' < |outcomes| ==> outcomes[k'].bound.None?
  {
    if |outcomes| > 0 {
      var n := |outcomes| - 1;
      var front := outcomes[..n];
      if outcomes[n].bound.Some? {
        assert LastBound(outcomes) == outcomes[n].bound;
      } else if LastBound(front).Some? {
        LastBoundIsLatest(front);
        var k :| 0 <= k < |front| && LastBound(front) == front[k].bound
                 && forall k' :: k < k' < |front| ==> front[k'].bound.None?;
        assert outcomes[k] == front[k];
        forall k' | k < k' < |outcomes| ensures outcomes[k'].bound.None? {
          if k' < n {
            assert outcomes[k'] == front[k'];
          }
        }
      }
    }
  }

  /** The shape of every run of the loop: one to five attempts, none but the last one
      successful, and fewer than five only when the last one succeeded. */
  predicate RetryShape(outcomes: seq<Attempt>) {
    && 1 <= |outcomes| <= MaxAttempts
    && (forall k :: 0 <= k < |outcomes| - 1 ==> !outcomes[k].succeeded)
    && (|outcomes| < MaxAttempts ==> outcomes[|outcomes| - 1].succeeded)
  }

  /** `outcomes` records the first `|outcomes|` attempts in order: entry `k` is what attempt
      `k` (from 0) does against `envs(k)`, the state of the outside world at that time. */
  predicate AttemptsOf(envs: nat -> StartupEnv, outcomes: seq<Attempt>) {
    forall k :: 0 <= k < |outcomes| ==> outcomes[k] == AttemptSpec(envs(k))
  }

  /** The next pass through the `try` block, attempt `k`, after the attempts recorded in `done`: it
      extends the record by one entry. */
  method NextAttempt(envs: nat -> StartupEnv, k: nat, ghost done: seq<Attempt>) returns (succeeded: bool, bound: Option<AgentHandle>)
    requires |done| == k && AttemptsOf(envs, done)
    ensures AttemptsOf(envs, done + [Attempt(succeeded, bound)])
  {
    succeeded, bound := RunAttempt(envs(k));
  }

  /** One more attempt after a run of failed ones: the run keeps its shape when the attempt
      succeeds or is the fifth, stays all-failed when it fails, and the global `agent` is
      rebound only when the attempt constructed one. */
  lemma RetryStep(outcomes: seq<Attempt>, a: Attempt)
    requires |outcomes| < MaxAttempts
    requires forall k :: 0 <= k < |outcomes| ==> !outcomes[k].succeeded
    ensures a.succeeded || |outcomes| + 1 == MaxAttempts ==> RetryShape(outcomes + [a])
    ensures !a.succeeded ==> forall k :: 0 <= k < |outcomes| + 1 ==> !(outcomes + [a])[k].succeeded
    ensures LastBound(outcomes + [a]) == if a.bound.Some? then a.bound else LastBound(outcomes)
  {
    assert (outcomes + [a])[..|outcomes|] == outcomes;
  }

  /** The module-level loop. It stops after the first attempt that succeeds and after five
      attempts at the latest; each failed attempt reruns everything from the pipeline. The
      ghost `outcomes` records what each attempt did. */
  method Startup(envs: nat -> StartupEnv) returns (agent: Option<AgentHandle>, attempts: nat, ghost outcomes: seq<Attempt>)
    ensures |outcomes| == attempts && AttemptsOf(envs, outcomes)
    ensures RetryShape(outcomes)
    ensures agent == LastBound(outcomes)
  {
    var retryCount: nat := 0;
    agent, attempts := None, 0;
    outcomes := [];
    while retryCount < MaxAttempts
      invariant |outcomes| == attempts && AttemptsOf(envs, outcomes)
      invariant retryCount < MaxAttempts ==>
                  retryCount == attempts && forall k :: 0 <= k < |outcomes| ==> !outcomes[k].succeeded
      invariant retryCount >= MaxAttempts ==> retryCount == MaxAttempts && RetryShape(outcomes)
      invariant agent == LastBound(outcomes)
      decreases MaxAttempts - retryCount
    {
      var succeeded, bound := NextAttempt(envs, attempts, outcomes);
      RetryStep(outcomes, Attempt(succeeded, bound));
      outcomes := outcomes + [Attempt(succeeded, bound)];
      attempts := attempts + 1;
      agent := if bound.Some? then bound else agent;
      retryCount := if succeeded then MaxAttempts else retryCount + 1;
    }
  }

  /** When the loop ends on a successful attempt, whatever the attempts before it did, the
      bound agent is the fully trained one. */
  lemma SuccessLeavesTrainedAgent(env: StartupEnv, earlier: seq<Attempt>, last: Attempt)
    requires last == AttemptSpec(env) && last.succeeded
    ensures LastBound(earlier + [last]).Some? && LastBound(earlier + [last]).value.trainedDocs == 2
  {
    LatestBinds(earlier + [last]);
  }

  /** An agent bound by the latest attempt is the global `agent`. */
  lemma LatestBinds(outcomes: seq<Attempt>)
    requires |outcomes| >= 1 && outcomes[|outcomes| - 1].bound.Some?
    ensures LastBound(outcomes) == outcomes[|outcomes| - 1].bound
  {
  }

  /** The loop runs exactly up to the first successful attempt, or five times when none of
      the first five succeeds. */
  lemma StopsAtFirstSuccess(envs: nat -> StartupEnv, outcomes: seq<Attempt>)
    requires AttemptsOf(envs, outcomes) && RetryShape(outcomes)
    ensures forall j :: 0 <= j < |outcomes| - 1 ==> !AttemptSpec(envs(j)).succeeded
    ensures |outcomes| < MaxAttempts ==> AttemptSpec(envs(|outcomes| - 1)).succeeded
    ensures (forall j :: 0 <= j < MaxAttempts ==> !AttemptSpec(envs(j)).succeeded) ==> |outcomes| == MaxAttempts
  {
    assert outcomes[|outcomes| - 1] == AttemptSpec(envs(|outcomes| - 1));
  }

  /** Once some attempt has constructed an agent, an agent stays bound through every later
      attempt. */
  lemma {:induction false} AgentStaysBound(outcomes: seq<Attempt>, k: nat)
    requires k < |outcomes| && outcomes[k].bound.Some?
    ensures LastBound(outcomes).Some?
    decreases |outcomes|
  {
    var n := |outcomes|;
    if k < n - 1 && outcomes[n - 1].bound.None? {
      assert outcomes[..n - 1][k] == outcomes[k];
      AgentStaysBound(outcomes[..n - 1], k);
    }
  }

  // ---------------------------------------------------------------------------------
  // The HTTP handlers

  /** An HTTP response: the page, or an `HTTPException` with its status and detail. */
  datatype Response = HtmlPage(content: string) | HttpError(status: nat, detail: string)

  /** `open(path).read()`: the text, or what it raised. */
  type FileReader = string -> Result<string>

  /** `GET /`: the page's text; 404 when the file is missing and 500 on any other failure. */
  function ReadIndex(readFile: FileReader): (r: Response)
    ensures r.HtmlPage? <==> readFile(IndexPath).Ok?
    ensures r.HtmlPage? ==> r.content == readFile(IndexPath).value
    ensures readFile(IndexPath).Err? && readFile(IndexPath).error.kind == FileNotFoundError ==>
              r == HttpError(404, "Index page not found.")
    ensures readFile(IndexPath).Err? && readFile(IndexPath).error.kind != FileNotFoundError ==>
              r == HttpError(500, "Internal server error.")
  {
    match readFile(IndexPath)
    case Ok(content) => HtmlPage(content)
    case Err(e) =>
      if e.kind == FileNotFoundError then HttpError(404, "Index page not found.")
      else HttpError(500, "Internal server error.")
  }

  const AnswerKey: string := "answer_fetched"
  const AnswerErrorPrefix: string := "An error occurred while fetching the answer. Error: "
  /** `str(e)` for the `NameError` of a global that was never bound. */
  const UnboundAgentMessage: string := "name 'agent' is not defined"

  /** `agent.rephrase_query(query)` and `agent.chat(query)`: the text, or what they raised. */
  type AgentCall = (AgentHandle, string) -> Result<string>

  /** `POST /insights`: the rephrased query goes to the agent; the reply is always a
      one-entry dict, holding the answer or the error text behind a fixed prefix, even
      when no agent was ever bound. */
  function AskQuery(query: string, agent: Option<AgentHandle>, rephrase: AgentCall, chat: AgentCall): (r: map<string, string>)
    ensures r.Keys == {AnswerKey}
    ensures agent.None? ==> r[AnswerKey] == AnswerErrorPrefix + UnboundAgentMessage
    ensures agent.Some? && rephrase(agent.value, query).Err? ==>
              r[AnswerKey] == AnswerErrorPrefix + rephrase(agent.value, query).error.message
    ensures agent.Some? && rephrase(agent.value, query).Ok? ==>
              var answer := chat(agent.value, rephrase(agent.value, query).value);
              r[AnswerKey] == if answer.Ok? then answer.value else AnswerErrorPrefix + answer.error.message
  {
    var fetched :=
      match agent
      case None => Err(Error(NameError, UnboundAgentMessage))
      case Some(a) =>
        match rephrase(a, query)
        case Err(e) => Err(e)
        case Ok(rephrased) => chat(a, rephrased);
    match fetched
    case Ok(answer) => map[AnswerKey := answer]
    case Err(e) => map[AnswerKey := AnswerErrorPrefix + e.message]
  }
}
