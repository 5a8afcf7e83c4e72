/** The single-shot tool agent (`Agent.Run` in experimemt/main.go) as a pure
    function. The model endpoint, the JSON decoder and the runtime's map
    iteration order are parameters collected in an `Env`. */
module Agent {
  import opened Wrappers
  import opened Strings
  import opened AgentTools
  import opened Prompt
  import opened ActionRegex

  /** The loop makes at most this many model calls. */
  const MaxSteps: nat := 5

  const FinalMarker: string := "Final Answer:"

  /** One answer of the model endpoint: its text, or the error `CallOllama` returned. */
  datatype Reply = Replied(text: string) | CallFailed(err: string)

  /** `ToolInvocation`: what the decoder makes of a matched span. */
  datatype Invocation = Invocation(name: string, args: Args)

  /** What the `i`-th prompt is made of: the tools in the order the runtime
      visited them, the history so far, and the user's request. The text
      sent is `Text()`. */
  datatype PromptInput = PromptInput(listing: seq<Tool>, history: string, userInput: string) {
    function Text(): string {
      GeneratePrompt(listing, history, userInput)
    }
  }

  /** What the agent cannot see into: `model(i, q)` answers the `i`-th call,
      made with the prompt built from `q` (a model that reads only the text
      is one of these); `toolOrder(i)` is the registry's tools in the order
      the runtime visits them while building the `i`-th prompt; `decode` is
      `json.Unmarshal` into a `ToolInvocation`, failing with the decoder's
      message. */
  datatype Env = Env(
    model: (nat, PromptInput) -> Reply,
    toolOrder: nat -> seq<Tool>,
    decode: string -> Result<Invocation, string>)

  /** Every prompt lists every registered tool exactly once. */
  ghost predicate ValidEnv(env: Env, tools: Registry) {
    forall i: nat :: i < MaxSteps ==> IsListing(env.toolOrder(i), tools)
  }

  /** The ways a single step rejects the model's response. */
  datatype StepError = NoAction | Undecodable(msg: string) | Unregistered(name: string)

  /** The run error a rejected step ends the run with. */
  function StepFailure(e: StepError): (r: RunError)
    ensures r.NoToolAction? || r.DecodeFailed? || r.UnknownTool?
    ensures e.NoAction? <==> r.NoToolAction?
    ensures e.Undecodable? <==> r.DecodeFailed?
    ensures e.Undecodable? ==> r.msg == e.msg
    ensures e.Unregistered? <==> r.UnknownTool?
    ensures e.Unregistered? ==> r.name == e.name
  {
    match e
    case NoAction => NoToolAction
    case Undecodable(m) => DecodeFailed(m)
    case Unregistered(n) => UnknownTool(n)
  }

  /** The ways a run fails; `ErrorText` gives the message of each. */
  datatype RunError =
    | ModelCallFailed(msg: string)
    | NoToolAction
    | DecodeFailed(msg: string)
    | UnknownTool(name: string)
    | MaxStepsExceeded
    | ShortcutToolFailed(msg: string)
    | MissingShortcutTool

  function ErrorText(e: RunError): (r: string)
    ensures e.DecodeFailed? ==> TrimPrefix(r, "failed to unmarshal tool invocation JSON: ") == e.msg
    ensures e.DecodeFailed? ==> HasPrefix(r, "failed to unmarshal tool invocation JSON: ")
    ensures e.UnknownTool? ==> TrimPrefix(r, "unknown tool: ") == e.name && HasPrefix(r, "unknown tool: ")
  {
    match e
    case ModelCallFailed(m) => m
    case DecodeFailed(m) =>
      PrefixOfAppend("failed to unmarshal tool invocation JSON: ", m);
      "failed to unmarshal tool invocation JSON: " + m
    case UnknownTool(n) =>
      PrefixOfAppend("unknown tool: ", n);
      "unknown tool: " + n
    case NoToolAction => "could not find a valid tool action in the LLM's response"
    case MaxStepsExceeded => "agent failed to find a final answer within the maximum number of steps"
    case ShortcutToolFailed(m) => m
    // calling the zero Tool's nil Function panics
    case MissingShortcutTool => "runtime error: invalid memory address or nil pointer dereference"
  }

  /** An error whose message carries a detail: the decoder's message or the tool's name. */
  predicate HasDetail(e: RunError) {
    e.DecodeFailed? || e.UnknownTool?
  }

  /** The message of a decode or unknown-tool error tells which of the two
      it was, and gives back the decoder's message or the tool's name. */
  lemma ErrorTextIdentifiesDetail(a: RunError, b: RunError)
    requires HasDetail(a) && HasDetail(b)
    ensures ErrorText(a) == ErrorText(b) ==> a == b
  {
    if ErrorText(a) == ErrorText(b) {
      var ta := ErrorText(a);
      if a.DecodeFailed? && b.DecodeFailed? {
        assert a.msg == TrimPrefix(ta, "failed to unmarshal tool invocation JSON: ");
      } else if a.UnknownTool? && b.UnknownTool? {
        assert a.name == TrimPrefix(ta, "unknown tool: ");
      } else {
        LeadOfText(a);
        LeadOfText(b);
      }
    }
  }

  lemma LeadOfText(e: RunError)
    requires HasDetail(e)
    ensures |ErrorText(e)| > 0 && ErrorText(e)[0] == (if e.DecodeFailed? then 'f' else 'u')
  {
    var t := ErrorText(e);
    if e.DecodeFailed? {
      var p := "failed to unmarshal tool invocation JSON: ";
      assert t == p + e.msg;
      assert t[0] == p[0] == 'f';
    } else {
      var p := "unknown tool: ";
      assert t == p + e.name;
      assert t[0] == p[0] == 'u';
    }
  }

  /** How one response is read: a final answer, a tool call (the matched
      text), or neither. */
  datatype Interpretation = FinalAnswer(answer: string) | ToolCall(text: string) | Neither

  function Interpret(response: string): (r: Interpretation)
    ensures r.FinalAnswer? <==> HasPrefix(response, FinalMarker)
    ensures r.FinalAnswer? ==> exists a: nat :: TrimmedAt(response[|FinalMarker|..], r.answer, a)
    ensures r.Neither? <==> !HasPrefix(response, FinalMarker) && FindAction(response).None?
    ensures r.ToolCall? ==>
      && FindAction(response).Some?
      && r.text == response[FindAction(response).value.start..FindAction(response).value.end]
      && HasPrefix(r.text, Opener) && HasSuffix(r.text, Closer)
  {
    if HasPrefix(response, FinalMarker) then FinalAnswer(TrimSpace(TrimPrefix(response, FinalMarker)))
    else
      match FindAction(response)
      case None => Neither
      case Some(sp) => ToolCall(ActionText(response, sp))
  }

  /** A response that is the marker, a space and an already trimmed answer
      yields exactly that answer. */
  lemma FinalAnswerPayload(x: string)
    requires |x| > 0 ==> !IsSpace(x[0]) && !IsSpace(x[|x| - 1])
    ensures Interpret(FinalMarker + " " + x) == FinalAnswer(x)
  {
    var response := FinalMarker + " " + x;
    assert HasPrefix(response, FinalMarker) && response[|FinalMarker|..] == [' '] + x;
    TrimSpaceSkipsLeadingSpace(' ', x);
    TrimSpaceOfTrimmed(x);
  }

  /** What one step does with a response. */
  datatype StepResult = Finish(answer: string) | Observe(entry: string) | Abort(error: StepError)

  const ObservationHead: string := "\nObservation: "

  /** The history entry for a tool's result or error. */
  function ObservationEntry(o: ToolOutcome): (entry: string)
    ensures HasPrefix(entry, ObservationHead)
    ensures o.ToolOk? ==> entry == ObservationHead + o.text
    ensures o.ToolErr? ==> entry == ObservationHead + "Tool execution failed with error: " + o.msg
  {
    match o
    case ToolOk(t) => ObservationHead + t
    case ToolErr(e) => ObservationHead + "Tool execution failed with error: " + e
  }

  /** The body of one loop iteration after the model has answered. */
  function Step(tools: Registry, decode: string -> Result<Invocation, string>, response: string): (r: StepResult)
    ensures r.Finish? <==> HasPrefix(response, FinalMarker)
    ensures r.Finish? ==> Interpret(response) == FinalAnswer(r.answer)
    ensures r == Abort(NoAction) <==> Interpret(response).Neither?
    ensures r.Abort? && r.error.Undecodable? ==>
      Interpret(response).ToolCall? && decode(Interpret(response).text) == Failure(r.error.msg)
    ensures r.Abort? && r.error.Unregistered? ==>
      Interpret(response).ToolCall? && decode(Interpret(response).text).Success?
      && decode(Interpret(response).text).value.name == r.error.name && r.error.name !in tools
    ensures r.Observe? <==>
      && Interpret(response).ToolCall?
      && decode(Interpret(response).text).Success?
      && decode(Interpret(response).text).value.name in tools
    ensures r.Observe? ==>
      var inv := decode(Interpret(response).text).value;
      r.entry == ObservationEntry(tools[inv.name].run(inv.args))
  {
    match Interpret(response)
    case FinalAnswer(a) => Finish(a)
    case Neither => Abort(NoAction)
    case ToolCall(text) =>
      match decode(text)
      case Failure(e) => Abort(Undecodable(e))
      case Success(inv) =>
        if inv.name !in tools then Abort(Unregistered(inv.name))
        else Observe(ObservationEntry(tools[inv.name].run(inv.args)))
  }

  /** One iteration that called a tool: the prompt that went out and the
      observation appended to the history afterwards. */
  datatype Iteration<Q> = Iteration(prompt: Q, observation: string)

  /** The outcome of a run, what the history store holds once it is over,
      the iterations that called a tool, in order, and the prompt of the
      iteration that ended the run (none when the step bound ended it). */
  datatype RunResult<Q> = RunResult(
    outcome: Result<string, RunError>,
    history: string,
    steps: seq<Iteration<Q>>,
    last: Option<Q>)

  /** The observations of `steps`, concatenated in order. */
  function Appended<Q>(steps: seq<Iteration<Q>>): string {
    if steps == [] then "" else steps[0].observation + Appended(steps[1..])
  }

  function AnswerEntry(answer: string): string {
    "\nAssistant: " + answer
  }

  /** What a run appends last: the answer entry after a final answer, nothing otherwise. */
  function Closing(outcome: Result<string, RunError>): string {
    if outcome.Success? then AnswerEntry(outcome.value) else ""
  }

  /** An outcome a single iteration can end the run with: anything but
      running out of steps. */
  type StopOutcome = o: Result<string, RunError> | o != Failure(MaxStepsExceeded) witness Success("")

  /** What an iteration leads to: the next iteration with one more history
      entry, or the end of the run with an outcome. */
  datatype Turn = Next(entry: string) | Stop(outcome: StopOutcome)

  /** The three things one iteration of the loop consults: the prompt for
      iteration `i` and history `h`, the model's reply to the `i`-th prompt,
      and what that reply leads to. */
  datatype Parts<!Q> = Parts(
    prompt: (nat, string) -> Q,
    model: (nat, Q) -> Reply,
    turn: Reply -> Turn)

  /** One iteration of the agent after the prompt went out: a failed call or
      a rejected response ends the run with an error, a final answer ends it
      with the answer, and a tool's observation leads on. */
  function TurnOf(tools: Registry, decode: string -> Result<Invocation, string>, reply: Reply): (t: Turn)
    ensures reply.CallFailed? ==> t.Stop? && t.outcome == Failure(ModelCallFailed(reply.err))
    ensures reply.Replied? ==>
      var s := Step(tools, decode, reply.text);
      && (t.Next? <==> s.Observe?)
      && (s.Observe? ==> t.Next? && t.entry == s.entry)
      && (s.Finish? ==> t.Stop? && t.outcome == Success(s.answer))
      && (s.Abort? ==> t.Stop? && t.outcome == Failure(StepFailure(s.error)))
  {
    match reply
    case CallFailed(e) => Stop(Failure(ModelCallFailed(e)))
    case Replied(response) =>
      var s := Step(tools, decode, response);
      if s.Finish? then Stop(Success(s.answer))
      else if s.Abort? then Stop(Failure(StepFailure(s.error)))
      else Next(s.entry)
  }

  /** Iterations `i` to `MaxSteps - 1` of the loop, starting from `history`. */
  function Drive<Q>(p: Parts<Q>, history: string, i: nat): (r: RunResult<Q>)
    ensures r.steps == [] || i + |r.steps| <= MaxSteps
    ensures r.last.None? <==> r.outcome == Failure(MaxStepsExceeded)
    decreases MaxSteps - i
  {
    if i >= MaxSteps then RunResult(Failure(MaxStepsExceeded), history, [], None)
    else
      var prompt := p.prompt(i, history);
      match p.turn(p.model(i, prompt))
      case Stop(o) => RunResult(o, history + Closing(o), [], Some(prompt))
      case Next(entry) =>
        var rest := Drive(p, history + entry, i + 1);
        RunResult(rest.outcome, rest.history, [Iteration(prompt, entry)] + rest.steps, rest.last)
  }

  /** The loop makes at most `MaxSteps - i` tool-calling iterations; it
      fails with `MaxStepsExceeded` exactly when it made all of them without
      stopping, and otherwise records the prompt that stopped it. */
  lemma {:induction false} DriveBounds<Q>(p: Parts<Q>, history: string, i: nat)
    requires i <= MaxSteps
    ensures var r := Drive(p, history, i);
      && (r.last.None? <==> r.outcome == Failure(MaxStepsExceeded))
      && (r.last.None? ==> i + |r.steps| == MaxSteps)
      && (r.last.Some? ==> i + |r.steps| < MaxSteps)
    decreases MaxSteps - i
  {
    if i < MaxSteps {
      var t := p.turn(p.model(i, p.prompt(i, history)));
      if t.Next? {
        DriveBounds(p, history + t.entry, i + 1);
      }
    }
  }

  /** The history store ends up holding the starting history, every
      observation in order, and the answer entry if there was an answer. */
  lemma {:induction false} DriveHistory<Q>(p: Parts<Q>, history: string, i: nat)
    ensures var r := Drive(p, history, i);
      r.history == history + Appended(r.steps) + Closing(r.outcome)
    decreases MaxSteps - i
  {
    var r := Drive(p, history, i);
    if i < MaxSteps {
      var t := p.turn(p.model(i, p.prompt(i, history)));
      if t.Next? {
        var rest := Drive(p, history + t.entry, i + 1);
        DriveHistory(p, history + t.entry, i + 1);
        assert r.steps[1..] == rest.steps;
        assert Appended(r.steps) == t.entry + Appended(rest.steps);
        Regroup4(history, t.entry, Appended(rest.steps), Closing(rest.outcome));
      } else {
        assert Appended(r.steps) == "";
        assert history + "" == history;
      }
    } else {
      assert Appended(r.steps) == "";
      assert history + "" == history;
    }
  }

  /** The prompt of the `k`-th tool-calling iteration, the `n`-th prompt of
      the loop, is built from the history with the first `k` observations
      appended. */
  lemma {:induction false} DrivePrompt<Q>(p: Parts<Q>, history: string, i: nat, k: nat, n: nat)
    requires k < |Drive(p, history, i).steps| && n == i + k
    ensures var r := Drive(p, history, i);
      r.steps[k].prompt == p.prompt(n, history + Appended(r.steps[..k]))
    decreases k
  {
    var r := Drive(p, history, i);
    if k == 0 {
      assert r.steps[..0] == [] && history + "" == history;
    } else {
      var t := p.turn(p.model(i, p.prompt(i, history)));
      var rest := Drive(p, history + t.entry, i + 1);
      DrivePrompt(p, history + t.entry, i + 1, k - 1, n);
      assert r.steps == [Iteration(p.prompt(i, history), t.entry)] + rest.steps;
      AppendedAfterHead(Iteration(p.prompt(i, history), t.entry), rest.steps, k);
      Regroup(history, t.entry, Appended(rest.steps[..k - 1]));
    }
  }

  /** The observations of the first `k` of `[s] + rest` are `s`'s and then
      those of the first `k - 1` of `rest`. */
  lemma AppendedAfterHead<Q>(s: Iteration<Q>, rest: seq<Iteration<Q>>, k: nat)
    requires 0 < k <= |rest|
    ensures ([s] + rest)[k] == rest[k - 1]
    ensures Appended(([s] + rest)[..k]) == s.observation + Appended(rest[..k - 1])
  {
    var front := ([s] + rest)[..k];
    assert front[0] == s && front[1..] == rest[..k - 1];
  }

  /** The observation of the `k`-th tool-calling iteration, the `n`-th of the
      loop, is what the model's answer to its prompt led to. */
  lemma {:induction false} DriveObservation<Q>(p: Parts<Q>, history: string, i: nat, k: nat, n: nat)
    requires k < |Drive(p, history, i).steps| && n == i + k
    ensures var s := Drive(p, history, i).steps[k];
      p.turn(p.model(n, s.prompt)) == Next(s.observation)
    decreases k
  {
    var r := Drive(p, history, i);
    if k > 0 {
      var t := p.turn(p.model(i, p.prompt(i, history)));
      var rest := Drive(p, history + t.entry, i + 1);
      DriveObservation(p, history + t.entry, i + 1, k - 1, n);
      assert r.steps[k] == rest.steps[k - 1];
    }
  }

  /** Unless the step bound was hit, the last prompt, the `n`-th, is built
      from the history with every observation appended, and the model's
      answer to it ended the run with the run's outcome. */
  lemma {:induction false} DriveLast<Q>(p: Parts<Q>, history: string, i: nat, n: nat)
    requires n == i + |Drive(p, history, i).steps|
    ensures var r := Drive(p, history, i);
      r.last.Some? ==>
        && r.last.value == p.prompt(n, history + Appended(r.steps))
        && p.turn(p.model(n, r.last.value)).Stop?
        && p.turn(p.model(n, r.last.value)).outcome == r.outcome
    decreases MaxSteps - i
  {
    var r := Drive(p, history, i);
    if i < MaxSteps {
      var t := p.turn(p.model(i, p.prompt(i, history)));
      if t.Next? {
        var rest := Drive(p, history + t.entry, i + 1);
        DriveLast(p, history + t.entry, i + 1, n);
        assert r.steps[1..] == rest.steps;
        assert Appended(r.steps) == t.entry + Appended(rest.steps);
        Regroup(history, t.entry, Appended(rest.steps));
      } else {
        assert r.steps == [] && history + "" == history;
      }
    }
  }

  /** The loop of `Agent.Run` for one registry, environment and request. */
  function AgentParts(tools: Registry, env: Env, userInput: string): Parts<PromptInput> {
    Parts((i: nat, h: string) => PromptInput(env.toolOrder(i), h, userInput), env.model, reply => TurnOf(tools, env.decode, reply))
  }

  /** The `i`-th prompt of the loop, on history `h`. */
  lemma AgentPrompt(tools: Registry, env: Env, userInput: string, i: nat, h: string)
    ensures AgentParts(tools, env, userInput).prompt(i, h) == PromptInput(env.toolOrder(i), h, userInput)
  {
  }

  /** What a reply leads to in the loop. */
  lemma AgentTurn(tools: Registry, env: Env, userInput: string, reply: Reply)
    ensures AgentParts(tools, env, userInput).model == env.model
    ensures AgentParts(tools, env, userInput).turn(reply) == TurnOf(tools, env.decode, reply)
  {
  }

  /** The run's pre-emptive check on the user's request. */
  predicate IsShortcut(userInput: string) {
    Contains(ToLower(userInput), TriggerPhrase)
  }

  /** The `chris_tanti` tool called directly on the user's request: its
      result or error is the run's, and the history is left alone. */
  function Shortcut(tools: Registry, history: string, userInput: string): (r: RunResult<PromptInput>)
    ensures r.steps == [] && r.last == None && r.history == history
    ensures "chris_tanti" !in tools ==> r.outcome == Failure(MissingShortcutTool)
    ensures "chris_tanti" in tools ==>
      var o := tools["chris_tanti"].run(map["query" := JString(userInput)]);
      (o.ToolOk? ==> r.outcome == Success(o.text)) && (o.ToolErr? ==> r.outcome == Failure(ShortcutToolFailed(o.msg)))
  {
    if "chris_tanti" !in tools then RunResult(Failure(MissingShortcutTool), history, [], None)
    else
      match tools["chris_tanti"].run(map["query" := JString(userInput)])
      case ToolOk(t) => RunResult(Success(t), history, [], None)
      case ToolErr(e) => RunResult(Failure(ShortcutToolFailed(e)), history, [], None)
  }

  /** `Agent.Run` on the history read from the store. */
  function Run(tools: Registry, env: Env, history: string, userInput: string): (r: RunResult<PromptInput>)
    ensures HasPrefix(r.history, history)
    ensures |r.steps| <= MaxSteps
    ensures IsShortcut(userInput) ==> r.steps == [] && r.last == None && r.history == history
    ensures !IsShortcut(userInput) ==> r.history == history + Appended(r.steps) + Closing(r.outcome)
    ensures !IsShortcut(userInput) ==> (r.last.None? <==> r.outcome == Failure(MaxStepsExceeded))
    ensures r.last.Some? ==> |r.steps| < MaxSteps
    ensures r.outcome == Failure(MaxStepsExceeded) ==> |r.steps| == MaxSteps
  {
    if IsShortcut(userInput) then Shortcut(tools, history, userInput)
    else
      var p := AgentParts(tools, env, userInput);
      var r := Drive(p, history, 0);
      DriveHistory(p, history, 0);
      DriveBounds(p, history, 0);
      PrefixOfAppend(history, Appended(r.steps) + Closing(r.outcome));
      Regroup(history, Appended(r.steps), Closing(r.outcome));
      r
  }

  /** Without the shortcut, a run is the loop from iteration 0. */
  lemma RunIsDrive(tools: Registry, env: Env, history: string, userInput: string)
    requires !IsShortcut(userInput)
    ensures Run(tools, env, history, userInput) == Drive(AgentParts(tools, env, userInput), history, 0)
  {
  }

  /** The prompt of a run's `k`-th tool-calling iteration is built from the
      `k`-th tool listing and the history with the first `k` observations. */
  lemma RunPrompt(tools: Registry, env: Env, history: string, userInput: string, k: nat)
    requires !IsShortcut(userInput) && k < |Run(tools, env, history, userInput).steps|
    ensures var r := Run(tools, env, history, userInput);
      r.steps[k].prompt == PromptInput(env.toolOrder(k), history + Appended(r.steps[..k]), userInput)
  {
    var r := Run(tools, env, history, userInput);
    DrivePrompt(AgentParts(tools, env, userInput), history, 0, k, k);
    AgentPrompt(tools, env, userInput, k, history + Appended(r.steps[..k]));
  }

  /** The observation of a run's `k`-th tool-calling iteration is what the
      model's answer to its prompt led to. */
  lemma RunObservation(tools: Registry, env: Env, history: string, userInput: string, k: nat)
    requires !IsShortcut(userInput) && k < |Run(tools, env, history, userInput).steps|
    ensures var s := Run(tools, env, history, userInput).steps[k];
      TurnOf(tools, env.decode, env.model(k, s.prompt)) == Next(s.observation)
  {
    var s := Run(tools, env, history, userInput).steps[k];
    DriveObservation(AgentParts(tools, env, userInput), history, 0, k, k);
    AgentTurn(tools, env, userInput, env.model(k, s.prompt));
  }

  /** Unless the step bound was hit, the run's last prompt carries every
      observation, and the model's answer to it ended the run with the
      run's outcome. */
  lemma RunLast(tools: Registry, env: Env, history: string, userInput: string)
    requires !IsShortcut(userInput)
    ensures var r := Run(tools, env, history, userInput);
      r.last.Some? ==>
        && r.last.value == PromptInput(env.toolOrder(|r.steps|), history + Appended(r.steps), userInput)
        && TurnOf(tools, env.decode, env.model(|r.steps|, r.last.value)).Stop?
        && TurnOf(tools, env.decode, env.model(|r.steps|, r.last.value)).outcome == r.outcome
  {
    var r := Run(tools, env, history, userInput);
    var n := |r.steps|;
    DriveLast(AgentParts(tools, env, userInput), history, 0, n);
    if r.last.Some? {
      AgentPrompt(tools, env, userInput, n, history + Appended(r.steps));
      AgentTurn(tools, env, userInput, env.model(n, r.last.value));
    }
  }

  /** With the program's own registry the shortcut always answers with the
      fixed facts, without calling the model. */
  lemma ShortcutAnswersFacts(env: Env, history: string, userInput: string)
    requires IsShortcut(userInput)
    ensures Run(DefaultRegistry(), env, history, userInput) == RunResult(Success(ChrisTantiFacts), history, [], None)
  {
    assert StringArg(map["query" := JString(userInput)], "query") == Some(userInput);
  }

  /** What every prompt of a run is made of: a listing of the whole
      registry, a history that extends the one the run started from, and
      the user's request. */
  ghost predicate PromptOfRun(q: PromptInput, tools: Registry, history: string, userInput: string) {
    IsListing(q.listing, tools) && HasPrefix(q.history, history) && q.userInput == userInput
  }

  /** Such a prompt names every registered tool, carries the history the run
      started from, and ends with the user's request. */
  lemma PromptOfRunText(q: PromptInput, tools: Registry, history: string, userInput: string)
    requires WellKeyed(tools) && PromptOfRun(q, tools, history, userInput)
    ensures forall n :: n in tools ==> Contains(q.Text(), "Name: " + n + "\n")
    ensures Contains(q.Text(), history)
    ensures HasSuffix(q.Text(), "User: " + userInput)
  {
    PromptCarriesEarlierHistory(tools, q.listing, history, q.history, userInput);
  }

  /** Every prompt a run sends, on a tool-calling iteration or on the last
      one, is a prompt of that run in the above sense. */
  lemma EveryPromptIsOfRun(tools: Registry, env: Env, history: string, userInput: string, k: nat)
    requires ValidEnv(env, tools) && !IsShortcut(userInput)
    ensures var r := Run(tools, env, history, userInput);
      && (k < |r.steps| ==> PromptOfRun(r.steps[k].prompt, tools, history, userInput))
      && (r.last.Some? ==> PromptOfRun(r.last.value, tools, history, userInput))
  {
    var r := Run(tools, env, history, userInput);
    if k < |r.steps| {
      RunPrompt(tools, env, history, userInput, k);
      PrefixOfAppend(history, Appended(r.steps[..k]));
    }
    if r.last.Some? {
      RunLast(tools, env, history, userInput);
      PrefixOfAppend(history, Appended(r.steps));
    }
  }

  /** What a reply with the final marker leads to: the end of the run with
      the trimmed remainder as the answer. */
  lemma FinalReplyStops(tools: Registry, decode: string -> Result<Invocation, string>, reply: Reply)
    requires reply.Replied? && HasPrefix(reply.text, FinalMarker)
    ensures TurnOf(tools, decode, reply) == Stop(Success(TrimSpace(reply.text[|FinalMarker|..])))
  {
    assert Step(tools, decode, reply.text) == Finish(TrimSpace(reply.text[|FinalMarker|..]));
  }

  /** A first iteration that stops ends the loop there, with nothing appended
      but the closing entry. */
  lemma DriveStopsFirst<Q>(p: Parts<Q>, history: string, o: StopOutcome)
    requires p.turn(p.model(0, p.prompt(0, history))) == Stop(o)
    ensures Drive(p, history, 0) == RunResult(o, history + Closing(o), [], Some(p.prompt(0, history)))
  {
  }

  /** A first answer carrying the final marker ends the run after one call
      with the trimmed remainder, and the history gains exactly the answer entry. */
  lemma FirstFinalAnswerEndsRun(tools: Registry, env: Env, history: string, userInput: string)
    requires !IsShortcut(userInput)
    requires var q := PromptInput(env.toolOrder(0), history, userInput);
      env.model(0, q).Replied? && HasPrefix(env.model(0, q).text, FinalMarker)
    ensures var q := PromptInput(env.toolOrder(0), history, userInput);
      var answer := TrimSpace(env.model(0, q).text[|FinalMarker|..]);
      Run(tools, env, history, userInput) == RunResult(Success(answer), history + ("\nAssistant: " + answer), [], Some(q))
  {
    var q := PromptInput(env.toolOrder(0), history, userInput);
    var reply := env.model(0, q);
    var p := AgentParts(tools, env, userInput);
    FinalReplyStops(tools, env.decode, reply);
    AgentPrompt(tools, env, userInput, 0, history);
    AgentTurn(tools, env, userInput, reply);
    assert p.turn(p.model(0, p.prompt(0, history))) == Stop(Success(TrimSpace(reply.text[|FinalMarker|..])));
    DriveStopsFirst(p, history, Success(TrimSpace(reply.text[|FinalMarker|..])));
    RunIsDrive(tools, env, history, userInput);
  }

  /** A run fails with `NoToolAction` exactly when the reply to its last
      prompt has neither the final marker nor a match, and that step adds
      nothing to the history. */
  lemma NoActionEndsRunUnextended(tools: Registry, env: Env, history: string, userInput: string)
    requires !IsShortcut(userInput)
    ensures var r := Run(tools, env, history, userInput);
      r.outcome == Failure(NoToolAction) ==> r.last.Some? && r.history == history + Appended(r.steps)
    ensures var r := Run(tools, env, history, userInput);
      r.last.Some? ==>
        var reply := env.model(|r.steps|, r.last.value);
        (r.outcome == Failure(NoToolAction) <==>
           reply.Replied? && !HasPrefix(reply.text, FinalMarker) && FindAction(reply.text).None?)
  {
    RunLast(tools, env, history, userInput);
  }

  /** A run fails with `UnknownTool` exactly when the reply to its last
      prompt decodes to a call of an unregistered tool, which it names; no
      observation is appended for it. */
  lemma UnknownToolEndsRunUnextended(tools: Registry, env: Env, history: string, userInput: string)
    requires !IsShortcut(userInput)
    ensures var r := Run(tools, env, history, userInput);
      r.outcome.Failure? && r.outcome.error.UnknownTool? ==>
        && r.last.Some?
        && r.history == history + Appended(r.steps)
        && r.outcome.error.name !in tools
    ensures var r := Run(tools, env, history, userInput);
      r.last.Some? ==>
        var reply := env.model(|r.steps|, r.last.value);
        && (r.outcome.Failure? && r.outcome.error.UnknownTool? ==>
              && reply.Replied? && Interpret(reply.text).ToolCall?
              && env.decode(Interpret(reply.text).text).Success?
              && env.decode(Interpret(reply.text).text).value.name == r.outcome.error.name)
        && (reply.Replied? && Interpret(reply.text).ToolCall?
            && env.decode(Interpret(reply.text).text).Success?
            && env.decode(Interpret(reply.text).text).value.name !in tools ==>
              r.outcome == Failure(UnknownTool(env.decode(Interpret(reply.text).text).value.name)))
  {
    RunLast(tools, env, history, userInput);
  }

  /** Exhausting the step bound takes five model calls, each answered by a
      tool call whose observation was appended. */
  lemma MaxStepsMeansFiveToolSteps(tools: Registry, env: Env, history: string, userInput: string)
    requires Run(tools, env, history, userInput).outcome == Failure(MaxStepsExceeded)
    ensures var r := Run(tools, env, history, userInput);
      && |r.steps| == MaxSteps && r.last.None?
      && r.history == history + Appended(r.steps)
      && forall k :: 0 <= k < MaxSteps ==>
           var reply := env.model(k, r.steps[k].prompt);
           reply.Replied? && Step(tools, env.decode, reply.text) == Observe(r.steps[k].observation)
  {
    var r := Run(tools, env, history, userInput);
    forall k | 0 <= k < MaxSteps
      ensures var reply := env.model(k, r.steps[k].prompt);
        reply.Replied? && Step(tools, env.decode, reply.text) == Observe(r.steps[k].observation)
    {
      RunObservation(tools, env, history, userInput, k);
    }
  }

  /** Each tool-calling iteration appends exactly its observation, which is
      the tool's result or error text, and the history before it is a prefix
      of the history after it. */
  lemma ToolStepAppendsOneObservation(tools: Registry, env: Env, history: string, userInput: string, k: nat)
    requires !IsShortcut(userInput)
    requires k < |Run(tools, env, history, userInput).steps|
    ensures var r := Run(tools, env, history, userInput);
      var before := history + Appended(r.steps[..k]);
      var after := history + Appended(r.steps[..k + 1]);
      && after == before + r.steps[k].observation
      && HasPrefix(after, before)
      && HasPrefix(r.steps[k].observation, ObservationHead)
  {
    var r := Run(tools, env, history, userInput);
    RunObservation(tools, env, history, userInput, k);
    NextIsObservation(tools, env.decode, env.model(k, r.steps[k].prompt));
    StepExtendsHistory(history, r.steps, k);
  }

  /** The history after `k + 1` iterations is the history after `k` and then
      the `k`-th observation. */
  lemma StepExtendsHistory<Q>(history: string, steps: seq<Iteration<Q>>, k: nat)
    requires k < |steps|
    ensures var before := history + Appended(steps[..k]);
      var after := history + Appended(steps[..k + 1]);
      && after == before + steps[k].observation
      && HasPrefix(after, before)
  {
    AppendedUpTo(steps, k);
    Regroup(history, Appended(steps[..k]), steps[k].observation);
    PrefixOfAppend(history + Appended(steps[..k]), steps[k].observation);
  }

  /** What a reply that leads on appends is an observation entry. */
  lemma NextIsObservation(tools: Registry, decode: string -> Result<Invocation, string>, reply: Reply)
    requires TurnOf(tools, decode, reply).Next?
    ensures HasPrefix(TurnOf(tools, decode, reply).entry, ObservationHead)
  {
  }

  /** The observations of the first `k + 1` iterations are those of the first
      `k` and then the `k`-th. */
  lemma AppendedUpTo<Q>(steps: seq<Iteration<Q>>, k: nat)
    requires k < |steps|
    ensures Appended(steps[..k + 1]) == Appended(steps[..k]) + steps[k].observation
  {
    assert steps[..k + 1] == steps[..k] + [steps[k]];
    AppendedSnoc(steps[..k], steps[k]);
  }

  /** One more iteration appends exactly its observation. */
  lemma {:induction false} AppendedSnoc<Q>(steps: seq<Iteration<Q>>, s: Iteration<Q>)
    ensures Appended(steps + [s]) == Appended(steps) + s.observation
  {
    if steps == [] {
      assert steps + [s] == [s];
    } else {
      assert (steps + [s])[1..] == steps[1..] + [s];
      AppendedSnoc(steps[1..], s);
    }
  }
}
