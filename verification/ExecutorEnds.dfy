/** How every step of the ReAct loop ends, which step ends a run, and what the messages
    that a step appends say. */
module ExecutorEnds {
  import opened Options
  import opened Text
  import opened Executor
  import opened ExecutorRuns

  // ---------- exits ----------

  /** A reply without tool calls that says something. */
  predicate IsFinal(input: StepInput) {
    input.Reply? && input.calls == [] && input.content != ""
  }

  /** The errors and timeouts since the last step with a success, this one included. */
  ghost function CountWith(s: State, input: StepInput): nat {
    var records := s.steps + [RecordOf(input)];
    Errors(records[SinceSuccess(records)..])
  }

  ghost predicate Looped(s: State, input: StepInput) {
    input.Reply? && exists m :: GuardTrips(s, input.calls, m)
  }

  /** The reason for which this input ends the run in s; `observed` is the length of the
      tool messages of the run with those of this step. */
  ghost predicate EndsFor(cfg: Config, s: State, input: StepInput, observed: nat, r: Reason) {
    match r
    case TooLong => input.GlobalTimeout?
    case Exception => input.ModelFails?
    case ConsecutiveTimeouts => input.StepTimeout? && CountWith(s, input) >= 3
    case Answer => IsFinal(input)
    case InfiniteLoop => Looped(s, input)
    case SystemCrash => CallsTools(input) && !Looped(s, input) && MentionsCrash(input.results)
    case ConsecutiveErrors =>
      CallsTools(input) && !Looped(s, input) && !MentionsCrash(input.results) && CountWith(s, input) >= 3
    case TokenBurn =>
      && CallsTools(input) && !Looped(s, input) && !MentionsCrash(input.results)
      && CountWith(s, input) < 3 && observed > cfg.hardChars
  }

  ghost predicate MentionsCrash(results: seq<ToolResult>) {
    exists i :: 0 <= i < |results| && Contains(results[i].text, "SYSTEM_CRASH")
  }

  lemma CrashIsMentioned(results: seq<ToolResult>)
    ensures SomeCrashed(results) <==> MentionsCrash(results)
  {
    hide Contains;
    if i :| 0 <= i < |results| && Contains(results[i].text, "SYSTEM_CRASH") { assert IsCrash(results[i]); }
  }

  predicate CallsTools(input: StepInput) {
    input.Reply? && input.calls != []
  }

  ghost function Observed(s: State): nat {
    if s.runStart <= |s.messages| then ToolChars(s.messages[s.runStart..]) else 0
  }

  lemma ToolStepEnds(cfg: Config, s: State, input: StepInput, step: nat, r: Reason)
    requires InputFits(input) && s.end == None && Inv(cfg, s) && CallsTools(input)
    ensures var s' := Step(cfg, s, input, step);
      s'.end == Some(r) <==> EndsFor(cfg, s, input, Observed(s'), r)
  {
    hide Inv, Step, Errors, SinceSuccess, ToolChars, GuardTrips, SomeCrashed, MentionsCrash, RecordOf;
    ToolStepExits(cfg, s, input, step);
    CrashIsMentioned(input.results);
    var s' := Step(cfg, s, input, step);
    ToolReasons(cfg, s, input, step);
  }

  lemma ToolReasons(cfg: Config, s: State, input: StepInput, step: nat)
    requires InputFits(input) && s.end == None && CallsTools(input)
    ensures Step(cfg, s, input, step).end in
      {None, Some(InfiniteLoop), Some(SystemCrash), Some(ConsecutiveErrors), Some(TokenBurn)}
  {
    hide ProcessCalls;
    var s1 := s.(messages := s.messages + [Assistant(input.content, input.calls)]);
    CallsErrors(s1, input.calls, input.results, |input.calls|);
  }

  lemma OtherStepEnds(cfg: Config, s: State, input: StepInput, step: nat, r: Reason)
    requires InputFits(input) && s.end == None && Inv(cfg, s) && !CallsTools(input)
    ensures var s' := Step(cfg, s, input, step);
      s'.end == Some(r) <==> EndsFor(cfg, s, input, Observed(s'), r)
  {
    hide ProcessCalls, Errors, SinceSuccess, ToolChars, GuardTrips, MentionsCrash, GuardInv, GuardDecides, Paired;
    if input.StepTimeout? {
      BreakerEndsAtFirstReach(cfg, s, input, step);
    } else if input.Reply? {
      NoTrips(s);
    }
  }

  /** Every exit of every step, with its reason, read off the input and the accounts of the
      run: in particular the run ends with an answer exactly on a reply without tool calls
      that is not empty. */
  lemma StepEnds(cfg: Config, s: State, input: StepInput, step: nat, r: Reason)
    requires InputFits(input) && s.end == None && Inv(cfg, s)
    ensures var s' := Step(cfg, s, input, step);
      s'.end == Some(r) <==> EndsFor(cfg, s, input, Observed(s'), r)
  {
    hide Inv, Step, EndsFor;
    if CallsTools(input) { ToolStepEnds(cfg, s, input, step, r); } else { OtherStepEnds(cfg, s, input, step, r); }
  }

  /** Step k is reached, and ends the run for this reason. */
  ghost predicate EndsAt(cfg: Config, s: State, inputs: seq<StepInput>, k: nat, r: Reason)
    requires InputsFit(inputs) && k < |inputs|
  {
    && RunTo(cfg, s, inputs, k).end == None
    && EndsFor(cfg, RunTo(cfg, s, inputs, k), inputs[k], Observed(RunTo(cfg, s, inputs, k + 1)), r)
  }

  lemma EndStaysAt(cfg: Config, s: State, inputs: seq<StepInput>, k: nat)
    requires InputsFit(inputs) && k < |inputs| && Inv(cfg, s)
    ensures var before, after := RunTo(cfg, s, inputs, k), RunTo(cfg, s, inputs, k + 1);
      && (before.end != None ==> after == before)
      && forall r :: before.end == None ==> (after.end == Some(r) <==> EndsAt(cfg, s, inputs, k, r))
  {
    hide Inv, Step, EndsFor;
    var before := RunTo(cfg, s, inputs, k);
    RunKeepsInv(cfg, s, inputs, k);
    if before.end != None {
      EndStays(cfg, before, inputs[k], k);
    } else {
      forall r ensures RunTo(cfg, s, inputs, k + 1).end == Some(r) <==> EndsAt(cfg, s, inputs, k, r) {
        StepEnds(cfg, before, inputs[k], k, r);
      }
    }
  }

  /** Some step among the first n is reached, and ends the run for this reason. */
  ghost predicate SomeEnds(cfg: Config, s: State, inputs: seq<StepInput>, n: nat, r: Reason)
    requires InputsFit(inputs) && n <= |inputs|
  {
    exists k :: 0 <= k < n && EndsAt(cfg, s, inputs, k, r)
  }

  /** A run ends for a reason exactly when some step is reached and ends it for that reason. */
  lemma {:induction false} RunEnds(cfg: Config, s: State, inputs: seq<StepInput>, n: nat, r: Reason)
    requires InputsFit(inputs) && n <= |inputs| && Inv(cfg, s) && s.end == None
    ensures RunTo(cfg, s, inputs, n).end == Some(r) <==> SomeEnds(cfg, s, inputs, n, r)
  {
    hide Inv, Step, EndsAt;
    if n > 0 {
      RunEnds(cfg, s, inputs, n - 1, r);
      EndStaysAt(cfg, s, inputs, n - 1);
      if RunTo(cfg, s, inputs, n - 1).end != None { NotReached(cfg, s, inputs, n - 1, r); }
    }
  }

  lemma NotReached(cfg: Config, s: State, inputs: seq<StepInput>, k: nat, r: Reason)
    requires InputsFit(inputs) && k < |inputs| && RunTo(cfg, s, inputs, k).end != None
    ensures !EndsAt(cfg, s, inputs, k, r)
  {
  }

  /** ... so it reaches the step limit exactly when no step does that for any reason. */
  lemma RunReachesLimitIff(cfg: Config, s: State, inputs: seq<StepInput>, n: nat)
    requires InputsFit(inputs) && n <= |inputs| && Inv(cfg, s) && s.end == None
    ensures RunTo(cfg, s, inputs, n).end == None <==> forall r :: !SomeEnds(cfg, s, inputs, n, r)
  {
    hide Inv, RunTo, SomeEnds;
    var end := RunTo(cfg, s, inputs, n).end;
    forall r ensures end == Some(r) <==> SomeEnds(cfg, s, inputs, n, r) { RunEnds(cfg, s, inputs, n, r); }
    assert end == None || end == Some(end.value);
  }

  /** A run answers exactly when the step that ends it is a reply without tool calls that
      says something. */
  lemma RunAnswersIff(cfg: Config, s: State, inputs: seq<StepInput>, n: nat)
    requires InputsFit(inputs) && n <= |inputs| && Inv(cfg, s) && s.end == None
    ensures RunTo(cfg, s, inputs, n).end == Some(Answer) <==>
      exists k :: 0 <= k < n && IsFinal(inputs[k]) && RunTo(cfg, s, inputs, k).end == None
  {
    hide Inv, RunTo, IsFinal, InputsFit;
    RunEnds(cfg, s, inputs, n, Answer);
    if k :| 0 <= k < n && IsFinal(inputs[k]) && RunTo(cfg, s, inputs, k).end == None {
      assert EndsAt(cfg, s, inputs, k, Answer);
    }
    if SomeEnds(cfg, s, inputs, n, Answer) {
      var k :| 0 <= k < n && EndsAt(cfg, s, inputs, k, Answer);
      assert IsFinal(inputs[k]);
    }
  }

  // ---------- what the appended messages say ----------

  /** The results among the first n that failed under a tool's name. */
  function FailedUnder(calls: seq<Call>, results: seq<ToolResult>, n: nat, name: string): nat
    requires |calls| == |results| && n <= |calls|
  {
    if n == 0 then 0
    else
      FailedUnder(calls, results, n - 1, name) +
      if calls[n - 1].name == Some(name) && IsError(results[n - 1]) then 1 else 0
  }

  /** How often the tool has failed when the n-th result of this step is in; a tool without
      a name is never counted. */
  function TimesFailed(s: State, calls: seq<Call>, results: seq<ToolResult>, n: nat, name: Option<string>): nat
    requires |calls| == |results| && n <= |calls|
  {
    if Named(name) then Failures(s.toolErrors, name) + FailedUnder(calls, results, n, name.value) else 0
  }

  /** What the model is told of a result: an error as it is, with advice added from the second
      failure of the tool on; anything else cleaned, and cut only beyond 4000 characters. */
  ghost predicate Tells(content: string, result: ToolResult, failures: nat) {
    var text, cleaned := result.text, Clean(result.text);
    if result.Raised? || "Error" <= text || "SYSTEM_CRASH" <= text then
      text <= content && (content == text <==> failures < 2)
    else if |cleaned| <= 4000 then content == cleaned
    else content == cleaned[..4000] + TRUNCATED
  }

  ghost predicate Reports(m: Message, call: Call, result: ToolResult, failures: nat) {
    m.Tool? && m.callId == call.id && m.name == call.name && Tells(m.content, result, failures)
  }

  /** After n results of a step that began in s. */
  ghost predicate Reported(s: State, p: Partial, calls: seq<Call>, results: seq<ToolResult>, n: nat)
    requires |calls| == |results| && n <= |calls|
  {
    && s.messages <= p.s.messages
    && |p.s.messages| <= |s.messages| + n
    && (p.looped <==> |p.s.messages| < |s.messages| + n)
    && (forall i :: 0 <= i < |p.s.messages| - |s.messages| ==>
          Reports(p.s.messages[|s.messages| + i], calls[i], results[i],
            TimesFailed(s, calls, results, i + 1, calls[i].name)))
    && (!p.looped ==> forall name :: Named(name) ==>
          Failures(p.s.toolErrors, name) == TimesFailed(s, calls, results, n, name))
  }

  lemma NudgeTells(name: Option<string>, failures: nat, result: ToolResult)
    requires IsError(result) && (Named(name) || failures == 0)
    ensures Tells(Nudge(name, failures, result.text), result, failures)
  {
    hide Clean;
    var told := Nudge(name, failures, result.text);
    assert result.text <= told && (failures >= 2 <==> |told| > |result.text|);
  }

  lemma ObservationTells(result: ToolResult)
    requires !IsError(result)
    ensures Tells(Observation(result.text), result, 0)
  {
    hide Clean;
  }

  lemma SuccessNeverCounts(content: string, result: ToolResult, m: nat, n: nat)
    requires !IsError(result) && Tells(content, result, m)
    ensures Tells(content, result, n)
  {
    hide Clean;
  }

  lemma CountedError(toolErrors: map<string, nat>, name: Option<string>, other: Option<string>)
    requires Named(other)
    ensures Failures(CountError(toolErrors, name), other) == Failures(toolErrors, other) + if name == other then 1
      else 0
  {
  }

  lemma CountsNext(s: State, p: Partial, calls: seq<Call>, results: seq<ToolResult>, n: nat, name: Option<string>)
    requires |calls| == |results| && n < |calls| && Named(name)
    requires Failures(p.s.toolErrors, name) == TimesFailed(s, calls, results, n, name)
    ensures var q := ProcessCall(p, calls[n], results[n]);
      !q.looped ==> Failures(q.s.toolErrors, name) == TimesFailed(s, calls, results, n + 1, name)
  {
    hide Observation, Nudge, IsError, IsCrash, Signature, CountError, Failures;
    CountedError(p.s.toolErrors, calls[n].name, name);
  }

  lemma TellsNext(p: Partial, call: Call, result: ToolResult)
    ensures var q := ProcessCall(p, call, result);
      !q.looped ==>
        && |q.s.messages| == |p.s.messages| + 1 && p.s.messages <= q.s.messages
        && Reports(q.s.messages[|p.s.messages|], call, result, Failures(q.s.toolErrors, call.name))
  {
    hide Observation, Nudge, IsError, IsCrash, Signature, CountError, Failures, Tells, Named;
    var q := ProcessCall(p, call, result);
    if IsError(result) {
      Unnamed(q.s.toolErrors, call.name);
      NudgeTells(call.name, Failures(q.s.toolErrors, call.name), result);
    } else {
      ObservationTells(result);
      SuccessNeverCounts(Observation(result.text), result, 0, Failures(q.s.toolErrors, call.name));
    }
  }

  lemma Unnamed(toolErrors: map<string, nat>, name: Option<string>)
    ensures Named(name) || Failures(toolErrors, name) == 0
  {
  }

  lemma ReportedNext(s: State, p: Partial, calls: seq<Call>, results: seq<ToolResult>, n: nat)
    requires |calls| == |results| && n < |calls| && !p.looped && Reported(s, p, calls, results, n)
    ensures Reported(s, ProcessCall(p, calls[n], results[n]), calls, results, n + 1)
  {
    hide Failures, Reports, Named, TimesFailed, ProcessCall;
    var q := ProcessCall(p, calls[n], results[n]);
    if q.looped {
      LoopedKeeps(p, calls[n], results[n]);
    } else {
      TellsNext(p, calls[n], results[n]);
      forall name | Named(name) ensures Failures(q.s.toolErrors, name) == TimesFailed(s, calls, results, n + 1, name) {
        CountsNext(s, p, calls, results, n, name);
      }
      Unnamed(q.s.toolErrors, calls[n].name);
      NeverCounted(s, calls, results, n + 1, calls[n].name);
    }
  }

  lemma NeverCounted(s: State, calls: seq<Call>, results: seq<ToolResult>, n: nat, name: Option<string>)
    requires |calls| == |results| && n <= |calls|
    ensures Named(name) || TimesFailed(s, calls, results, n, name) == 0
  {
  }

  lemma LoopedKeeps(p: Partial, call: Call, result: ToolResult)
    ensures ProcessCall(p, call, result).looped ==> ProcessCall(p, call, result).s.messages == p.s.messages
  {
    hide Observation, Nudge, IsError, IsCrash, Signature, CountError, Failures;
  }

  lemma ReportedNone(s: State, calls: seq<Call>, results: seq<ToolResult>)
    requires |calls| == |results|
    ensures Reported(s, Partial(s, 0, false, false, false), calls, results, 0)
  {
  }

  lemma ReportedStays(s: State, p: Partial, calls: seq<Call>, results: seq<ToolResult>, n: nat)
    requires |calls| == |results| && n < |calls| && p.looped && Reported(s, p, calls, results, n)
    ensures Reported(s, p, calls, results, n + 1)
  {
    hide Reports, TimesFailed, Failures;
  }

  lemma {:induction false} CallsReported(s: State, calls: seq<Call>, results: seq<ToolResult>, n: nat)
    requires |calls| == |results| && n <= |calls|
    ensures Reported(s, ProcessCalls(s, calls, results, n), calls, results, n)
  {
    hide Reported, ProcessCall;
    if n == 0 {
      ReportedNone(s, calls, results);
    } else {
      CallsReported(s, calls, results, n - 1);
      var p := ProcessCalls(s, calls, results, n - 1);
      if p.looped { ReportedStays(s, p, calls, results, n - 1); } else { ReportedNext(s, p, calls, results, n - 1); }
    }
  }

  /** The messages of a step with tool calls: the reply, one tool message for each result
      that the loop guard let through, and a reminder exactly when the run goes on with more
      observed than the warning limit. */
  ghost predicate ToolBlockIs(cfg: Config, s: State, input: StepInput, s': State)
    requires CallsTools(input) && InputFits(input)
  {
    var calls, results := input.calls, input.results;
    var warned := if s'.end == None && Observed(s') > cfg.warnChars then 1 else 0;
    var told := |s'.messages| - |s.messages| - 1 - warned;
    && 0 <= told <= |calls| && s.messages <= s'.messages
    && (told == |calls| <==> s'.end != Some(InfiniteLoop))
    && s'.messages[|s.messages|] == Assistant(input.content, calls)
    && (forall i :: 0 <= i < told ==>
          Reports(s'.messages[|s.messages| + 1 + i], calls[i], results[i],
            TimesFailed(s, calls, results, i + 1, calls[i].name)))
    && (warned == 1 ==> s'.messages[|s'.messages| - 1] == Internal(StopResearching))
  }

  lemma ToolStepTells(cfg: Config, s: State, input: StepInput, step: nat)
    requires InputFits(input) && s.end == None && Inv(cfg, s) && CallsTools(input)
    ensures ToolBlockIs(cfg, s, input, Step(cfg, s, input, step))
  {
    hide ProcessCalls, Reports, TimesFailed, ToolChars, BreakerInv, GuardInv, GuardDecides, Paired;
    var calls, results := input.calls, input.results;
    var s1 := s.(messages := s.messages + [Assistant(input.content, calls)]);
    var p := ProcessCalls(s1, calls, results, |calls|);
    CallsReported(s1, calls, results, |calls|);
    CallsErrors(s1, calls, results, |calls|);
    ObsStep(cfg, s, input, step);
    forall i | 0 <= i < |p.s.messages| - |s1.messages|
      ensures Reports(p.s.messages[|s1.messages| + i], calls[i], results[i],
                TimesFailed(s, calls, results, i + 1, calls[i].name))
    {
      SameFailures(s, s1, calls, results, i + 1, calls[i].name);
    }
    EndKeepsMessages(cfg, p);
  }

  lemma SameFailures(s: State, s': State, calls: seq<Call>, results: seq<ToolResult>, n: nat, name: Option<string>)
    requires |calls| == |results| && n <= |calls| && s'.toolErrors == s.toolErrors
    ensures TimesFailed(s', calls, results, n, name) == TimesFailed(s, calls, results, n, name)
  {
  }

  lemma EndKeepsMessages(cfg: Config, p: Partial)
    requires p.s.end == None
    ensures var s' := EndOfTools(cfg, p);
      && (s'.end == Some(InfiniteLoop) <==> p.looped)
      && s'.obsChars == p.s.obsChars
      && s'.messages == p.s.messages +
           (if s'.end == None && s'.obsChars > cfg.warnChars then [Internal(StopResearching)] else [])
  {
  }

  /** A later run counts on: it forgets what was observed and how the last one ended, but not
      the errors, neither those in a row nor those of each tool, nor the calls made. */
  lemma LaterRunsCountOn(s: State, messages: seq<Message>, calls: seq<Call>, results: seq<ToolResult>, n: nat,
      name: Option<string>)
    requires |calls| == |results| && n <= |calls|
    ensures var s' := Begin(s, messages);
      && TimesFailed(s', calls, results, n, name) == TimesFailed(s, calls, results, n, name)
      && s'.consecutiveErrors == s.consecutiveErrors && s'.signatures == s.signatures
      && Observed(s') == 0 && s'.obsChars == 0 && s'.end == None && s'.messages == messages
  {
    SameFailures(s, Begin(s, messages), calls, results, n, name);
    assert messages[|messages|..] == [];
  }

  /** What any other step appends. */
  lemma OtherStepTells(cfg: Config, s: State, input: StepInput, step: nat)
    requires InputFits(input) && s.end == None && !CallsTools(input)
    ensures Step(cfg, s, input, step).messages == s.messages +
      match input
      case StepTimeout => [Internal(StepTimedOut(step))]
      case Reply(content, _, _) => [Assistant(content, [])]
      case _ => []
  {
    hide ProcessCalls;
  }

  /** A text without any of the three phrases is only stripped. */
  lemma CleanPlain(text: string)
    requires !Contains(text, "Provider List: https://docs.litellm.ai/docs/providers")
    requires !Contains(text, "https://docs.litellm.ai/docs/providers") && !Contains(text, "LiteLLM completion()")
    ensures Clean(text) == Strip(text)
  {
    hide Split, Strip, Contains;
    ReplaceNone(text, "Provider List: https://docs.litellm.ai/docs/providers", "");
    ReplaceNone(text, "https://docs.litellm.ai/docs/providers", "");
    ReplaceNone(text, "LiteLLM completion()", "");
  }

  /** Where one of the phrases occurs once, and none of the others that are looked for before
      it, it is taken out. */
  lemma CleanRemoves(a: string, b: string, phrase: string)
    requires phrase in {"Provider List: https://docs.litellm.ai/docs/providers",
                        "https://docs.litellm.ai/docs/providers", "LiteLLM completion()"}
    requires EndsAtFirst(a, phrase) && !Contains(b, phrase)
    requires phrase != "Provider List: https://docs.litellm.ai/docs/providers" ==>
      !Contains(a + phrase + b, "Provider List: https://docs.litellm.ai/docs/providers")
    requires phrase == "LiteLLM completion()" ==> !Contains(a + phrase + b, "https://docs.litellm.ai/docs/providers")
    requires phrase != "LiteLLM completion()" ==>
      !Contains(a + b, "https://docs.litellm.ai/docs/providers") && !Contains(a + b, "LiteLLM completion()")
    ensures Clean(a + phrase + b) == Strip(a + b)
  {
    hide Split, Strip, Contains, EndsAtFirst, Replace;
    ReplaceOne(a, b, phrase, "");
    assert a + "" + b == a + b;
    var text := a + phrase + b;
    if phrase != "Provider List: https://docs.litellm.ai/docs/providers" {
      ReplaceNone(text, "Provider List: https://docs.litellm.ai/docs/providers", "");
    }
    if phrase == "LiteLLM completion()" {
      ReplaceNone(text, "https://docs.litellm.ai/docs/providers", "");
    } else {
      ReplaceNone(a + b, "https://docs.litellm.ai/docs/providers", "");
      ReplaceNone(a + b, "LiteLLM completion()", "");
    }
  }

  // ---------- what the loop guard compares ----------

  function ShownName(call: Call): string {
    if call.name == None then "None" else call.name.value
  }

  lemma CutAtColon(a: string, x: string, b: string, y: string)
    requires ':' !in a && ':' !in b && a + ":" + x == b + ":" + y
    ensures a == b && x == y
  {
    NoColonYet(a, x, |b|);
    NoColonYet(b, y, |a|);
    var s, t := a + ":" + x, b + ":" + y;
    assert s[|a|] == ':' && t[|b|] == ':';
    assert a == s[..|a|] && b == t[..|b|] && x == s[|a| + 1..] && y == t[|b| + 1..];
  }

  lemma NoColonYet(a: string, x: string, k: nat)
    requires ':' !in a
    ensures k < |a| ==> (a + ":" + x)[k] != ':'
  {
    assert k < |a| ==> (a + ":" + x)[k] == a[k];
  }

  /** Calls of one tool have equal signatures exactly when their arguments are equal, and so
      have any two calls, names included, whose names have no colon. */
  lemma SignaturesEqualIff(a: Call, b: Call)
    ensures a.name == b.name ==> (Signature(a) == Signature(b) <==> a.arguments == b.arguments)
    ensures ':' !in ShownName(a) && ':' !in ShownName(b) ==>
      (Signature(a) == Signature(b) <==> ShownName(a) == ShownName(b) && a.arguments == b.arguments)
  {
    if Signature(a) == Signature(b) {
      if a.name == b.name { SameAfter(ShownName(a) + ":", a.arguments, b.arguments); }
      if ':' !in ShownName(a) && ':' !in ShownName(b) {
        CutAtColon(ShownName(a), a.arguments, ShownName(b), b.arguments);
      }
    }
  }

  lemma SameAfter(p: string, x: string, y: string)
    requires p + x == p + y
    ensures x == y
  {
    assert x == (p + x)[|p|..] && y == (p + y)[|p|..];
  }
}
