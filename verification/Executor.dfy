/** The ReAct step loop: tool calls, the per-request circuit breaker, the loop guard
    and the observation budget.  Model replies, tool results and the clock are inputs. */
module Executor {
  import opened Options
  import opened Text

  // ---------- messages ----------

  datatype Call = Call(id: string, name: Option<string>, arguments: string)

  datatype Notice = StepTimedOut(step: nat) | StopResearching

  datatype Message =
    | Assistant(content: string, calls: seq<Call>)
    | Tool(callId: string, name: Option<string>, content: string)
    | Internal(notice: Notice)
    | Given(role: string, content: string)     // what the caller put there

  /** What running a tool gave: a string, or an exception with this text. */
  datatype ToolResult = Returned(text: string) | Raised(text: string)

  /** What the outside world does at one step. */
  datatype StepInput =
    | GlobalTimeout
    | StepTimeout
    | ModelFails
    | Reply(content: string, calls: seq<Call>, results: seq<ToolResult>)

  datatype Reason =
    | TooLong | ConsecutiveTimeouts | ConsecutiveErrors | InfiniteLoop | SystemCrash | TokenBurn | Answer | Exception

  datatype Config = Config(maxSteps: nat, warnChars: nat, hardChars: nat)

  const ERROR_LIMIT: nat := 3
  const NUDGE_THRESHOLD: nat := 2

  predicate IsError(r: ToolResult) {
    r.Raised? || "Error" <= r.text || "SYSTEM_CRASH" <= r.text
  }

  predicate IsCrash(r: ToolResult) {
    Contains(r.text, "SYSTEM_CRASH")
  }

  function Signature(call: Call): string {
    (if call.name == None then "None" else call.name.value) + ":" + call.arguments
  }

  predicate Named(name: Option<string>) {
    name != None && name.value != ""
  }

  function Clean(text: string): string {
    var a := Replace(text, "Provider List: https://docs.litellm.ai/docs/providers", "");
    var b := Replace(a, "https://docs.litellm.ai/docs/providers", "");
    Strip(Replace(b, "LiteLLM completion()", ""))
  }

  const TRUNCATED: string :=
    "\n\n...[TRUNCATED: Output too long. Please act on the current data or use narrower search.]"

  /** A successful observation, cleaned and cut after 4000 characters. */
  function Observation(text: string): string {
    var cleaned := Clean(text);
    if |cleaned| > 4000 then cleaned[..4000] + TRUNCATED else cleaned
  }

  /** A failed observation, with advice when the tool keeps failing. */
  function Nudge(name: Option<string>, failures: nat, text: string): string {
    if Named(name) && failures >= NUDGE_THRESHOLD then
      text + "\n\n[SYSTEM: You have failed to use '" + name.value
        + "' correctly 2+ times. Please STOP and try a completely different approach.]"
    else text
  }

  function Failures(toolErrors: map<string, nat>, name: Option<string>): nat {
    if Named(name) && name.value in toolErrors then toolErrors[name.value] else 0
  }

  function CountError(toolErrors: map<string, nat>, name: Option<string>): map<string, nat> {
    if Named(name) then toolErrors[name.value := Failures(toolErrors, name) + 1] else toolErrors
  }

  // ---------- the loop as a function ----------

  /** What a step did to the breaker: errors recorded, and whether a success reset it. */
  datatype StepRecord = StepRecord(errors: nat, success: bool)

  /** The executor's and the breaker's variables.  The last three fields only remember:
      where the current run's messages begin, the signatures of all tool calls since
      construction, and one record per step since construction. */
  datatype State = State(
    messages: seq<Message>,
    consecutiveErrors: nat,
    toolErrors: map<string, nat>,
    lastSignature: Option<string>,
    repeats: nat,
    obsChars: nat,
    end: Option<Reason>,
    runStart: nat,
    signatures: seq<string>,
    steps: seq<StepRecord>)

  /** Halfway through the tool results of one step. */
  datatype Partial = Partial(s: State, errors: nat, anySuccess: bool, crash: bool, looped: bool)

  /** One tool result: the loop guard first, then the observation. */
  function ProcessCall(p: Partial, call: Call, result: ToolResult): Partial {
    var sig := Signature(call);
    var s := p.s.(
      lastSignature := Some(sig),
      repeats := if p.s.lastSignature == Some(sig) then p.s.repeats + 1 else 0,
      signatures := p.s.signatures + [sig]);
    if s.repeats >= 2 then p.(s := s, looped := true)
    else
      var failed := IsError(result);
      var toolErrors := if failed then CountError(s.toolErrors, call.name) else s.toolErrors;
      var obs := if failed then Nudge(call.name, Failures(toolErrors, call.name), result.text)
        else Observation(result.text);
      Partial(
        s.(consecutiveErrors := s.consecutiveErrors + (if failed then 1 else 0),
           toolErrors := toolErrors,
           obsChars := s.obsChars + |obs|,
           messages := s.messages + [Tool(call.id, call.name, obs)]),
        p.errors + (if failed then 1 else 0), p.anySuccess || !failed, p.crash || IsCrash(result), false)
  }

  function ProcessCalls(s: State, calls: seq<Call>, results: seq<ToolResult>, n: nat): Partial
    requires |calls| == |results| && n <= |calls|
  {
    if n == 0 then Partial(s, 0, false, false, false)
    else
      var p := ProcessCalls(s, calls, results, n - 1);
      if p.looped then p else ProcessCall(p, calls[n - 1], results[n - 1])
  }

  /** After the tool results: the breaker, then the budget. */
  function EndOfTools(cfg: Config, p: Partial): State {
    if p.looped then p.s.(end := Some(InfiniteLoop), steps := p.s.steps + [StepRecord(p.errors, false)])
    else
      var s := p.s.(
        consecutiveErrors := if p.anySuccess then 0 else p.s.consecutiveErrors,
        steps := p.s.steps + [StepRecord(p.errors, p.anySuccess)]);
      if p.crash then s.(end := Some(SystemCrash))
      else if s.consecutiveErrors >= ERROR_LIMIT then s.(end := Some(ConsecutiveErrors))
      else if s.obsChars > cfg.hardChars then s.(end := Some(TokenBurn))
      else if s.obsChars > cfg.warnChars then s.(messages := s.messages + [Internal(StopResearching)])
      else s
  }

  predicate InputFits(input: StepInput) {
    input.Reply? ==> |input.calls| == |input.results|
  }

  function Step(cfg: Config, s: State, input: StepInput, step: nat): State
    requires InputFits(input)
  {
    if s.end != None then s
    else match input
      case GlobalTimeout => s.(end := Some(TooLong))
      case ModelFails => s.(end := Some(Exception))
      case StepTimeout =>
        var s' := s.(
          messages := s.messages + [Internal(StepTimedOut(step))],
          consecutiveErrors := s.consecutiveErrors + 1,
          steps := s.steps + [StepRecord(1, false)]);
        if s'.consecutiveErrors >= ERROR_LIMIT then s'.(end := Some(ConsecutiveTimeouts)) else s'
      case Reply(content, calls, results) =>
        var s' := s.(messages := s.messages + [Assistant(content, calls)]);
        if calls != [] then EndOfTools(cfg, ProcessCalls(s', calls, results, |calls|))
        else
          var s'' := s'.(steps := s.steps + [StepRecord(0, false)]);
          if content != "" then s''.(end := Some(Answer)) else s''
  }

  /** A new run on the same executor and breaker. */
  function Begin(s: State, messages: seq<Message>): State {
    s.(messages := messages, obsChars := 0, end := None, runStart := |messages|)
  }

  const FRESH := State([], 0, map[], None, 0, 0, None, 0, [], [])

  ghost predicate InputsFit(inputs: seq<StepInput>) {
    forall i :: 0 <= i < |inputs| ==> InputFits(inputs[i])
  }

  /** The state after the first k steps of a run. */
  ghost function RunTo(cfg: Config, s: State, inputs: seq<StepInput>, k: nat): State
    requires InputsFit(inputs) && k <= |inputs|
  {
    if k == 0 then s else Step(cfg, RunTo(cfg, s, inputs, k - 1), inputs[k - 1], k - 1)
  }

  // ---------- the breaker ----------

  function Errors(steps: seq<StepRecord>): nat {
    if steps == [] then 0 else Errors(steps[..|steps| - 1]) + steps[|steps| - 1].errors
  }

  /** The step from which errors count: the one after the last step with a success. */
  function SinceSuccess(steps: seq<StepRecord>): (j: nat)
    ensures j <= |steps|
    ensures j > 0 ==> steps[j - 1].success
    ensures forall i :: j <= i < |steps| ==> !steps[i].success
  {
    if steps == [] then 0
    else if steps[|steps| - 1].success then |steps|
    else SinceSuccess(steps[..|steps| - 1])
  }

  ghost predicate BreakerInv(s: State) {
    s.consecutiveErrors == Errors(s.steps[SinceSuccess(s.steps)..])
  }

  lemma RecordStep(steps: seq<StepRecord>, r: StepRecord)
    ensures Errors((steps + [r])[SinceSuccess(steps + [r])..]) ==
      if r.success then 0 else Errors(steps[SinceSuccess(steps)..]) + r.errors
  {
    var all := steps + [r];
    assert all[..|steps|] == steps;
    if r.success {
      assert all[|all|..] == [];
    } else {
      var j := SinceSuccess(steps);
      assert SinceSuccess(all) == j;
      assert all[j..] == steps[j..] + [r];
      assert all[j..][..|all[j..]| - 1] == steps[j..];
    }
  }

  lemma {:induction false} CallsErrors(s: State, calls: seq<Call>, results: seq<ToolResult>, n: nat)
    requires |calls| == |results| && n <= |calls|
    ensures var p := ProcessCalls(s, calls, results, n);
      p.s.consecutiveErrors == s.consecutiveErrors + p.errors && p.s.steps == s.steps && p.s.end == s.end &&
        p.s.runStart == s.runStart
  {
    hide Observation, Nudge, IsError, IsCrash, Signature, CountError;
    if n > 0 { CallsErrors(s, calls, results, n - 1); }
  }

  lemma BreakerStep(cfg: Config, s: State, input: StepInput, step: nat)
    requires BreakerInv(s) && InputFits(input)
    ensures BreakerInv(Step(cfg, s, input, step))
  {
    hide Errors, SinceSuccess, ProcessCalls;
    if s.end == None && input.StepTimeout? {
      RecordStep(s.steps, StepRecord(1, false));
    } else if s.end == None && input.Reply? {
      if input.calls == [] {
        RecordStep(s.steps, StepRecord(0, false));
      } else {
        var s' := s.(messages := s.messages + [Assistant(input.content, input.calls)]);
        var p := ProcessCalls(s', input.calls, input.results, |input.calls|);
        CallsErrors(s', input.calls, input.results, |input.calls|);
        RecordStep(s.steps, StepRecord(p.errors, if p.looped then false else p.anySuccess));
      }
    }
  }

  // ---------- the loop guard ----------

  /** The length of the run of equal signatures at the end. */
  function TrailingRun(sigs: seq<string>): nat {
    if sigs == [] then 0
    else if |sigs| == 1 || sigs[|sigs| - 2] != sigs[|sigs| - 1] then 1
    else TrailingRun(sigs[..|sigs| - 1]) + 1
  }

  /** TrailingRun is what its name says: the last k are equal, and the one before differs. */
  lemma {:induction false} TrailingRunIsMaximal(sigs: seq<string>)
    requires sigs != []
    ensures var k := TrailingRun(sigs);
      && 0 < k <= |sigs|
      && (forall i :: |sigs| - k <= i < |sigs| ==> sigs[i] == sigs[|sigs| - 1])
      && (k < |sigs| ==> sigs[|sigs| - k - 1] != sigs[|sigs| - 1])
  {
    if |sigs| > 1 && sigs[|sigs| - 2] == sigs[|sigs| - 1] {
      TrailingRunIsMaximal(sigs[..|sigs| - 1]);
    }
  }

  ghost predicate GuardInv(s: State) {
    if s.signatures == [] then s.lastSignature == None && s.repeats == 0
    else s.lastSignature == Some(s.signatures[|s.signatures| - 1]) && s.repeats + 1 == TrailingRun(s.signatures)
  }

  lemma GuardCall(p: Partial, call: Call, result: ToolResult)
    requires GuardInv(p.s)
    ensures var q := ProcessCall(p, call, result);
      && GuardInv(q.s)
      && q.s.signatures == p.s.signatures + [Signature(call)]
      && (q.looped <==> TrailingRun(q.s.signatures) >= 3)
  {
    hide Observation, Nudge, IsError, IsCrash, Signature, CountError;
    var sigs := p.s.signatures + [Signature(call)];
    assert sigs[..|p.s.signatures|] == p.s.signatures;
  }

  /** The signatures of the first n calls. */
  function SignaturesOf(calls: seq<Call>): seq<string> {
    seq(|calls|, i requires 0 <= i < |calls| => Signature(calls[i]))
  }

  /** The m-th call of the step would make three equal signatures in a row. */
  ghost predicate GuardTrips(s: State, calls: seq<Call>, m: int) {
    0 < m <= |calls| && TrailingRun(s.signatures + SignaturesOf(calls[..m])) >= 3
  }

  lemma SignaturesGrow(before: seq<string>, calls: seq<Call>, n: nat)
    requires n < |calls|
    ensures before + SignaturesOf(calls[..n + 1]) == before + SignaturesOf(calls[..n]) + [Signature(calls[n])]
  {
    assert calls[..n + 1] == calls[..n] + [calls[n]];
  }

  /** What the guard has done after n calls of a step that began in s. */
  ghost predicate Guarded(s: State, calls: seq<Call>, p: Partial, n: nat)
    requires n <= |calls|
  {
    && GuardInv(p.s)
    && (if p.looped then
          exists m ::
            0 < m <= n && GuardTrips(s, calls, m) && p.s.signatures == s.signatures + SignaturesOf(calls[..m])
        else
          && p.s.signatures == s.signatures + SignaturesOf(calls[..n])
          && forall m :: 0 < m <= n ==> !GuardTrips(s, calls, m))
  }

  lemma GuardedCall(s: State, calls: seq<Call>, p: Partial, n: nat, q: Partial)
    requires n < |calls| && !p.looped && Guarded(s, calls, p, n)
    requires GuardInv(q.s) && q.s.signatures == p.s.signatures + [Signature(calls[n])]
    requires q.looped <==> TrailingRun(q.s.signatures) >= 3
    ensures Guarded(s, calls, q, n + 1)
  {
    hide Signature, GuardInv, TrailingRun;
    SignaturesGrow(s.signatures, calls, n);
    assert q.looped <==> GuardTrips(s, calls, n + 1);
  }

  /** The guard looks at calls one by one, across steps and runs, and stops at the
      first that completes three equal signatures in a row. */
  lemma {:induction false} GuardCalls(s: State, calls: seq<Call>, results: seq<ToolResult>, n: nat)
    requires |calls| == |results| && n <= |calls| && GuardInv(s)
    ensures Guarded(s, calls, ProcessCalls(s, calls, results, n), n)
  {
    hide ProcessCall, Guarded, GuardInv, TrailingRun, Signature;
    if n == 0 {
      GuardedNone(s, calls);
    } else {
      var p := ProcessCalls(s, calls, results, n - 1);
      GuardCalls(s, calls, results, n - 1);
      if p.looped {
        GuardedStays(s, calls, p, n - 1);
      } else {
        assert GuardInv(p.s) by { GuardedInv(s, calls, p, n - 1); }
        GuardCall(p, calls[n - 1], results[n - 1]);
        GuardedCall(s, calls, p, n - 1, ProcessCall(p, calls[n - 1], results[n - 1]));
      }
    }
  }

  lemma GuardedInv(s: State, calls: seq<Call>, p: Partial, n: nat)
    requires n <= |calls| && Guarded(s, calls, p, n)
    ensures GuardInv(p.s)
  {
  }

  lemma GuardedNone(s: State, calls: seq<Call>)
    requires GuardInv(s)
    ensures Guarded(s, calls, Partial(s, 0, false, false, false), 0)
  {
    assert s.signatures + SignaturesOf(calls[..0]) == s.signatures;
  }

  lemma GuardedStays(s: State, calls: seq<Call>, p: Partial, n: nat)
    requires n < |calls| && p.looped && Guarded(s, calls, p, n)
    ensures Guarded(s, calls, p, n + 1)
  {
    hide GuardInv, GuardTrips;
  }

  lemma GuardStep(cfg: Config, s: State, input: StepInput, step: nat)
    requires GuardInv(s) && InputFits(input) && s.end == None
    ensures var s' := Step(cfg, s, input, step);
      && GuardInv(s')
      && (s'.end == Some(InfiniteLoop) <==> input.Reply? && exists m :: GuardTrips(s, input.calls, m))
  {
    hide ProcessCalls, GuardTrips, TrailingRun;
    if input.Reply? {
      if input.calls == [] {
        NoTrips(s);
      } else {
        var s' := s.(messages := s.messages + [Assistant(input.content, input.calls)]);
        GuardCalls(s', input.calls, input.results, |input.calls|);
        CallsErrors(s', input.calls, input.results, |input.calls|);
        SameTrips(s, s', input.calls);
      }
    }
  }

  lemma NoTrips(s: State)
    ensures forall m :: !GuardTrips(s, [], m)
  {
  }

  lemma SameTrips(s: State, s': State, calls: seq<Call>)
    requires s.signatures == s'.signatures
    ensures forall m :: GuardTrips(s, calls, m) <==> GuardTrips(s', calls, m)
    ensures forall m :: GuardTrips(s, calls, m) ==> 0 < m <= |calls|
  {
  }
}
