/** The executor and its circuit breaker as the objects they are, proved to run the
    step function of Executor. */
module ReActLoop {
  import opened Options
  import opened Executor

  class CircuitBreaker {
    var consecutiveErrors: nat
    var toolErrors: map<string, nat>

    constructor ()
      ensures consecutiveErrors == 0 && toolErrors == map[]
    {
      consecutiveErrors := 0;
      toolErrors := map[];
    }

    method RecordSuccess()
      modifies `consecutiveErrors
      ensures consecutiveErrors == 0
    {
      consecutiveErrors := 0;
    }

    method RecordError(name: Option<string>)
      modifies this
      ensures consecutiveErrors == old(consecutiveErrors) + 1
      ensures forall n :: (if n in toolErrors then toolErrors[n] else 0) ==
                          (if n in old(toolErrors) then old(toolErrors)[n] else 0) +
                          (if name == Some(n) && n != "" then 1 else 0)
      ensures toolErrors == CountError(old(toolErrors), name)
    {
      consecutiveErrors := consecutiveErrors + 1;
      if Named(name) {
        var n := if name.value in toolErrors then toolErrors[name.value] else 0;
        toolErrors := toolErrors[name.value := n + 1];
      }
    }

    predicate ShouldTerminate()
      reads this
    {
      consecutiveErrors >= ERROR_LIMIT
    }

    function GetNudge(name: Option<string>, text: string): string
      reads this
    {
      Nudge(name, Failures(toolErrors, name), text)
    }
  }

  /** The caller's message list, appended to in place. */
  class Conversation {
    var messages: seq<Message>

    constructor (given: seq<Message>)
      ensures messages == given
    {
      messages := given;
    }
  }

  class ReActExecutor {
    const cfg: Config
    const breaker: CircuitBreaker
    var totalObsChars: nat
    var lastToolSignature: Option<string>
    var consecutiveRepeats: nat

    constructor (cfg: Config, breaker: CircuitBreaker)
      ensures this.cfg == cfg && this.breaker == breaker
      ensures totalObsChars == 0 && lastToolSignature == None && consecutiveRepeats == 0
    {
      this.cfg := cfg;
      this.breaker := breaker;
      totalObsChars := 0;
      lastToolSignature := None;
      consecutiveRepeats := 0;
    }

    /** The objects hold the variables of s. */
    ghost predicate Holds(s: State, conv: Conversation)
      reads this, breaker, conv
    {
      && conv.messages == s.messages
      && breaker.consecutiveErrors == s.consecutiveErrors
      && breaker.toolErrors == s.toolErrors
      && lastToolSignature == s.lastSignature
      && consecutiveRepeats == s.repeats
      && totalObsChars == s.obsChars
    }

    /** One tool result; true when the loop guard stops the run. */
    method HandleResult(conv: Conversation, call: Call, result: ToolResult, ghost p: Partial) returns (looped: bool)
      requires !p.looped && Holds(p.s, conv)
      modifies this, breaker, conv
      ensures Holds(ProcessCall(p, call, result).s, conv)
      ensures looped == ProcessCall(p, call, result).looped
    {
      hide IsError, IsCrash, Signature, Observation, Nudge, Failures, CountError;
      var sig := Signature(call);
      if lastToolSignature == Some(sig) {
        consecutiveRepeats := consecutiveRepeats + 1;
      } else {
        lastToolSignature := Some(sig);
        consecutiveRepeats := 0;
      }
      if consecutiveRepeats >= 2 {
        return true;
      }
      var observation;
      if IsError(result) {
        breaker.RecordError(call.name);
        observation := breaker.GetNudge(call.name, result.text);
      } else {
        observation := Observation(result.text);
      }
      totalObsChars := totalObsChars + |observation|;
      conv.messages := conv.messages + [Tool(call.id, call.name, observation)];
      return false;
    }

    /** The tool results of one step, in the order of the calls. */
    method HandleResults(conv: Conversation, calls: seq<Call>, results: seq<ToolResult>, ghost s: State)
      returns (looped: bool, anySuccess: bool, crash: bool)
      requires |calls| == |results| && Holds(s, conv)
      modifies this, breaker, conv
      ensures var p := ProcessCalls(s, calls, results, |calls|);
        && Holds(p.s, conv)
        && looped == p.looped
        && (!looped ==> anySuccess == p.anySuccess && crash == p.crash)
    {
      hide ProcessCall, IsError, IsCrash;
      looped, anySuccess, crash := false, false, false;
      var i := 0;
      while i < |calls|
        invariant i <= |calls| && !looped
        invariant var p := ProcessCalls(s, calls, results, i);
          !p.looped && Holds(p.s, conv) && anySuccess == p.anySuccess && crash == p.crash
      {
        ghost var p := ProcessCalls(s, calls, results, i);
        Flags(p, calls[i], results[i]);
        looped := HandleResult(conv, calls[i], results[i], p);
        if looped {
          StaysLooped(s, calls, results, i + 1, |calls|);
          return;
        }
        crash := crash || IsCrash(results[i]);
        anySuccess := anySuccess || !IsError(results[i]);
        i := i + 1;
      }
    }

    lemma Flags(p: Partial, call: Call, result: ToolResult)
      ensures var q := ProcessCall(p, call, result);
        !q.looped ==> q.anySuccess == (p.anySuccess || !IsError(result)) && q.crash == (p.crash || IsCrash(result))
    {
      hide IsError, IsCrash, Signature, Observation, Nudge, Failures, CountError;
    }

    lemma {:induction false} StaysLooped(s: State, calls: seq<Call>, results: seq<ToolResult>, m: nat, n: nat)
      requires |calls| == |results| && m <= n <= |calls| && ProcessCalls(s, calls, results, m).looped
      ensures ProcessCalls(s, calls, results, n) == ProcessCalls(s, calls, results, m)
      decreases n
    {
      hide ProcessCall;
      if m < n { StaysLooped(s, calls, results, m, n - 1); }
    }

    /** One step of the loop: what the model, the tools and the clock did is the input. */
    method RunStep(conv: Conversation, input: StepInput, step: nat, ghost s: State) returns (end: Option<Reason>)
      requires InputFits(input) && s.end == None && Holds(s, conv)
      modifies this, breaker, conv
      ensures Holds(Step(cfg, s, input, step), conv)
      ensures end == Step(cfg, s, input, step).end
    {
      hide ProcessCalls;
      match input {
        case GlobalTimeout => end := Some(TooLong);
        case ModelFails => end := Some(Exception);
        case StepTimeout =>
          conv.messages := conv.messages + [Internal(StepTimedOut(step))];
          breaker.RecordError(None);
          end := if breaker.ShouldTerminate() then Some(ConsecutiveTimeouts) else None;
        case Reply(content, calls, results) =>
          conv.messages := conv.messages + [Assistant(content, calls)];
          if calls != [] {
            ghost var s1 := s.(messages := s.messages + [Assistant(content, calls)]);
            CallsErrors(s1, calls, results, |calls|);
            var looped, anySuccess, crash := HandleResults(conv, calls, results, s1);
            if looped { return Some(InfiniteLoop); }
            if anySuccess { breaker.RecordSuccess(); }
            if crash { return Some(SystemCrash); }
            if breaker.ShouldTerminate() { return Some(ConsecutiveErrors); }
            if totalObsChars > cfg.hardChars { return Some(TokenBurn); }
            if totalObsChars > cfg.warnChars {
              conv.messages := conv.messages + [Internal(StopResearching)];
            }
            end := None;
          } else {
            end := if content != "" then Some(Answer) else None;
          }
      }
    }

    /** How many steps of the run had begun when it ended. */
    ghost function Begun(s: State, inputs: seq<StepInput>, k: nat): nat
      requires InputsFit(inputs) && k <= |inputs|
    {
      if k == 0 then 0
      else if RunTo(cfg, s, inputs, k - 1).end != None then Begun(s, inputs, k - 1)
      else k
    }

    lemma {:induction false} Ended(s: State, inputs: seq<StepInput>, m: nat, n: nat)
      requires InputsFit(inputs) && m <= n <= |inputs| && RunTo(cfg, s, inputs, m).end != None
      ensures RunTo(cfg, s, inputs, n) == RunTo(cfg, s, inputs, m) && Begun(s, inputs, n) == Begun(s, inputs, m)
      decreases n
    {
      if m < n { Ended(s, inputs, m, n - 1); }
    }

    /** A whole run: None is the end at the step limit.  The reported steps count the
        step in which the run ended, except when a clock ended it. */
    method Run(conv: Conversation, inputs: seq<StepInput>, ghost s: State) returns (end: Option<Reason>, steps: nat)
      requires InputsFit(inputs) && |inputs| == cfg.maxSteps
      requires Holds(s.(messages := conv.messages), conv)
      modifies this, breaker, conv
      ensures var s0 := Begin(s, old(conv.messages));
        && Holds(RunTo(cfg, s0, inputs, cfg.maxSteps), conv)
        && end == RunTo(cfg, s0, inputs, cfg.maxSteps).end
        && steps == Begun(s0, inputs, cfg.maxSteps) -
          (if end == Some(TooLong) || end == Some(ConsecutiveTimeouts) then 1 else 0)
    {
      hide Step, InputFits;
      ghost var s0 := Begin(s, conv.messages);
      totalObsChars := 0;
      var step := 0;
      while step < cfg.maxSteps
        invariant step <= cfg.maxSteps
        invariant RunTo(cfg, s0, inputs, step).end == None && Begun(s0, inputs, step) == step
        invariant Holds(RunTo(cfg, s0, inputs, step), conv)
      {
        end := RunStep(conv, inputs[step], step, RunTo(cfg, s0, inputs, step));
        if end != None {
          Ended(s0, inputs, step + 1, cfg.maxSteps);
          return end, if end == Some(TooLong) || end == Some(ConsecutiveTimeouts) then step else step + 1;
        }
        step := step + 1;
      }
      return None, cfg.maxSteps;
    }
  }
}
