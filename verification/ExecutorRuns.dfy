/** Whole runs of the ReAct loop: what the breaker counts, when the run ends, which
    tool messages answer which calls, and how much was observed. */
module ExecutorRuns {
  import opened Options
  import opened Executor

  // ---------- tool messages answer calls ----------

  predicate Answers(m: Message, call: Call) {
    m.Tool? && m.callId == call.id && m.name == call.name
  }

  predicate AnswersAll(ms: seq<Message>, calls: seq<Call>) {
    |calls| <= |ms| && forall i :: 0 <= i < |calls| ==> Answers(ms[i], calls[i])
  }

  /** Every assistant message with tool calls is followed by exactly its tool results,
      in order, and no tool message stands anywhere else. */
  predicate Paired(ms: seq<Message>) {
    if ms == [] then true
    else if ms[0].Tool? then false
    else if ms[0].Assistant? then
      AnswersAll(ms[1..], ms[0].calls) && Paired(ms[1 + |ms[0].calls|..])
    else Paired(ms[1..])
  }

  lemma {:induction false} PairedAppend(a: seq<Message>, b: seq<Message>)
    requires Paired(a)
    ensures Paired(a + b) <==> Paired(b)
    decreases |a|
  {
    if a == [] {
      assert a + b == b;
    } else {
      var n := if a[0].Assistant? then 1 + |a[0].calls| else 1;
      assert (a + b)[n..] == a[n..] + b;
      PairedAppend(a[n..], b);
      forall i | 0 <= i < n - 1 ensures (a + b)[1..][i] == a[1..][i] {}
    }
  }

  /** What a step's tool loop appends: one tool message per call it got to. */
  ghost predicate Appended(before: State, p: Partial, calls: seq<Call>, n: nat)
    requires n <= |calls|
  {
    && before.messages <= p.s.messages
    && var added := p.s.messages[|before.messages|..];
      && |added| <= n
      && (p.looped <==> |added| < n)
      && AnswersAll(added, calls[..|added|])
  }

  lemma AppendedCall(s: State, p: Partial, calls: seq<Call>, n: nat, result: ToolResult)
    requires 0 < n <= |calls| && !p.looped && Appended(s, p, calls, n - 1)
    ensures Appended(s, ProcessCall(p, calls[n - 1], result), calls, n)
  {
    hide Observation, Nudge, IsError, IsCrash, Signature, CountError, Failures;
    var q := ProcessCall(p, calls[n - 1], result);
    var added := p.s.messages[|s.messages|..];
    if q.looped {
      assert q.s.messages == p.s.messages;
    } else {
      assert q.s.messages[|s.messages|..] == added + [q.s.messages[|p.s.messages|]];
    }
  }

  lemma {:induction false} AppendedCalls(s: State, calls: seq<Call>, results: seq<ToolResult>, n: nat)
    requires |calls| == |results| && n <= |calls|
    ensures Appended(s, ProcessCalls(s, calls, results, n), calls, n)
  {
    hide ProcessCall;
    if n > 0 {
      AppendedCalls(s, calls, results, n - 1);
      var p := ProcessCalls(s, calls, results, n - 1);
      if !p.looped { AppendedCall(s, p, calls, n, results[n - 1]); }
      else { assert ProcessCalls(s, calls, results, n) == p; }
    }
  }

  /** The messages a step appends. */
  function Block(cfg: Config, s: State, input: StepInput, step: nat): seq<Message>
    requires InputFits(input)
  {
    var s' := Step(cfg, s, input, step);
    if |s.messages| <= |s'.messages| then s'.messages[|s.messages|..] else []
  }

  lemma PairedQuestion(content: string, calls: seq<Call>, answers: seq<Message>)
    ensures Paired([Assistant(content, calls)] + answers) <==>
            AnswersAll(answers, calls) && Paired(answers[|calls|..])
  {
    hide Answers;
    var block := [Assistant(content, calls)] + answers;
    assert block[1..] == answers;
    if |calls| <= |answers| { assert block[1 + |calls|..] == answers[|calls|..]; }
  }

  /** A question with its answers is paired exactly when no answer is missing. */
  lemma {:induction false} AskedPaired(content: string, calls: seq<Call>, added: seq<Message>, rest: seq<Message>)
    requires |added| <= |calls| && AnswersAll(added, calls[..|added|])
    requires rest == [] || (|added| == |calls| && |rest| == 1 && rest[0].Internal?)
    ensures Paired([Assistant(content, calls)] + added + rest) <==> |added| == |calls|
  {
    hide Paired, Answers;
    assert [Assistant(content, calls)] + added + rest == [Assistant(content, calls)] + (added + rest);
    PairedQuestion(content, calls, added + rest);
    if |added| == |calls| {
      assert calls[..|added|] == calls && (added + rest)[|calls|..] == rest;
      ShortPaired(rest);
    } else {
      assert added + rest == added;
    }
  }

  lemma ShortPaired(rest: seq<Message>)
    requires rest == [] || (|rest| == 1 && rest[0].Internal?)
    ensures Paired(rest)
  {
    if rest != [] { assert rest[1..] == []; }
  }

  lemma ToolBlock(cfg: Config, s: State, input: StepInput, step: nat)
    requires InputFits(input) && s.end == None && input.Reply? && input.calls != []
    ensures var s' := Step(cfg, s, input, step);
      && s.messages <= s'.messages
      && (Paired(s'.messages[|s.messages|..]) <==> s'.end != Some(InfiniteLoop))
  {
    hide ProcessCalls, Paired, AnswersAll;
    var calls := input.calls;
    var asked := Assistant(input.content, calls);
    var s1 := s.(messages := s.messages + [asked]);
    AppendedCalls(s1, calls, input.results, |calls|);
    CallsErrors(s1, calls, input.results, |calls|);
    var p := ProcessCalls(s1, calls, input.results, |calls|);
    var added := p.s.messages[|s1.messages|..];
    var s' := Step(cfg, s, input, step);
    assert s' == EndOfTools(cfg, p);
    var rest := s'.messages[|p.s.messages|..];
    AskedPaired(input.content, calls, added, rest);
    assert p.s.messages == s.messages + [asked] + added;
    assert s'.messages[|s.messages|..] == [asked] + added + rest;
  }

  lemma BlockPaired(cfg: Config, s: State, input: StepInput, step: nat)
    requires InputFits(input) && s.end == None
    ensures var s' := Step(cfg, s, input, step);
      && s'.messages == s.messages + Block(cfg, s, input, step)
      && s'.runStart == s.runStart
      && (Paired(Block(cfg, s, input, step)) <==> s'.end != Some(InfiniteLoop))
  {
    hide ProcessCalls;
    if input.Reply? && input.calls != [] {
      hide Paired;
      ToolBlock(cfg, s, input, step);
      CallsErrors(s.(messages := s.messages + [Assistant(input.content, input.calls)]), input.calls, input.results,
        |input.calls|);
    }
  }

  // ---------- observation accounting ----------

  function ToolChars(ms: seq<Message>): nat {
    if ms == [] then 0
    else ToolChars(ms[..|ms| - 1]) + (if ms[|ms| - 1].Tool? then |ms[|ms| - 1].content| else 0)
  }

  ghost predicate ObsInv(s: State) {
    s.runStart <= |s.messages| && s.obsChars == ToolChars(s.messages[s.runStart..])
  }

  lemma ToolCharsMore(s: State, m: Message)
    requires ObsInv(s)
    ensures ToolChars((s.messages + [m])[s.runStart..]) == s.obsChars + if m.Tool? then |m.content| else 0
  {
    var run := s.messages[s.runStart..];
    assert (s.messages + [m])[s.runStart..] == run + [m];
    assert (run + [m])[..|run|] == run;
  }

  lemma {:induction false} ObsCalls(s: State, calls: seq<Call>, results: seq<ToolResult>, n: nat)
    requires |calls| == |results| && n <= |calls| && ObsInv(s)
    ensures ObsInv(ProcessCalls(s, calls, results, n).s)
  {
    hide Observation, Nudge, IsError, IsCrash, Signature, CountError, Failures, ToolChars;
    if n > 0 {
      ObsCalls(s, calls, results, n - 1);
      var p := ProcessCalls(s, calls, results, n - 1);
      if !p.looped {
        var q := ProcessCall(p, calls[n - 1], results[n - 1]);
        if !q.looped { ToolCharsMore(p.s, q.s.messages[|p.s.messages|]); }
      }
    }
  }

  lemma ObsStep(cfg: Config, s: State, input: StepInput, step: nat)
    requires ObsInv(s) && InputFits(input)
    requires s.end == None ==> s.obsChars <= cfg.hardChars
    ensures var s' := Step(cfg, s, input, step);
      && ObsInv(s')
      && (s'.end == None ==> s'.obsChars <= cfg.hardChars)
  {
    hide ProcessCalls, ToolChars;
    if s.end == None && input.Reply? {
      var s1 := s.(messages := s.messages + [Assistant(input.content, input.calls)]);
      ToolCharsMore(s, Assistant(input.content, input.calls));
      ObsCalls(s1, input.calls, input.results, |input.calls|);
      CallsErrors(s1, input.calls, input.results, |input.calls|);
      ToolCharsMore(ProcessCalls(s1, input.calls, input.results, |input.calls|).s, Internal(StopResearching));
    } else if s.end == None && input.StepTimeout? {
      ToolCharsMore(s, Internal(StepTimedOut(step)));
    }
  }

  // ---------- what one step did, read off its input ----------

  function Failed(results: seq<ToolResult>): nat {
    if results == [] then 0
    else Failed(results[..|results| - 1]) + if IsError(results[|results| - 1]) then 1 else 0
  }

  predicate SomeSucceeded(results: seq<ToolResult>) {
    exists i :: 0 <= i < |results| && !IsError(results[i])
  }

  /** Tool errors and timeouts of a step that the loop guard did not end. */
  function RecordOf(input: StepInput): StepRecord {
    match input
    case StepTimeout => StepRecord(1, false)
    case Reply(_, _, results) => StepRecord(Failed(results), SomeSucceeded(results))
    case _ => StepRecord(0, false)
  }

  function RecordsOf(inputs: seq<StepInput>): seq<StepRecord> {
    seq(|inputs|, i requires 0 <= i < |inputs| => RecordOf(inputs[i]))
  }

  lemma {:induction false} CallsRecord(s: State, calls: seq<Call>, results: seq<ToolResult>, n: nat)
    requires |calls| == |results| && n <= |calls|
    ensures var p := ProcessCalls(s, calls, results, n);
      !p.looped ==> p.errors == Failed(results[..n]) && p.anySuccess == SomeSucceeded(results[..n])
  {
    hide Observation, Nudge, IsError, IsCrash, Signature, CountError, Failures;
    if n > 0 {
      CallsRecord(s, calls, results, n - 1);
      assert results[..n][..n - 1] == results[..n - 1];
      assert results[..n] == results[..n - 1] + [results[n - 1]];
      assert SomeSucceeded(results[..n]) == (SomeSucceeded(results[..n - 1]) || !IsError(results[n - 1])) by {
        forall i | 0 <= i < n - 1 ensures results[..n][i] == results[..n - 1][i] {}
        assert results[..n][n - 1] == results[n - 1];
      }
    }
  }

  lemma RecordAppended(cfg: Config, s: State, input: StepInput, step: nat)
    requires InputFits(input) && Step(cfg, s, input, step).end == None
    ensures Step(cfg, s, input, step).steps == s.steps + [RecordOf(input)]
  {
    hide ProcessCalls, IsError;
    if input.Reply? {
      var s1 := s.(messages := s.messages + [Assistant(input.content, input.calls)]);
      CallsRecord(s1, input.calls, input.results, |input.calls|);
      CallsErrors(s1, input.calls, input.results, |input.calls|);
      assert input.results[..|input.calls|] == input.results;
    }
  }

  // ---------- one step keeps everything ----------

  predicate BrokeOff(end: Option<Reason>) {
    end == Some(ConsecutiveErrors) || end == Some(ConsecutiveTimeouts)
  }

  predicate GuardedOrCrashed(end: Option<Reason>) {
    end == Some(InfiniteLoop) || end == Some(SystemCrash)
  }

  /** The breaker ends a run exactly when its count has reached the limit, unless the
      loop guard or a crash ended it first. */
  ghost predicate BreakerDecides(s: State) {
    && (s.end == None ==> s.consecutiveErrors < ERROR_LIMIT)
    && (BrokeOff(s.end) <==> s.consecutiveErrors >= ERROR_LIMIT && !GuardedOrCrashed(s.end))
  }

  lemma BreakerDecidesStep(cfg: Config, s: State, input: StepInput, step: nat)
    requires InputFits(input) && BreakerDecides(s)
    ensures BreakerDecides(Step(cfg, s, input, step))
  {
    hide ProcessCalls;
    if s.end == None && input.Reply? && input.calls != [] {
      var s1 := s.(messages := s.messages + [Assistant(input.content, input.calls)]);
      CallsErrors(s1, input.calls, input.results, |input.calls|);
    }
  }

  ghost predicate GuardDecides(s: State) {
    s.end == Some(InfiniteLoop) <==> TrailingRun(s.signatures) >= 3
  }

  lemma GuardDecidesStep(cfg: Config, s: State, input: StepInput, step: nat)
    requires InputFits(input) && GuardInv(s) && GuardDecides(s)
    ensures GuardDecides(Step(cfg, s, input, step))
  {
    hide ProcessCalls, TrailingRun, GuardInv;
    if s.end == None && input.Reply? && input.calls != [] {
      var s1 := s.(messages := s.messages + [Assistant(input.content, input.calls)]);
      assert GuardInv(s1) by { GuardUnaffected(s, s1); }
      CallsErrors(s1, input.calls, input.results, |input.calls|);
      GuardLast(s1, input.calls, input.results, |input.calls|);
    }
  }

  lemma GuardUnaffected(s: State, s': State)
    requires GuardInv(s) && s'.signatures == s.signatures && s'.lastSignature == s.lastSignature &&
      s'.repeats == s.repeats
    ensures GuardInv(s')
  {
  }

  lemma {:induction false} GuardLast(s: State, calls: seq<Call>, results: seq<ToolResult>, n: nat)
    requires |calls| == |results| && n <= |calls| && GuardInv(s) && TrailingRun(s.signatures) < 3
    ensures var p := ProcessCalls(s, calls, results, n); p.looped <==> TrailingRun(p.s.signatures) >= 3
  {
    hide ProcessCall, TrailingRun, GuardInv;
    if n > 0 {
      GuardLast(s, calls, results, n - 1);
      var p := ProcessCalls(s, calls, results, n - 1);
      if !p.looped {
        GuardCalls(s, calls, results, n - 1);
        GuardCall(p, calls[n - 1], results[n - 1]);
      }
    }
  }

  /** Everything that holds between steps. */
  ghost predicate Inv(cfg: Config, s: State) {
    && BreakerInv(s)
    && BreakerDecides(s)
    && GuardInv(s)
    && GuardDecides(s)
    && ObsInv(s)
    && (s.end == None ==> s.obsChars <= cfg.hardChars)
    && (Paired(s.messages[s.runStart..]) <==> s.end != Some(InfiniteLoop))
  }

  lemma InvStep(cfg: Config, s: State, input: StepInput, step: nat)
    requires InputFits(input) && Inv(cfg, s)
    ensures Inv(cfg, Step(cfg, s, input, step))
  {
    hide BreakerInv, BreakerDecides, GuardInv, GuardDecides, Paired, ToolChars, ProcessCalls;
    if s.end == None {
      BreakerStep(cfg, s, input, step);
      BreakerDecidesStep(cfg, s, input, step);
      GuardStep(cfg, s, input, step);
      GuardDecidesStep(cfg, s, input, step);
      ObsStep(cfg, s, input, step);
      BlockPaired(cfg, s, input, step);
      var block := Block(cfg, s, input, step);
      var s' := Step(cfg, s, input, step);
      assert s'.messages[s'.runStart..] == s.messages[s.runStart..] + block by {
        assert s'.messages == s.messages + block;
      }
      PairedAppend(s.messages[s.runStart..], block);
    }
  }

  // ---------- whole runs ----------

  /** A run that begins below the error limit and off the loop guard keeps all of it,
      whatever the model, the tools and the clock do. */
  lemma {:induction false} RunKeepsInv(cfg: Config, s: State, inputs: seq<StepInput>, k: nat)
    requires InputsFit(inputs) && k <= |inputs| && Inv(cfg, s)
    ensures Inv(cfg, RunTo(cfg, s, inputs, k))
  {
    hide Inv, Step;
    if k > 0 {
      RunKeepsInv(cfg, s, inputs, k - 1);
      InvStep(cfg, RunTo(cfg, s, inputs, k - 1), inputs[k - 1], k - 1);
    }
  }

  /** A new executor satisfies it, and so does a later run on the same executor unless an
      earlier one left the error count or the guard tripped. */
  lemma BeginInv(cfg: Config, s: State, messages: seq<Message>)
    requires s == FRESH || (Inv(cfg, s) && s.consecutiveErrors < ERROR_LIMIT && s.end != Some(InfiniteLoop))
    ensures Inv(cfg, Begin(s, messages))
  {
    assert messages[|messages|..] == [];
  }

  lemma {:induction false} RecordsAppended(cfg: Config, s: State, inputs: seq<StepInput>, k: nat)
    requires InputsFit(inputs) && k <= |inputs| && RunTo(cfg, s, inputs, k).end == None
    ensures RunTo(cfg, s, inputs, k).steps == s.steps + RecordsOf(inputs[..k])
  {
    hide Step, RecordOf;
    if k > 0 {
      var before := RunTo(cfg, s, inputs, k - 1);
      if before.end != None { EndStays(cfg, before, inputs[k - 1], k - 1); }
      RecordsAppended(cfg, s, inputs, k - 1);
      RecordAppended(cfg, before, inputs[k - 1], k - 1);
      assert RecordsOf(inputs[..k]) == RecordsOf(inputs[..k - 1]) + [RecordOf(inputs[k - 1])];
    }
  }

  lemma EndStays(cfg: Config, s: State, input: StepInput, step: nat)
    requires InputFits(input) && s.end != None
    ensures Step(cfg, s, input, step) == s
  {
  }

  /** The breaker, read off the inputs of a first run alone: while the run goes on its
      count is the tool errors and timeouts after the last step with a successful call,
      and that is below the limit. */
  lemma CountIsErrorsSinceSuccess(cfg: Config, messages: seq<Message>, inputs: seq<StepInput>, k: nat)
    requires InputsFit(inputs) && k <= |inputs|
    requires RunTo(cfg, Begin(FRESH, messages), inputs, k).end == None
    ensures var records := RecordsOf(inputs[..k]);
      && RunTo(cfg, Begin(FRESH, messages), inputs, k).consecutiveErrors == Errors(records[SinceSuccess(records)..])
      && Errors(records[SinceSuccess(records)..]) < ERROR_LIMIT
  {
    hide Step, Errors, SinceSuccess, RecordsOf, GuardInv, GuardDecides, ObsInv, Paired;
    BeginInv(cfg, FRESH, messages);
    RunKeepsInv(cfg, Begin(FRESH, messages), inputs, k);
    RecordsAppended(cfg, Begin(FRESH, messages), inputs, k);
    assert FRESH.steps + RecordsOf(inputs[..k]) == RecordsOf(inputs[..k]);
  }

  /** The step that ends a run by the breaker is the first at which the count of errors
      since the last success reaches the limit; conversely a step that takes it there ends
      the run, by the breaker unless by the loop guard or a crash. */
  lemma BreakerEndsAtFirstReach(cfg: Config, s: State, input: StepInput, step: nat)
    requires InputFits(input) && s.end == None && Inv(cfg, s)
    requires input.StepTimeout? || (input.Reply? && input.calls != [])
    ensures var s' := Step(cfg, s, input, step);
      var records := s.steps + [RecordOf(input)];
      var count := Errors(records[SinceSuccess(records)..]);
      && (s'.end == Some(InfiniteLoop) || s'.consecutiveErrors == count)
      && (BrokeOff(s'.end) <==> count >= ERROR_LIMIT && !GuardedOrCrashed(s'.end))
      && (s'.end == Some(ConsecutiveTimeouts) ==> input.StepTimeout?)
  {
    hide ProcessCalls, IsError, Errors, SinceSuccess, GuardInv, GuardDecides, ObsInv, Paired, SomeSucceeded, Failed;
    BreakerStep(cfg, s, input, step);
    BreakerDecidesStep(cfg, s, input, step);
    if input.Reply? {
      var s1 := s.(messages := s.messages + [Assistant(input.content, input.calls)]);
      CallsRecord(s1, input.calls, input.results, |input.calls|);
      CallsErrors(s1, input.calls, input.results, |input.calls|);
      assert input.results[..|input.calls|] == input.results;
    }
  }

  predicate SomeCrashed(results: seq<ToolResult>) {
    exists i :: 0 <= i < |results| && IsCrash(results[i])
  }

  lemma {:induction false} CallsCrash(s: State, calls: seq<Call>, results: seq<ToolResult>, n: nat)
    requires |calls| == |results| && n <= |calls|
    ensures var p := ProcessCalls(s, calls, results, n); !p.looped ==> p.crash == SomeCrashed(results[..n])
  {
    hide Observation, Nudge, IsError, IsCrash, Signature, CountError, Failures;
    if n > 0 {
      CallsCrash(s, calls, results, n - 1);
      assert SomeCrashed(results[..n]) == (SomeCrashed(results[..n - 1]) || IsCrash(results[n - 1])) by {
        forall i | 0 <= i < n - 1 ensures results[..n][i] == results[..n - 1][i] {}
        assert results[..n][n - 1] == results[n - 1];
      }
    }
  }

  /** What the step left behind, read off its input and its messages. */
  ghost predicate Exits(cfg: Config, end: Option<Reason>, crashed: bool, count: nat, observed: nat) {
    && (end == Some(SystemCrash) <==> crashed)
    && (end == Some(ConsecutiveErrors) <==> !crashed && count >= ERROR_LIMIT)
    && (end == Some(TokenBurn) <==> !crashed && count < ERROR_LIMIT && observed > cfg.hardChars)
    && (end == None <==> !crashed && count < ERROR_LIMIT && observed <= cfg.hardChars)
  }

  lemma ExitOfTools(cfg: Config, p: Partial)
    requires !p.looped && p.s.end == None
    ensures var s' := EndOfTools(cfg, p);
      Exits(cfg, s'.end, p.crash, s'.consecutiveErrors, s'.obsChars)
  {
  }

  /** Every exit of a step with tool calls, in the order the loop looks at them: three equal
      signatures in a row; a result that mentions a crash; three errors since the last
      success; more observed than the hard limit. */
  lemma ToolStepExits(cfg: Config, s: State, input: StepInput, step: nat)
    requires InputFits(input) && s.end == None && Inv(cfg, s)
    requires input.Reply? && input.calls != []
    ensures var s' := Step(cfg, s, input, step);
      var records := s.steps + [RecordOf(input)];
      && (s'.end == Some(InfiniteLoop) <==> exists m :: GuardTrips(s, input.calls, m))
      && s'.runStart <= |s'.messages|
      && (s'.end != Some(InfiniteLoop) ==>
            Exits(cfg, s'.end, SomeCrashed(input.results), Errors(records[SinceSuccess(records)..]),
              ToolChars(s'.messages[s'.runStart..])))
  {
    hide ProcessCalls, IsError, IsCrash, Errors, SinceSuccess, GuardTrips, Exits, Failed, SomeSucceeded, SomeCrashed,
      GuardInv, GuardDecides, Paired, ToolChars, BreakerInv;
    GuardStep(cfg, s, input, step);
    ObsStep(cfg, s, input, step);
    BreakerEndsAtFirstReach(cfg, s, input, step);
    var s1 := s.(messages := s.messages + [Assistant(input.content, input.calls)]);
    var p := ProcessCalls(s1, input.calls, input.results, |input.calls|);
    CallsErrors(s1, input.calls, input.results, |input.calls|);
    CallsCrash(s1, input.calls, input.results, |input.calls|);
    assert input.results[..|input.calls|] == input.results;
    if !p.looped { ExitOfTools(cfg, p); }
  }

  /** Tool results answer calls, whole runs: in a run that the loop guard did not end every
      assistant message is followed by exactly its results; in one that it did end, not. */
  lemma ResultsFollowCallsIff(cfg: Config, messages: seq<Message>, inputs: seq<StepInput>, k: nat)
    requires InputsFit(inputs) && k <= |inputs|
    ensures var s := RunTo(cfg, Begin(FRESH, messages), inputs, k);
      && messages <= s.messages
      && (Paired(s.messages[|messages|..]) <==> TrailingRun(s.signatures) < 3)
      && s.obsChars == ToolChars(s.messages[|messages|..])
      && (s.end == None ==> s.obsChars <= cfg.hardChars)
  {
    hide Step, Paired, ToolChars, TrailingRun, GuardInv, BreakerInv, BreakerDecides;
    BeginInv(cfg, FRESH, messages);
    RunKeepsInv(cfg, Begin(FRESH, messages), inputs, k);
    RunExtends(cfg, Begin(FRESH, messages), inputs, k);
  }

  lemma {:induction false} RunExtends(cfg: Config, s: State, inputs: seq<StepInput>, k: nat)
    requires InputsFit(inputs) && k <= |inputs|
    ensures s.messages <= RunTo(cfg, s, inputs, k).messages
    ensures RunTo(cfg, s, inputs, k).runStart == s.runStart
  {
    hide Step, Paired, Block;
    if k > 0 {
      RunExtends(cfg, s, inputs, k - 1);
      var before := RunTo(cfg, s, inputs, k - 1);
      if before.end == None { BlockPaired(cfg, before, inputs[k - 1], k - 1); }
      else { EndStays(cfg, before, inputs[k - 1], k - 1); }
    }
  }
}
