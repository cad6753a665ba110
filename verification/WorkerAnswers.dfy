/** What the callers of the worker are answered, and that all are who do not hang up. */
module WorkerAnswers {
  import opened AgentWorker
  import opened WorkerTermination

  // ---------- who has to wait ----------

  /** A new submission waits exactly while 256 tasks are queued, and a message exactly while
      its caller listens and has 128 before it. */
  lemma WaitsIff(script: TaskId -> Script, s: System, t: TaskId)
    requires OrderInv(s)
    ensures t !in s.channels ==> (Enabled(script, s, Submit(t)) <==> |s.queue| != 256)
    ensures t in s.channels && FlowInv(s.channels[t]) ==>
      (CanSend(s.channels[t]) <==> s.channels[t].client != Waiting || |s.channels[t].buffer| != 128)
  {
    hide RunAgent;
  }

  // ---------- who is answered ----------

  ghost predicate HungUp(steps: seq<Step>, i: nat, t: TaskId) {
    exists j :: 0 <= j < i && j < |steps| && steps[j] == Disconnect(t)
  }

  lemma GoneStep(script: TaskId -> Script, s: System, a: Step, t: TaskId)
    requires Enabled(script, s, a) && t in Do(script, s, a).channels && Do(script, s, a).channels[t].client == Gone
    ensures a == Disconnect(t) || (t in s.channels && s.channels[t].client == Gone)
  {
    hide RunAgent, StartsWith, Terminal;
  }

  /** A caller is gone only if it hung up. */
  lemma {:induction false} GoneOnlyIfHungUp(script: TaskId -> Script, run: seq<System>, steps: seq<Step>, i: nat,
      t: TaskId)
    requires IsRun(script, run, steps) && i < |run| && t in run[i].channels && run[i].channels[t].client == Gone
    ensures HungUp(steps, i, t)
  {
    hide Enabled, Do;
    if i > 0 {
      GoneStep(script, run[i - 1], steps[i - 1], t);
      if steps[i - 1] != Disconnect(t) { GoneOnlyIfHungUp(script, run, steps, i - 1, t); }
    }
  }

  /** At rest every caller that has not hung up has its answer. */
  lemma AtRestAllAnswered(script: TaskId -> Script, run: seq<System>, steps: seq<Step>, i: nat, t: TaskId)
    requires IsRun(script, run, steps) && i < |run| && AtRest(script, run[i])
    requires t in run[i].channels && !HungUp(steps, i, t)
    ensures run[i].channels[t].client.Answered?
  {
    hide AtRest, IsRun, HungUp;
    AtRestAllServed(script, run, steps, i, t);
    if run[i].channels[t].client == Gone { GoneOnlyIfHungUp(script, run, steps, i, t); }
  }

  // ---------- what it is answered ----------

  /** Some of the runner's tokens, and then perhaps its terminal message. */
  ghost predicate Sent(script: Script, tried: seq<string>) {
    || tried <= script.tokens
    || exists n: nat, last :: IsLast(script, n, last) && tried == script.tokens[..n] + [last]
  }

  lemma StreamSent(script: Script, tried: seq<string>)
    requires IsStream(script, tried)
    ensures Sent(script, tried)
  {
    if tried == script.tokens + [Terminal(script.outcome)] {
      assert script.tokens[..|script.tokens|] == script.tokens;
      assert IsLast(script, |script.tokens|, Terminal(script.outcome));
    } else {
      var n :| 0 <= n <= |script.tokens| && tried == script.tokens[..n] + [TIMED_OUT];
      assert IsLast(script, n, TIMED_OUT);
    }
  }

  lemma TriedIsSent(script: TaskId -> Script, s: System, t: TaskId)
    requires OrderInv(s) && t in s.channels && TriedInv(script, s, t)
    ensures Sent(script(t), s.channels[t].tried)
  {
    hide IsStream, Terminal;
    assert t in s.accepted;
    var tried := s.channels[t].tried;
    if t in s.finished {
      StreamSent(script(t), tried);
    } else if t in s.queue {
      assert tried <= script(t).tokens;
    } else {
      assert t in Current(s.control);
      match s.control
      case Ended(_) => StreamSent(script(t), tried);
      case Untracked(_) => StreamSent(script(t), tried);
      case _ =>
    }
  }

  lemma FirstErrorExists(messages: seq<string>) returns (i: nat)
    requires !NoError(messages)
    ensures FirstError(messages, i)
  {
    hide StartsWith;
    i := 0;
    while !StartsWith(messages[i], ERROR)
      invariant i < |messages| && forall j :: 0 <= j < i ==> !StartsWith(messages[j], ERROR)
      invariant exists j :: i <= j < |messages| && StartsWith(messages[j], ERROR)
      decreases |messages| - i
    {
      i := i + 1;
    }
  }

  lemma TokensNoError(tokens: seq<string>, tried: seq<string>, n: nat)
    requires NoError(tokens) && n <= |tried| && n <= |tokens| && tried[..n] == tokens[..n]
    ensures forall i :: 0 <= i < n ==> !StartsWith(tried[i], ERROR)
  {
    hide StartsWith;
    forall i | 0 <= i < n ensures !StartsWith(tried[i], ERROR) { assert tried[i] == tried[..n][i] == tokens[i]; }
  }

  lemma SentError(script: Script, tried: seq<string>, i: nat)
    requires Sent(script, tried) && NoError(script.tokens) && FirstError(tried, i)
    ensures tried[i] == TIMED_OUT || tried[i] == Terminal(script.outcome)
  {
    hide StartsWith, Terminal, NoError;
    if tried <= script.tokens {
      TokensNoError(script.tokens, tried, |tried|);
    } else {
      var n: nat, last :| IsLast(script, n, last) && tried == script.tokens[..n] + [last];
      TokensNoError(script.tokens, tried, n);
    }
  }

  /** When no token looks like an error, a caller that got an answer got the text of the
      timeout, or of the runner's failure with its reason, or what the runner responded. */
  lemma AnswersAre(script: TaskId -> Script, run: seq<System>, steps: seq<Step>, i: nat, t: TaskId)
    requires IsRun(script, run, steps) && i < |run| && t in run[i].channels && run[i].channels[t].client.Answered?
    requires NoError(script(t).tokens)
    ensures var reply, outcome := run[i].channels[t].client.reply, script(t).outcome;
      || reply == Internal("[ERROR] Agent task timed out after 120 seconds")
      || (outcome.Failed? && reply == Internal("[ERROR] Agent task failed: " + outcome.error))
      || (outcome.Completed? && reply == if StartsWith(outcome.response, ERROR) then Internal(outcome.response)
            else if StartsWith(outcome.response, DONE) then RunAgent(script(t).tokens) else Ok(outcome.response))
  {
    hide Enabled, Do, OrderInv, TriedInv, Sent, FirstError, NoError, RunAgent, StartsWith, IsRun;
    var tried, reply := run[i].channels[t].tried, run[i].channels[t].client.reply;
    AnswerIsHandlersAnswer(script, run, steps, i, t);
    RunAgentOkIff(tried);
    if reply.Internal? {
      Invariants(script, run, steps, i, t);
      TriedIsSent(script, run[i], t);
      var k := FirstErrorExists(tried);
      RunAgentIs(tried);
      SentError(script(t), tried, k);
      ErrorTexts(script(t).outcome);
      CompletedError(tried, k);
    } else {
      SuccessIsFullResponse(script, run, steps, i, t);
      OkResponse(script(t).tokens, script(t).outcome.response);
    }
  }

  lemma Invariants(script: TaskId -> Script, run: seq<System>, steps: seq<Step>, i: nat, t: TaskId)
    requires IsRun(script, run, steps) && i < |run| && t in run[i].channels
    ensures OrderInv(run[i]) && TriedInv(script, run[i], t)
  {
    hide Enabled, Do, OrderInv, TriedInv;
    RunInvariants(script, run, steps, i);
  }

  lemma CompletedError(messages: seq<string>, k: nat)
    requires FirstError(messages, k)
    ensures StartsWith(messages[k], ERROR)
  {
  }

  lemma ErrorTexts(outcome: Outcome)
    ensures TIMED_OUT == "[ERROR] Agent task timed out after 120 seconds"
    ensures outcome.Failed? ==> Terminal(outcome) == "[ERROR] Agent task failed: " + outcome.error
    ensures outcome.Completed? ==> Terminal(outcome) == outcome.response
  {
  }

  lemma OkResponse(tokens: seq<string>, response: string)
    requires RunAgent(tokens + [response]).Ok?
    ensures !StartsWith(response, ERROR)
    ensures RunAgent(tokens + [response]) ==
      if StartsWith(response, DONE) then RunAgent(tokens) else Ok(response)
  {
    var all := tokens + [response];
    assert all[..|tokens|] == tokens;
  }
}
