/** The task queue, the worker loop and the request handlers: bounded channels
    between any number of submitters, one worker and one receiver per task.
    A runner's tokens and result are an input, and so are the moments a timeout
    strikes or a client disconnects. */
module AgentWorker {
  type TaskId = nat

  const QUEUE_CAPACITY: nat := 256
  const CHANNEL_CAPACITY: nat := 128

  /** What the runner does for one task when nothing interrupts it. */
  datatype Outcome = Completed(response: string) | Failed(error: string)
  datatype Script = Script(tokens: seq<string>, outcome: Outcome)

  const ERROR: string := "[ERROR]"
  const DONE: string := "[DONE]"
  const TASK_FAILED: string := "[ERROR] Agent task failed: "
  const TIMED_OUT: string := "[ERROR] Agent task timed out after 120 seconds"

  function Terminal(outcome: Outcome): string {
    match outcome
    case Completed(response) => response
    case Failed(error) => TASK_FAILED + error
  }

  predicate StartsWith(s: string, prefix: string) {
    prefix <= s
  }

  // ---------- the synchronous handler ----------

  datatype Reply = Ok(content: string) | Internal(error: string)

  /** What run_agent answers when it has received these messages and the channel is
      closed: the first error, or else the last message that is not metadata. */
  function RunAgent(messages: seq<string>): Reply {
    if messages == [] then Ok("")
    else
      var n := |messages| - 1;
      var before := RunAgent(messages[..n]);
      if before.Internal? then before
      else if StartsWith(messages[n], ERROR) then Internal(messages[n])
      else if StartsWith(messages[n], DONE) then before
      else Ok(messages[n])
  }

  /** The receive loop of run_agent. */
  method Receive(messages: seq<string>) returns (reply: Reply)
    ensures reply == RunAgent(messages)
  {
    var responseContent := "";
    for k := 0 to |messages|
      invariant RunAgent(messages[..k]) == Ok(responseContent)
    {
      assert messages[..k + 1][..k] == messages[..k];
      var token := messages[k];
      if StartsWith(token, ERROR) {
        RunAgentStops(messages, k + 1);
        return Internal(token);
      }
      if !StartsWith(token, DONE) {
        responseContent := token;
      }
    }
    assert messages[..|messages|] == messages;
    reply := Ok(responseContent);
  }

  /** An error already received decides the answer, whatever would follow. */
  lemma {:induction false} RunAgentStops(messages: seq<string>, k: nat)
    requires k <= |messages| && RunAgent(messages[..k]).Internal?
    ensures RunAgent(messages) == RunAgent(messages[..k])
  {
    if k < |messages| {
      var init := messages[..|messages| - 1];
      assert init[..k] == messages[..k];
      RunAgentStops(init, k);
    } else {
      assert messages[..k] == messages;
    }
  }

  ghost predicate NoError(messages: seq<string>) {
    forall i :: 0 <= i < |messages| ==> !StartsWith(messages[i], ERROR)
  }

  lemma {:induction false} RunAgentOkIff(messages: seq<string>)
    ensures RunAgent(messages).Ok? <==> NoError(messages)
  {
    if messages != [] {
      var n := |messages| - 1;
      RunAgentOkIff(messages[..n]);
      assert NoError(messages) <==> NoError(messages[..n]) && !StartsWith(messages[n], ERROR);
    }
  }

  lemma {:induction false} RunAgentNotMetadata(messages: seq<string>)
    ensures RunAgent(messages).Ok? ==>
      var c := RunAgent(messages).content; c == "" || !StartsWith(c, DONE)
  {
    if messages != [] { RunAgentNotMetadata(messages[..|messages| - 1]); }
  }

  /** The handler returns the runner's full response exactly when no token and not
      the response starts as an error and the response does not start as metadata. */
  lemma FullResponseIff(tokens: seq<string>, response: string)
    ensures RunAgent(tokens + [response]) == Ok(response) <==>
      NoError(tokens) && !StartsWith(response, ERROR) && !StartsWith(response, DONE)
  {
    var all := tokens + [response];
    assert all[..|tokens|] == tokens;
    RunAgentOkIff(tokens);
    RunAgentNotMetadata(tokens);
  }

  /** The first message that is an error. */
  ghost predicate FirstError(messages: seq<string>, i: nat) {
    && i < |messages| && StartsWith(messages[i], ERROR)
    && forall j :: 0 <= j < i ==> !StartsWith(messages[j], ERROR)
  }

  /** The last message that is not metadata. */
  ghost predicate LastSaid(messages: seq<string>, i: nat) {
    && i < |messages| && !StartsWith(messages[i], DONE)
    && forall j :: i < j < |messages| ==> StartsWith(messages[j], DONE)
  }

  /** What the handler answers: the first error if there is one, and otherwise the last
      message that is not metadata, or nothing if all are. */
  lemma {:induction false} RunAgentIs(messages: seq<string>)
    ensures forall i: nat :: FirstError(messages, i) ==> RunAgent(messages) == Internal(messages[i])
    ensures forall i: nat :: NoError(messages) && LastSaid(messages, i) ==> RunAgent(messages) == Ok(messages[i])
    ensures (forall i :: 0 <= i < |messages| ==> StartsWith(messages[i], DONE)) ==> RunAgent(messages) == Ok("")
  {
    hide StartsWith;
    if messages != [] {
      var n := |messages| - 1;
      var before := messages[..n];
      RunAgentIs(before);
      RunAgentOkIff(before);
      ErrorIsNotDone(messages[n]);
      forall i: nat | FirstError(messages, i) && i < n ensures FirstError(before, i) {}
      forall i: nat | LastSaid(messages, i) && i < n ensures LastSaid(before, i) {}
    }
  }

  lemma ErrorIsNotDone(message: string)
    ensures !(StartsWith(message, ERROR) && StartsWith(message, DONE))
  {
    assert StartsWith(message, ERROR) ==> message[1] == ERROR[1];
    assert StartsWith(message, DONE) ==> message[1] == DONE[1];
  }

  // ---------- the system ----------

  /** Where the caller of a task stands. */
  datatype Client = Waiting | Answered(reply: Reply) | Gone

  /** One response channel: what is in it, and the history of what the worker tried
      to send, what was accepted, and what the caller took out. */
  datatype Channel = Channel(
    buffer: seq<string>,
    tried: seq<string>,
    sent: seq<string>,
    received: seq<string>,
    senderOpen: bool,
    client: Client)

  datatype Control =
    | Idle
    | Picked(t: TaskId)
    | Running(t: TaskId, n: nat)                     // tracked, n tokens sent
    | Ending(t: TaskId, n: nat, last: string)        // about to send the terminal message
    | Ended(t: TaskId)                               // sent, still tracked
    | Untracked(t: TaskId)                           // about to drop the task and its sender

  datatype System = System(
    queue: seq<TaskId>,
    control: Control,
    tracked: set<TaskId>,
    channels: map<TaskId, Channel>,
    accepted: seq<TaskId>,
    finished: seq<TaskId>)

  datatype Step =
    | Submit(t: TaskId)
    | Pick
    | Track
    | SendToken
    | Finish
    | TimeOut
    | SendTerminal
    | Untrack
    | DropTask
    | Take(t: TaskId)
    | SeeClosed(t: TaskId)
    | Disconnect(t: TaskId)

  const OPEN := Channel([], [], [], [], true, Waiting)

  ghost predicate Init(s: System) {
    s == System([], Idle, {}, map[], [], [])
  }

  /** A send goes through when there is room, or fails at once when the receiver is gone. */
  predicate CanSend(c: Channel) {
    |c.buffer| < CHANNEL_CAPACITY || c.client != Waiting
  }

  function Send(c: Channel, message: string): Channel {
    if c.client == Waiting
    then c.(buffer := c.buffer + [message], tried := c.tried + [message], sent := c.sent + [message])
    else c.(tried := c.tried + [message])
  }

  /** The caller takes one message, and answers at once when it is an error. */
  function TakeOne(c: Channel): Channel
    requires c.buffer != []
  {
    var message := c.buffer[0];
    c.(buffer := c.buffer[1..], received := c.received + [message],
       client := if StartsWith(message, ERROR) then Answered(Internal(message)) else c.client)
  }

  ghost predicate Enabled(script: TaskId -> Script, s: System, a: Step) {
    match a
    case Submit(t) => t !in s.channels && |s.queue| < QUEUE_CAPACITY
    case Pick => s.control == Idle && s.queue != []
    case Track => s.control.Picked?
    case SendToken =>
      s.control.Running? && s.control.t in s.channels && s.control.n < |script(s.control.t).tokens| &&
        CanSend(s.channels[s.control.t])
    case Finish => s.control.Running? && s.control.n == |script(s.control.t).tokens|
    case TimeOut => s.control.Running?
    case SendTerminal => s.control.Ending? && s.control.t in s.channels && CanSend(s.channels[s.control.t])
    case Untrack => s.control.Ended?
    case DropTask => s.control.Untracked? && s.control.t in s.channels
    case Take(t) => t in s.channels && s.channels[t].client == Waiting && s.channels[t].buffer != []
    case SeeClosed(t) =>
      t in s.channels && s.channels[t].client == Waiting && s.channels[t].buffer == [] && !s.channels[t].senderOpen
    case Disconnect(t) => t in s.channels && s.channels[t].client == Waiting
  }

  ghost function Do(script: TaskId -> Script, s: System, a: Step): System
    requires Enabled(script, s, a)
  {
    match a
    case Submit(t) =>
      s.(queue := s.queue + [t], accepted := s.accepted + [t], channels := s.channels[t := OPEN])
    case Pick => s.(queue := s.queue[1..], control := Picked(s.queue[0]))
    case Track => s.(tracked := s.tracked + {s.control.t}, control := Running(s.control.t, 0))
    case SendToken =>
      var t, n := s.control.t, s.control.n;
      s.(channels := s.channels[t := Send(s.channels[t], script(t).tokens[n])], control := Running(t, n + 1))
    case Finish => s.(control := Ending(s.control.t, s.control.n, Terminal(script(s.control.t).outcome)))
    case TimeOut => s.(control := Ending(s.control.t, s.control.n, TIMED_OUT))
    case SendTerminal =>
      var t := s.control.t;
      s.(channels := s.channels[t := Send(s.channels[t], s.control.last)], control := Ended(t))
    case Untrack => s.(tracked := s.tracked - {s.control.t}, control := Untracked(s.control.t))
    case DropTask =>
      var t := s.control.t;
      s.(channels := s.channels[t := s.channels[t].(senderOpen := false)], control := Idle,
        finished := s.finished + [t])
    case Take(t) => s.(channels := s.channels[t := TakeOne(s.channels[t])])
    case SeeClosed(t) =>
      s.(channels := s.channels[t := s.channels[t].(client := Answered(RunAgent(s.channels[t].received)))])
    case Disconnect(t) => s.(channels := s.channels[t := s.channels[t].(client := Gone)])
  }

  ghost predicate IsRun(script: TaskId -> Script, run: seq<System>, steps: seq<Step>) {
    && |run| == |steps| + 1 && Init(run[0])
    && forall i :: 0 <= i < |steps| ==> Enabled(script, run[i], steps[i]) && run[i + 1] == Do(script, run[i], steps[i])
  }

  // ---------- order and tracking ----------

  function Current(c: Control): seq<TaskId> {
    if c == Idle then [] else [c.t]
  }

  ghost predicate Distinct(ids: seq<TaskId>) {
    forall i, j :: 0 <= i < j < |ids| ==> ids[i] != ids[j]
  }

  /** Tasks are served in the order they were accepted, one at a time, and what is
      tracked is exactly the task being served. */
  ghost predicate OrderInv(s: System) {
    && s.accepted == s.finished + Current(s.control) + s.queue
    && |s.queue| <= QUEUE_CAPACITY
    && Distinct(s.accepted)
    && (forall t :: t in s.channels <==> t in s.accepted)
    && s.tracked == (if s.control.Running? || s.control.Ending? || s.control.Ended? then {s.control.t} else {})
  }

  lemma OrderStep(script: TaskId -> Script, s: System, a: Step)
    requires OrderInv(s) && Enabled(script, s, a)
    ensures OrderInv(Do(script, s, a))
  {
    var s' := Do(script, s, a);
    match a
    case Submit(t) =>
      assert s'.accepted == s.finished + Current(s.control) + (s.queue + [t]);
    case Pick =>
      assert s.queue == [s.queue[0]] + s.queue[1..];
      assert s'.accepted == s.finished + [s.queue[0]] + s.queue[1..];
    case DropTask =>
      assert s'.accepted == (s.finished + [s.control.t]) + [] + s.queue;
    case _ =>
  }

  // ---------- what each channel carries ----------

  /** A finished task's messages: the runner's tokens, then one terminal message;
      after a timeout, some of the tokens and the timeout message. */
  ghost predicate IsStream(script: Script, messages: seq<string>) {
    || messages == script.tokens + [Terminal(script.outcome)]
    || exists n :: 0 <= n <= |script.tokens| && messages == script.tokens[..n] + [TIMED_OUT]
  }

  /** The terminal message about to be sent after n tokens. */
  ghost predicate IsLast(script: Script, n: nat, last: string) {
    && n <= |script.tokens|
    && (last == TIMED_OUT || (n == |script.tokens| && last == Terminal(script.outcome)))
  }

  /** What the worker has tried to send on t's channel so far. */
  ghost predicate TriedInv(script: TaskId -> Script, s: System, t: TaskId)
    requires t in s.channels
  {
    var c := s.channels[t];
    && (t in s.queue ==> c.tried == [] && c.senderOpen)
    && (t in s.finished ==> IsStream(script(t), c.tried) && !c.senderOpen)
    && (s.control != Idle && s.control.t == t ==>
         && c.senderOpen
         && match s.control
            case Picked(_) => c.tried == []
            case Running(_, n) => n <= |script(t).tokens| && c.tried == script(t).tokens[..n]
            case Ending(_, n, last) => IsLast(script(t), n, last) && c.tried == script(t).tokens[..n]
            case _ => IsStream(script(t), c.tried))
  }

  /** A channel loses and reorders nothing while its caller waits. */
  ghost predicate FlowInv(c: Channel) {
    && c.sent == c.received + c.buffer
    && |c.buffer| <= CHANNEL_CAPACITY
    && c.sent <= c.tried
    && (c.client == Waiting ==> c.sent == c.tried && RunAgent(c.received).Ok?)
    && (c.client.Answered? ==> c.client.reply == RunAgent(c.received))
    && (c.client.Answered? && c.client.reply.Ok? ==> c.received == c.tried && !c.senderOpen)
  }

  lemma RunAgentTakes(received: seq<string>, message: string)
    requires RunAgent(received).Ok?
    ensures RunAgent(received + [message]) ==
      if StartsWith(message, ERROR) then Internal(message)
      else if StartsWith(message, DONE) then RunAgent(received) else Ok(message)
  {
    assert (received + [message])[..|received|] == received;
  }

  lemma SendFlows(c: Channel, message: string)
    requires FlowInv(c) && CanSend(c) && c.senderOpen
    ensures FlowInv(Send(c, message))
  {
    hide RunAgent;
    assert c.received + (c.buffer + [message]) == (c.received + c.buffer) + [message];
  }

  lemma TakeFlows(c: Channel)
    requires FlowInv(c) && c.client == Waiting && c.buffer != []
    ensures FlowInv(TakeOne(c))
  {
    RunAgentTakes(c.received, c.buffer[0]);
    hide RunAgent;
    assert c.received + c.buffer == (c.received + [c.buffer[0]]) + c.buffer[1..];
  }

  ghost predicate FlowsInv(s: System) {
    forall t :: t in s.channels ==> FlowInv(s.channels[t])
  }

  ghost predicate TriedsInv(script: TaskId -> Script, s: System) {
    forall t :: t in s.channels ==> TriedInv(script, s, t)
  }

  lemma FlowStep(script: TaskId -> Script, s: System, a: Step)
    requires OrderInv(s) && TriedsInv(script, s) && FlowsInv(s) && Enabled(script, s, a)
    ensures FlowsInv(Do(script, s, a))
  {
    hide FlowInv, RunAgent, Send, TakeOne;
    var s' := Do(script, s, a);
    forall t | t in s'.channels ensures FlowInv(s'.channels[t]) {
      if t in s.channels && s'.channels[t] == s.channels[t] {
      } else {
        FlowChanged(script, s, a, t);
      }
    }
  }

  lemma FlowChanged(script: TaskId -> Script, s: System, a: Step, t: TaskId)
    requires TriedsInv(script, s) && FlowsInv(s) && Enabled(script, s, a)
    requires t in Do(script, s, a).channels
    requires t !in s.channels || Do(script, s, a).channels[t] != s.channels[t]
    ensures FlowInv(Do(script, s, a).channels[t])
  {
    if t in s.channels {
      var c := s.channels[t];
      assert FlowInv(c);
      assert TriedInv(script, s, t);
      match a
      case SendToken => SendFlows(c, script(t).tokens[s.control.n]);
      case SendTerminal => SendFlows(c, s.control.last);
      case Take(_) => TakeFlows(c);
      case _ =>
    }
  }

  lemma TriedChanged(script: TaskId -> Script, s: System, a: Step, t: TaskId)
    requires OrderInv(s) && t in s.channels && TriedInv(script, s, t) && Enabled(script, s, a)
    requires s.control != Idle && s.control.t == t && !a.Submit?
    ensures t in Do(script, s, a).channels && TriedInv(script, Do(script, s, a), t)
  {
    hide RunAgent, StartsWith;
    var s' := Do(script, s, a);
    var tokens := script(t).tokens;
    OnceOnly(s, t);
    match a
    case SendToken => assert tokens[..s.control.n + 1] == tokens[..s.control.n] + [tokens[s.control.n]];
    case SendTerminal =>
      assert tokens[..|tokens|] == tokens;
    case _ =>
  }

  /** The current task is neither waiting nor finished. */
  lemma OnceOnly(s: System, t: TaskId)
    requires OrderInv(s) && s.control != Idle && s.control.t == t
    ensures t !in s.queue && t !in s.finished
  {
    var k := |s.finished|;
    assert s.accepted[k] == t;
    forall i | 0 <= i < |s.queue| ensures s.queue[i] != t { assert s.accepted[k + 1 + i] == s.queue[i]; }
    forall i | 0 <= i < |s.finished| ensures s.finished[i] != t { assert s.accepted[i] == s.finished[i]; }
  }

  lemma TriedOther(script: TaskId -> Script, s: System, a: Step, t: TaskId)
    requires OrderInv(s) && TriedsInv(script, s) && Enabled(script, s, a)
    requires t in Do(script, s, a).channels && (a.Submit? || s.control == Idle || s.control.t != t)
    ensures TriedInv(script, Do(script, s, a), t)
  {
    hide RunAgent, StartsWith, IsStream, IsLast;
    if t in s.channels { assert TriedInv(script, s, t); }
    match a
    case Submit(n) => NewIsNew(s, n);
    case Pick => QueuedOnce(s);
    case _ =>
  }

  lemma NewIsNew(s: System, t: TaskId)
    requires OrderInv(s) && t !in s.channels
    ensures t !in s.queue && t !in s.finished && (s.control == Idle || s.control.t != t)
  {
    assert t !in s.accepted;
    forall x | x in s.finished ensures x in s.accepted {}
    forall x | x in s.queue ensures x in s.accepted {}
    forall x | x in Current(s.control) ensures x in s.accepted {}
    if s.control != Idle { assert s.control.t in Current(s.control); }
  }

  /** The head of the queue is nowhere else. */
  lemma QueuedOnce(s: System)
    requires OrderInv(s) && s.control == Idle && s.queue != []
    ensures s.queue[0] !in s.queue[1..] && s.queue[0] !in s.finished
    ensures forall t :: t in s.queue[1..] ==> t in s.queue
  {
    var k := |s.finished|;
    assert s.accepted[k] == s.queue[0];
    forall i | 1 <= i < |s.queue| ensures s.queue[i] != s.queue[0] { assert s.accepted[k + i] == s.queue[i]; }
    forall i | 0 <= i < |s.finished| ensures s.finished[i] != s.queue[0] { assert s.accepted[i] == s.finished[i]; }
  }

  lemma TriedStep(script: TaskId -> Script, s: System, a: Step)
    requires OrderInv(s) && TriedsInv(script, s) && Enabled(script, s, a)
    ensures TriedsInv(script, Do(script, s, a))
  {
    hide TriedInv, OrderInv, RunAgent;
    var s' := Do(script, s, a);
    forall t | t in s'.channels ensures TriedInv(script, s', t) {
      if a.Submit? || s.control == Idle || s.control.t != t {
        TriedOther(script, s, a, t);
      } else {
        TriedChanged(script, s, a, t);
      }
    }
  }

  lemma {:induction false} RunInvariants(script: TaskId -> Script, run: seq<System>, steps: seq<Step>, i: nat)
    requires IsRun(script, run, steps) && i < |run|
    ensures OrderInv(run[i]) && TriedsInv(script, run[i]) && FlowsInv(run[i])
  {
    hide Do, RunAgent, TriedInv, FlowInv;
    if i > 0 {
      RunInvariants(script, run, steps, i - 1);
      OrderStep(script, run[i - 1], steps[i - 1]);
      TriedStep(script, run[i - 1], steps[i - 1]);
      FlowStep(script, run[i - 1], steps[i - 1]);
    }
  }

  // ---------- what every interleaving guarantees ----------

  /** Accepted tasks are served in order, each leaving the queue once, and at most one
      is tracked at any moment. */
  lemma ServedInOrder(script: TaskId -> Script, run: seq<System>, steps: seq<Step>, i: nat)
    requires IsRun(script, run, steps) && i < |run|
    ensures run[i].accepted == run[i].finished + Current(run[i].control) + run[i].queue
    ensures Distinct(run[i].accepted) && |run[i].queue| <= 256
    ensures |run[i].tracked| <= 1 && forall t :: t in run[i].tracked ==> Current(run[i].control) == [t]
  {
    RunInvariants(script, run, steps, i);
  }

  /** A finished task whose caller still waits has its whole stream on the way: the
      tokens it was sent, in order, and exactly one terminal message at the end. */
  lemma StreamIsComplete(script: TaskId -> Script, run: seq<System>, steps: seq<Step>, i: nat, t: TaskId)
    requires IsRun(script, run, steps) && i < |run| && t in run[i].finished
    ensures t in run[i].channels
    ensures var c := run[i].channels[t];
      && IsStream(script(t), c.tried)
      && c.received + c.buffer <= c.tried
      && (c.client == Waiting ==> c.received + c.buffer == c.tried && |c.buffer| <= 128)
  {
    hide RunAgent;
    RunInvariants(script, run, steps, i);
    assert t in run[i].accepted;
  }

  lemma ErrorMessages(error: string)
    ensures StartsWith(TIMED_OUT, ERROR) && StartsWith(Terminal(Failed(error)), ERROR)
  {
    assert ERROR <= TIMED_OUT && ERROR <= TASK_FAILED <= TASK_FAILED + error;
  }

  /** A stream without an error message is that of a completed run. */
  lemma CleanStream(script: Script, messages: seq<string>)
    requires IsStream(script, messages) && NoError(messages)
    ensures script.outcome.Completed? && messages == script.tokens + [script.outcome.response]
  {
    var last := messages[|messages| - 1];
    assert !StartsWith(last, ERROR);
    ErrorMessages(if script.outcome.Failed? then script.outcome.error else "");
    forall n | 0 <= n <= |script.tokens| ensures messages != script.tokens[..n] + [TIMED_OUT] {
      var timedOut := script.tokens[..n] + [TIMED_OUT];
      assert timedOut[|timedOut| - 1] == TIMED_OUT;
    }
  }

  /** A caller that got an answer got the handler's answer to the whole stream, even
      when it stopped reading at an error. */
  lemma AnswerIsHandlersAnswer(script: TaskId -> Script, run: seq<System>, steps: seq<Step>, i: nat, t: TaskId)
    requires IsRun(script, run, steps) && i < |run| && t in run[i].channels && run[i].channels[t].client.Answered?
    ensures var c := run[i].channels[t]; c.client.reply == RunAgent(c.tried)
  {
    hide Terminal;
    RunInvariants(script, run, steps, i);
    var c := run[i].channels[t];
    assert FlowInv(c) && TriedInv(script, run[i], t);
    if c.client.reply.Internal? {
      assert c.received <= c.sent <= c.tried;
      assert c.tried[..|c.received|] == c.received;
      RunAgentStops(c.tried, |c.received|);
    }
  }

  /** A successful answer means the runner completed, and is its full response unless that
      starts as metadata. */
  lemma SuccessIsFullResponse(script: TaskId -> Script, run: seq<System>, steps: seq<Step>, i: nat, t: TaskId)
    requires IsRun(script, run, steps) && i < |run| && t in run[i].channels
    requires run[i].channels[t].client.Answered? && run[i].channels[t].client.reply.Ok?
    ensures var c := run[i].channels[t];
      && t in run[i].finished
      && script(t).outcome.Completed?
      && c.tried == script(t).tokens + [script(t).outcome.response]
      && (c.client.reply.content == script(t).outcome.response <==> !StartsWith(script(t).outcome.response, DONE))
  {
    hide Terminal;
    AnswerIsHandlersAnswer(script, run, steps, i, t);
    RunInvariants(script, run, steps, i);
    var c := run[i].channels[t];
    assert FlowInv(c) && TriedInv(script, run[i], t);
    ClosedIsFinished(script, run[i], t);
    RunAgentOkIff(c.tried);
    CleanStream(script(t), c.tried);
    ResponseOrMetadata(script(t).tokens, script(t).outcome.response);
  }

  lemma ClosedIsFinished(script: TaskId -> Script, s: System, t: TaskId)
    requires OrderInv(s) && t in s.channels && TriedInv(script, s, t) && !s.channels[t].senderOpen
    ensures t in s.finished && IsStream(script(t), s.channels[t].tried)
  {
    hide RunAgent, IsStream, IsLast;
    assert t in s.accepted;
    assert t in s.finished || t in Current(s.control) || t in s.queue;
  }

  lemma ResponseOrMetadata(tokens: seq<string>, response: string)
    requires RunAgent(tokens + [response]).Ok?
    ensures RunAgent(tokens + [response]).content == response <==> !StartsWith(response, DONE)
  {
    var all := tokens + [response];
    assert all[..|tokens|] == tokens;
    RunAgentNotMetadata(tokens);
  }

  lemma IdleCanPick(s: System)
    requires OrderInv(s) && s.control == Idle && s.finished != s.accepted
    ensures s.queue != []
  {
    assert s.finished + [] + [] == s.finished;
  }

  lemma CurrentHasChannel(s: System)
    requires OrderInv(s) && s.control != Idle
    ensures s.control.t in s.channels
  {
    assert s.accepted[|s.finished|] == s.control.t;
  }

  /** A busy worker can go on, or the caller of its task can take a message. */
  lemma BusyCanGoOn(script: TaskId -> Script, s: System, t: TaskId) returns (a: Step)
    requires s.control != Idle && t == s.control.t && t in s.channels && TriedInv(script, s, t)
    ensures Enabled(script, s, a) && !a.Submit? && !a.TimeOut? && !a.Disconnect?
  {
    hide IsStream, IsLast;
    a := match s.control
      case Picked(_) => Track
      case Running(_, n) =>
        if n == |script(t).tokens| then Finish else if CanSend(s.channels[t]) then SendToken else Take(t)
      case Ending(_, _, _) => if CanSend(s.channels[t]) then SendTerminal else Take(t)
      case Ended(_) => Untrack
      case Untracked(_) => DropTask;
  }

  /** Nothing gets stuck: while an accepted task is unserved, the worker can step, or
      the caller it waits for can take a message. */
  lemma Progress(script: TaskId -> Script, run: seq<System>, steps: seq<Step>, i: nat) returns (a: Step)
    requires IsRun(script, run, steps) && i < |run| && run[i].finished != run[i].accepted
    ensures Enabled(script, run[i], a) && !a.Submit? && !a.TimeOut? && !a.Disconnect?
  {
    hide Do, OrderInv, FlowsInv, TriedInv;
    RunInvariants(script, run, steps, i);
    if run[i].control == Idle {
      IdleCanPick(run[i]);
      a := Pick;
    } else {
      CurrentHasChannel(run[i]);
      a := BusyCanGoOn(script, run[i], run[i].control.t);
    }
  }
}
