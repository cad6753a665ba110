/** The scheduler, the supervisor and the worker loop as the objects they are.  The worker
    serves its queue task by task; what it does is a run of the system in AgentWorker. */
module WorkerLoop {
  import opened Options
  import opened AgentWorker

  /** The steps lead from s to s', each enabled where it is taken. */
  ghost predicate Leads(script: TaskId -> Script, s: System, steps: seq<Step>, s': System)
    decreases |steps|, 0
  {
    if steps == [] then s == s' else LeadsBy(script, s, steps[..|steps| - 1], steps[|steps| - 1], s')
  }

  ghost predicate LeadsBy(script: TaskId -> Script, s: System, steps: seq<Step>, a: Step, s': System)
    decreases |steps|, 1
  {
    exists m :: Leads(script, s, steps, m) && Enabled(script, m, a) && s' == Do(script, m, a)
  }

  lemma OneStep(script: TaskId -> Script, s: System, steps: seq<Step>, m: System, a: Step)
    requires Leads(script, s, steps, m) && Enabled(script, m, a)
    ensures Leads(script, s, steps + [a], Do(script, m, a))
  {
    hide Enabled, Do;
    assert (steps + [a])[..|steps|] == steps;
  }

  /** A path keeps what every interleaving keeps. */
  lemma {:induction false} PathInvariants(script: TaskId -> Script, s: System, steps: seq<Step>, s': System)
    requires Leads(script, s, steps, s') && OrderInv(s) && FlowsInv(s) && TriedsInv(script, s)
    ensures OrderInv(s') && FlowsInv(s') && TriedsInv(script, s')
    decreases |steps|
  {
    hide Enabled, Do, OrderInv, FlowsInv, TriedsInv;
    if steps != [] {
      var a := steps[|steps| - 1];
      assert LeadsBy(script, s, steps[..|steps| - 1], a, s');
      var m :| Leads(script, s, steps[..|steps| - 1], m) && Enabled(script, m, a) && s' == Do(script, m, a);
      PathInvariants(script, s, steps[..|steps| - 1], m);
      OrderStep(script, m, a);
      FlowStep(script, m, a);
      TriedStep(script, m, a);
    }
  }

  class HeartbeatSupervisor {
    var activeTasks: map<TaskId, nat>      // when each was picked up

    constructor ()
      ensures activeTasks == map[]
    {
      activeTasks := map[];
    }

    method Track(id: TaskId, now: nat)
      modifies this
      ensures activeTasks == old(activeTasks)[id := now]
    {
      activeTasks := activeTasks[id := now];
    }

    method Untrack(id: TaskId)
      modifies this
      ensures activeTasks == old(activeTasks) - {id}
    {
      activeTasks := activeTasks - {id};
    }
  }

  /** Steps of submitters and callers leave the worker where it is. */
  ghost predicate OthersOnly(s: System, s': System) {
    && s'.control == s.control && s'.tracked == s.tracked && s'.finished == s.finished
    && s.queue <= s'.queue && s.accepted <= s'.accepted
    && forall t :: t in s.channels ==> t in s'.channels
  }

  lemma OthersTwice(s: System, m: System, s': System)
    requires OthersOnly(s, m) && OthersOnly(m, s')
    ensures OthersOnly(s, s')
  {
  }

  /** What polling a submission gives: it is accepted, refused, or waits for room. */
  datatype Submitted = Accepted(id: TaskId) | ChannelClosed | Pending

  /** The worker, with its queue, supervisor and channels.  `plan` says what submitters and
      callers do at each point where the worker may be interrupted. */
  class Worker {
    const supervisor: HeartbeatSupervisor
    const plan: nat -> seq<Step>
    var receiverOpen: bool
    var queue: seq<TaskId>
    var channels: map<TaskId, Channel>
    var point: nat

    constructor (supervisor: HeartbeatSupervisor, plan: nat -> seq<Step>)
      requires supervisor.activeTasks == map[]
      ensures this.supervisor == supervisor && this.plan == plan && receiverOpen
      ensures Holds(System([], Idle, {}, map[], [], []))
    {
      this.supervisor, this.plan := supervisor, plan;
      receiverOpen, queue, channels, point := true, [], map[], 0;
    }

    ghost predicate Holds(s: System)
      reads this, supervisor
    {
      queue == s.queue && channels == s.channels && supervisor.activeTasks.Keys == s.tracked
    }

    /** The steps that are not the worker's, when they are possible. */
    predicate Possible(a: Step)
      reads this
    {
      match a
      case Submit(t) => t !in channels && |queue| < QUEUE_CAPACITY
      case Take(t) => t in channels && channels[t].client == Waiting && channels[t].buffer != []
      case SeeClosed(t) =>
        t in channels && channels[t].client == Waiting && channels[t].buffer == [] && !channels[t].senderOpen
      case Disconnect(t) => t in channels && channels[t].client == Waiting
      case _ => false
    }

    method OtherStep(script: TaskId -> Script, a: Step, ghost s: System)
      requires Holds(s) && Possible(a)
      modifies `queue, `channels
      ensures Enabled(script, s, a) && Holds(Do(script, s, a)) && OthersOnly(s, Do(script, s, a))
    {
      hide RunAgent, StartsWith;
      match a
      case Submit(t) =>
        channels := channels[t := OPEN];
        queue := queue + [t];
      case Take(t) => channels := channels[t := TakeOne(channels[t])];
      case SeeClosed(t) => channels := channels[t := channels[t].(client := Answered(RunAgent(channels[t].received)))];
      case Disconnect(t) => channels := channels[t := channels[t].(client := Gone)];
    }

    /** An interruption: whatever is planned and possible happens. */
    method Others(script: TaskId -> Script, ghost s0: System, ghost before: seq<Step>, ghost s: System)
      returns (ghost steps: seq<Step>, ghost s': System)
      requires Holds(s) && Leads(script, s0, before, s)
      modifies `queue, `channels, `point
      ensures Holds(s') && Leads(script, s0, steps, s') && OthersOnly(s, s')
    {
      hide Leads, Enabled, Do;
      steps, s' := before, s;
      var events := plan(point);
      point := point + 1;
      for k := 0 to |events|
        invariant Holds(s') && Leads(script, s0, steps, s') && OthersOnly(s, s')
      {
        if Possible(events[k]) {
          OtherStep(script, events[k], s');
          OneStep(script, s0, steps, s', events[k]);
          OthersTwice(s, s', Do(script, s', events[k]));
          steps, s' := steps + [events[k]], Do(script, s', events[k]);
        }
      }
    }

    /** Waits until t's channel has room: others go on, and its caller takes messages. */
    method AwaitRoom(script: TaskId -> Script, t: TaskId, ghost s0: System, ghost before: seq<Step>, ghost s: System)
      returns (ghost steps: seq<Step>, ghost s': System)
      requires Holds(s) && Leads(script, s0, before, s) && t in s.channels
      modifies `queue, `channels, `point
      ensures Holds(s') && Leads(script, s0, steps, s') && t in s'.channels && CanSend(s'.channels[t])
      ensures OthersOnly(s, s')
    {
      hide Leads, StartsWith;
      steps, s' := Others(script, s0, before, s);
      while !CanSend(channels[t])
        invariant Holds(s') && Leads(script, s0, steps, s') && t in s'.channels && OthersOnly(s, s')
        decreases |channels[t].buffer|
      {
        OneStep(script, s0, steps, s', Take(t));
        channels := channels[t := TakeOne(channels[t])];
        steps, s' := steps + [Take(t)], Do(script, s', Take(t));
      }
    }

    /** The worker has gone on from s to s', and others with it. */
    ghost predicate Onward(s: System, s': System, c: Control) {
      && s'.control == c && s'.tracked == s.tracked && s'.finished == s.finished
      && s.queue <= s'.queue && s.accepted <= s'.accepted
      && forall t :: t in s.channels ==> t in s'.channels
    }

    /** The runner's tokens, until it returns or the timeout strikes after `limit` of them. */
    method RunTask(script: TaskId -> Script, t: TaskId, limit: nat, ghost s0: System, ghost before: seq<Step>,
        ghost s: System)
      returns (ghost steps: seq<Step>, ghost s': System)
      requires Holds(s) && Leads(script, s0, before, s) && t in s.channels && s.control == Running(t, 0)
      requires limit <= |script(t).tokens|
      modifies `queue, `channels, `point
      ensures Holds(s') && Leads(script, s0, steps, s') && Onward(s, s', Running(t, limit))
    {
      hide Leads, CanSend, Send;
      steps, s' := before, s;
      for n := 0 to limit
        invariant Holds(s') && Leads(script, s0, steps, s') && Onward(s, s', Running(t, n))
      {
        steps, s' := AwaitRoom(script, t, s0, steps, s');
        OneStep(script, s0, steps, s', SendToken);
        channels := channels[t := Send(channels[t], script(t).tokens[n])];
        steps, s' := steps + [SendToken], Do(script, s', SendToken);
      }
    }

    /** The runner returned, or the timeout struck: the terminal message. */
    method EndTask(script: TaskId -> Script, t: TaskId, timedOut: bool, ghost s0: System, ghost before: seq<Step>,
        ghost s: System)
      returns (ghost steps: seq<Step>, ghost s': System)
      requires Holds(s) && Leads(script, s0, before, s) && t in s.channels && s.control.Running? && s.control.t == t
      requires !timedOut ==> s.control.n == |script(t).tokens|
      modifies `queue, `channels, `point
      ensures Holds(s') && Leads(script, s0, steps, s') && Onward(s, s', Ended(t))
    {
      hide Leads, CanSend, Send;
      ghost var a := if timedOut then TimeOut else Finish;
      OneStep(script, s0, before, s, a);
      steps, s' := before + [a], Do(script, s, a);
      steps, s' := AwaitRoom(script, t, s0, steps, s');
      OneStep(script, s0, steps, s', SendTerminal);
      channels := channels[t := Send(channels[t], if timedOut then TIMED_OUT else Terminal(script(t).outcome))];
      steps, s' := steps + [SendTerminal], Do(script, s', SendTerminal);
    }

    method Start(script: TaskId -> Script, now: nat, ghost s0: System, ghost before: seq<Step>, ghost s: System)
      returns (t: TaskId, ghost steps: seq<Step>, ghost s': System)
      requires Holds(s) && Leads(script, s0, before, s) && s.control == Idle && queue != []
      modifies `queue, `channels, `point, supervisor
      ensures Holds(s') && Leads(script, s0, steps, s') && t == s.queue[0]
      ensures Onward(s.(queue := s.queue[1..], tracked := s.tracked + {t}), s', Running(t, 0))
    {
      hide Leads;
      t := queue[0];
      OneStep(script, s0, before, s, Pick);
      steps, s' := before + [Pick], Do(script, s, Pick);
      queue := queue[1..];
      steps, s' := Others(script, s0, steps, s');
      OneStep(script, s0, steps, s', Step.Track);
      steps, s' := steps + [Step.Track], Do(script, s', Step.Track);
      supervisor.Track(t, now);
    }

    method Close(script: TaskId -> Script, t: TaskId, ghost s0: System, ghost before: seq<Step>, ghost s: System)
      returns (ghost steps: seq<Step>, ghost s': System)
      requires Holds(s) && Leads(script, s0, before, s) && s.control == Ended(t) && t in s.channels
      modifies `queue, `channels, `point, supervisor
      ensures Holds(s') && Leads(script, s0, steps, s')
      ensures Onward(s.(finished := s.finished + [t], tracked := s.tracked - {t}), s', Idle)
    {
      hide Leads;
      steps, s' := Others(script, s0, before, s);
      OneStep(script, s0, steps, s', Step.Untrack);
      supervisor.Untrack(t);
      steps, s' := steps + [Step.Untrack], Do(script, s', Step.Untrack);
      steps, s' := Others(script, s0, steps, s');
      OneStep(script, s0, steps, s', DropTask);
      channels := channels[t := channels[t].(senderOpen := false)];
      steps, s' := steps + [DropTask], Do(script, s', DropTask);
    }

    /** One turn of the loop.  `limit` is None when the run finishes in time, else how many
        tokens it sent before the timeout. */
    method ServeTask(script: TaskId -> Script, limit: Option<nat>, now: nat, ghost s0: System, ghost before: seq<Step>,
        ghost s: System)
      returns (ghost steps: seq<Step>, ghost s': System)
      requires Holds(s) && Leads(script, s0, before, s) && s.control == Idle && queue != [] && queue[0] in s.channels
      modifies `queue, `channels, `point, supervisor
      ensures Holds(s') && Leads(script, s0, steps, s') && s'.control == Idle
      ensures s'.finished == s.finished + [old(queue)[0]] && old(queue)[1..] <= queue && s.accepted <= s'.accepted
    {
      hide Leads, CanSend, Send;
      var t;
      t, steps, s' := Start(script, now, s0, before, s);
      var n := if limit.Some? && limit.value < |script(t).tokens| then limit.value else |script(t).tokens|;
      steps, s' := RunTask(script, t, n, s0, steps, s');
      steps, s' := EndTask(script, t, limit.Some?, s0, steps, s');
      steps, s' := Close(script, t, s0, steps, s');
    }

    /** The first turns of the loop, with any submissions, reads and disconnects in between:
        each turn serves the task at the head of the queue, if there is one.  The whole is a
        run of the system, so finished tasks are the first accepted ones, in order, and each of
        their channels carries one whole stream and no sender. */
    method Serve(script: TaskId -> Script, limits: TaskId -> Option<nat>, now: nat, turns: nat, ghost s: System)
      returns (ghost steps: seq<Step>, ghost s': System)
      requires Holds(s) && s.control == Idle && OrderInv(s) && FlowsInv(s) && TriedsInv(script, s)
      modifies `queue, `channels, `point, supervisor
      ensures Holds(s') && Leads(script, s, steps, s')
      ensures s.finished <= s'.finished && s'.accepted == s'.finished + queue && supervisor.activeTasks == map[]
      ensures forall t :: t in s'.finished ==>
        t in channels && IsStream(script(t), channels[t].tried) && !channels[t].senderOpen
      ensures Served(s, s', turns)
    {
      hide Leads, OrderInv, FlowsInv, TriedsInv;
      steps, s' := [], s;
      assert Leads(script, s, steps, s') by { NoSteps(script, s); }
      WhenIdle(script, s);
      for turn := 0 to turns
        invariant Holds(s') && Leads(script, s, steps, s') && s'.control == Idle
        invariant OrderInv(s') && FlowsInv(s') && TriedsInv(script, s')
        invariant s.finished <= s'.finished && s.accepted <= s'.accepted
        invariant Served(s, s', turn)
      {
        steps, s' := Others(script, s, steps, s');
        PathInvariants(script, s, steps, s');
        WhenIdle(script, s');
        if queue != [] {
          assert queue[0] in s'.channels by { Queued(s', 0); }
          steps, s' := ServeTask(script, limits(queue[0]), now, s, steps, s');
          PathInvariants(script, s, steps, s');
        }
      }
      WhenIdle(script, s');
    }

    /** After so many turns so many tasks were served, or all that were queued. */
    ghost predicate Served(s: System, s': System, turn: nat) {
      |s'.finished| >= |s.finished| + if turn <= |s.queue| then turn else |s.queue|
    }

    /** One poll of submit: refused when the worker is gone, waiting while the queue is full,
        and otherwise the task is last in the queue, with its own empty channel. */
    method Submit(script: TaskId -> Script, t: TaskId, ghost s: System) returns (r: Submitted)
      requires Holds(s) && t !in channels
      modifies `queue, `channels
      ensures r == ChannelClosed <==> !receiverOpen
      ensures r == Pending <==> receiverOpen && !Enabled(script, s, Step.Submit(t))
      ensures r == Accepted(t) <==> receiverOpen && Enabled(script, s, Step.Submit(t))
      ensures r == Accepted(t) ==> Holds(Do(script, s, Step.Submit(t)))
      ensures r != Accepted(t) ==> Holds(s)
    {
      if !receiverOpen { return ChannelClosed; }
      if |queue| >= QUEUE_CAPACITY { return Pending; }
      channels := channels[t := OPEN];
      queue := queue + [t];
      r := Accepted(t);
    }
  }

  lemma NoSteps(script: TaskId -> Script, s: System)
    ensures Leads(script, s, [], s)
  {
  }

  lemma Queued(s: System, i: nat)
    requires OrderInv(s) && i < |s.queue|
    ensures s.queue[i] in s.channels
  {
    assert s.queue[i] in s.accepted;
  }

  lemma WhenIdle(script: TaskId -> Script, s: System)
    requires OrderInv(s) && TriedsInv(script, s) && s.control == Idle
    ensures s.accepted == s.finished + s.queue && s.tracked == {}
    ensures forall t :: t in s.finished ==>
      t in s.channels && IsStream(script(t), s.channels[t].tried) && !s.channels[t].senderOpen
  {
    hide IsStream;
    assert s.finished + [] + s.queue == s.finished + s.queue;
    forall t | t in s.finished ensures t in s.accepted {}
  }
}
