/** After the last submission the system comes to rest: every interleaving is finite,
    and one that cannot go on has served every task and left no caller waiting. */
module WorkerTermination {
  import opened AgentWorker

  // ---------- what is left to do ----------

  /** A task still queued: pick, track, its tokens, the end of the run, the terminal message,
      untrack and drop.  A message counts twice, once to send and once to take. */
  function TaskWork(script: TaskId -> Script, t: TaskId): nat {
    2 * |script(t).tokens| + 7
  }

  function QueueWork(script: TaskId -> Script, queue: seq<TaskId>): nat {
    if queue == [] then 0 else TaskWork(script, queue[0]) + QueueWork(script, queue[1..])
  }

  function CurrentWork(script: TaskId -> Script, c: Control): nat {
    match c
    case Idle => 0
    case Picked(t) => 2 * |script(t).tokens| + 6
    case Running(t, n) => 2 * (if n <= |script(t).tokens| then |script(t).tokens| - n else 0) + 5
    case Ending(_, _, _) => 4
    case Ended(_) => 2
    case Untracked(_) => 1
  }

  /** The messages to take, and the caller's answer. */
  function ChannelWork(c: Channel): nat {
    |c.buffer| + if c.client == Waiting then 1 else 0
  }

  function ChannelsWork(ids: seq<TaskId>, channels: map<TaskId, Channel>): nat
    requires forall t :: t in ids ==> t in channels
  {
    if ids == [] then 0 else ChannelWork(channels[ids[0]]) + ChannelsWork(ids[1..], channels)
  }

  ghost function Work(script: TaskId -> Script, s: System): nat
    requires OrderInv(s)
  {
    QueueWork(script, s.queue) + CurrentWork(script, s.control) + ChannelsWork(s.accepted, s.channels)
  }

  lemma {:induction false} SameChannels(ids: seq<TaskId>, channels: map<TaskId, Channel>, t: TaskId, c: Channel)
    requires (forall i :: i in ids ==> i in channels) && t !in ids
    ensures ChannelsWork(ids, channels[t := c]) == ChannelsWork(ids, channels)
  {
    if ids != [] { SameChannels(ids[1..], channels, t, c); }
  }

  /** One channel changes; the others' work is as before. */
  lemma {:induction false} OneChannel(ids: seq<TaskId>, channels: map<TaskId, Channel>, t: TaskId, c: Channel)
    requires (forall i :: i in ids ==> i in channels) && Distinct(ids) && t in ids
    ensures ChannelsWork(ids, channels[t := c]) + ChannelWork(channels[t]) ==
      ChannelsWork(ids, channels) + ChannelWork(c)
  {
    if ids[0] == t {
      assert t !in ids[1..];
      SameChannels(ids[1..], channels, t, c);
    } else {
      assert Distinct(ids[1..]);
      OneChannel(ids[1..], channels, t, c);
    }
  }

  /** The caller's steps: it takes a message, sees the channel closed, or goes away. */
  predicate ByCaller(a: Step) {
    a.Take? || a.SeeClosed? || a.Disconnect?
  }

  lemma CallerLeavesLess(script: TaskId -> Script, s: System, a: Step)
    requires OrderInv(s) && Enabled(script, s, a) && ByCaller(a)
    ensures OrderInv(Do(script, s, a)) && Work(script, Do(script, s, a)) < Work(script, s)
  {
    hide OrderInv, ChannelsWork, RunAgent, StartsWith, QueueWork, CurrentWork;
    OrderStep(script, s, a);
    Accepted(s);
    OneChannel(s.accepted, s.channels, a.t, Do(script, s, a).channels[a.t]);
  }

  lemma WorkerLeavesLess(script: TaskId -> Script, s: System, a: Step)
    requires OrderInv(s) && Enabled(script, s, a) && !ByCaller(a) && !a.Submit?
    ensures OrderInv(Do(script, s, a)) && Work(script, Do(script, s, a)) < Work(script, s)
  {
    hide OrderInv, ChannelsWork, RunAgent, StartsWith, Terminal, QueueWork, TakeOne, CanSend;
    OrderStep(script, s, a);
    Accepted(s);
    if a.Pick? {
      QueueHead(script, s.queue);
    } else if a.SendToken? || a.SendTerminal? || a.DropTask? {
      OneChannel(s.accepted, s.channels, s.control.t, Do(script, s, a).channels[s.control.t]);
    }
  }

  /** Every step but a submission leaves less to do. */
  lemma StepLeavesLess(script: TaskId -> Script, s: System, a: Step)
    requires OrderInv(s) && Enabled(script, s, a) && !a.Submit?
    ensures OrderInv(Do(script, s, a)) && Work(script, Do(script, s, a)) < Work(script, s)
  {
    hide OrderInv, Enabled, Do, Work;
    if ByCaller(a) { CallerLeavesLess(script, s, a); } else { WorkerLeavesLess(script, s, a); }
  }

  lemma QueueHead(script: TaskId -> Script, queue: seq<TaskId>)
    requires queue != []
    ensures QueueWork(script, queue) == TaskWork(script, queue[0]) + QueueWork(script, queue[1..])
  {
  }

  lemma Accepted(s: System)
    requires OrderInv(s)
    ensures Distinct(s.accepted) && forall t :: t in s.channels <==> t in s.accepted
  {
  }

  // ---------- runs ----------

  ghost predicate NoSubmission(steps: seq<Step>, i: nat) {
    forall j :: i <= j < |steps| ==> !steps[j].Submit?
  }

  lemma {:induction false} WorkRunsOut(script: TaskId -> Script, run: seq<System>, steps: seq<Step>, i: nat, j: nat)
    requires IsRun(script, run, steps) && i <= j < |run| && NoSubmission(steps, i)
    ensures OrderInv(run[i]) && OrderInv(run[j])
    ensures Work(script, run[j]) + (j - i) <= Work(script, run[i])
    decreases j
  {
    hide OrderInv, FlowsInv, TriedsInv, Enabled, Do, Work;
    RunInvariants(script, run, steps, i);
    RunInvariants(script, run, steps, j);
    if i < j {
      WorkRunsOut(script, run, steps, i, j - 1);
      StepLeavesLess(script, run[j - 1], steps[j - 1]);
    }
  }

  /** After the last submission at most Work steps follow, in every interleaving. */
  lemma FinitelyManySteps(script: TaskId -> Script, run: seq<System>, steps: seq<Step>, i: nat)
    requires IsRun(script, run, steps) && i < |run| && NoSubmission(steps, i)
    ensures OrderInv(run[i]) && |steps| - i <= Work(script, run[i])
  {
    hide OrderInv, Work;
    WorkRunsOut(script, run, steps, i, |steps|);
  }

  /** No step but a submission is possible. */
  ghost predicate AtRest(script: TaskId -> Script, s: System) {
    forall a :: Enabled(script, s, a) ==> a.Submit?
  }

  /** At rest every accepted task is finished, in order, nothing is tracked, and every
      caller has been answered or is gone. */
  lemma AtRestAllServed(script: TaskId -> Script, run: seq<System>, steps: seq<Step>, i: nat, t: TaskId)
    requires IsRun(script, run, steps) && i < |run| && AtRest(script, run[i])
    ensures run[i].finished == run[i].accepted && run[i].queue == [] && run[i].tracked == {}
    ensures t in run[i].channels ==> run[i].channels[t].client != Waiting
  {
    hide Do, RunAgent, IsStream, Enabled, OrderInv, TriedsInv, FlowsInv;
    var s := run[i];
    RunInvariants(script, run, steps, i);
    if s.finished != s.accepted {
      var a := Progress(script, run, steps, i);
      assert false;
    }
    NothingLeft(s);
    if t in s.channels && s.channels[t].client == Waiting {
      var a := WaitingCanGoOn(script, s, t);
      assert false;
    }
  }

  lemma WaitingCanGoOn(script: TaskId -> Script, s: System, t: TaskId) returns (a: Step)
    requires OrderInv(s) && TriedsInv(script, s) && s.finished == s.accepted
    requires t in s.channels && s.channels[t].client == Waiting
    ensures Enabled(script, s, a) && !a.Submit?
  {
    hide IsStream;
    assert t in s.accepted && TriedInv(script, s, t);
    a := if s.channels[t].buffer != [] then Take(t) else SeeClosed(t);
  }

  lemma NothingLeft(s: System)
    requires OrderInv(s) && s.finished == s.accepted
    ensures s.queue == [] && s.tracked == {}
  {
    assert |s.accepted| == |s.finished| + |Current(s.control)| + |s.queue|;
  }
}
