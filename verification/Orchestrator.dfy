/** The hybrid orchestrator: trials of parallel batches, critic verdicts, and the
    resets between trials.  Subtask outcomes, verdicts and the clock are inputs. */
module Orchestrator {
  import opened Options
  import opened DependencyGraph

  datatype SubtaskResult = SubtaskResult(subtaskId: string, content: string, steps: nat, terminated: bool)

  datatype Verdict = Pass | Partial(failedSubtasks: seq<string>) | Reject

  /** What the outside world answers during one trial: whether the global timeout
      has passed when it starts, what each subtask would return if it runs, and
      the critic's verdict. */
  datatype TrialOracle = TrialOracle(timedOut: bool, results: seq<SubtaskResult>, verdict: Verdict)

  datatype TrialArtifact = TrialArtifact(trialId: nat, subtaskResults: seq<SubtaskResult>, totalSteps: nat)

  /** Why the outer loop was left before its trials ran out. */
  datatype Stop = GlobalTimeout | Deadlock | Passed

  function Oks(results: seq<SubtaskResult>): (ok: seq<bool>)
    ensures |ok| == |results|
  {
    seq(|results|, i requires 0 <= i < |results| => !results[i].terminated)
  }

  function Pick(batch: seq<nat>, results: seq<SubtaskResult>): seq<SubtaskResult>
    requires forall k :: 0 <= k < |batch| ==> batch[k] < |results|
  {
    seq(|batch|, k requires 0 <= k < |batch| => results[batch[k]])
  }

  function StepsOf(results: seq<SubtaskResult>): nat {
    if results == [] then 0 else StepsOf(results[..|results| - 1]) + results[|results| - 1].steps
  }

  lemma {:induction false} StepsOfConcat(a: seq<SubtaskResult>, b: seq<SubtaskResult>)
    ensures StepsOf(a + b) == StepsOf(a) + StepsOf(b)
  {
    if b == [] {
      assert a + b == a;
    } else {
      assert (a + b)[..|a + b| - 1] == a + b[..|b| - 1];
      StepsOfConcat(a, b[..|b| - 1]);
    }
  }

  /** Every result counts its own steps, once. */
  lemma StepsOfOne(r: SubtaskResult)
    ensures StepsOf([r]) == r.steps && StepsOf([]) == 0
  {
    assert [r][..0] == [];
  }

  // ---------- the specification of a trial and of a run ----------

  /** The results of a trial, batch by batch. */
  ghost function TrialResults(tasks: seq<Task>, st: Statuses, results: seq<SubtaskResult>): seq<SubtaskResult>
    requires Fits(tasks, st) && |results| == |tasks|
    decreases PendingSet(st)
  {
    var ready := Ready(tasks, st);
    if ready == [] then []
    else
      BatchShrinksPending(tasks, st, Oks(results));
      Pick(ready, results) + TrialResults(tasks, After(st, ReadySet(tasks, st), Oks(results)), results)
  }

  /** `partial`: the named subtasks, done or not, go back to pending. */
  function Replanned(tasks: seq<Task>, st: Statuses, failed: seq<string>): Statuses
    requires Fits(tasks, st)
  {
    seq(|st|, i requires 0 <= i < |st| => if tasks[i].id in failed then Pending else st[i])
  }

  /** `reject`: everything that is not done goes back to pending. */
  function Retried(st: Statuses): Statuses {
    seq(|st|, i requires 0 <= i < |st| => if st[i] == Done then Done else Pending)
  }

  function Reset(tasks: seq<Task>, st: Statuses, verdict: Verdict): (r: Statuses)
    requires Fits(tasks, st)
    ensures |r| == |st|
  {
    match verdict
    case Pass => st
    case Partial(failed) => Replanned(tasks, st, failed)
    case Reject => Retried(st)
  }

  /** One executed trial: the statuses and outcomes it ran with, and what was persisted. */
  datatype TrialRecord = TrialRecord(start: Statuses, results: seq<SubtaskResult>, artifact: TrialArtifact)

  /** The run so far: current statuses, persisted trials, steps counted, and why it
      stopped, if it has. */
  datatype RunState = RunState(now: Statuses, records: seq<TrialRecord>, steps: nat, stop: Option<Stop>)

  ghost predicate OraclesFit(tasks: seq<Task>, oracles: seq<TrialOracle>) {
    forall t :: 0 <= t < |oracles| ==> |oracles[t].results| == |tasks|
  }

  /** Trial t of the outer loop, entered in s. */
  ghost function Trial(tasks: seq<Task>, s: RunState, oracle: TrialOracle, t: nat): (r: RunState)
    requires Fits(tasks, s.now) && |oracle.results| == |tasks|
    ensures Fits(tasks, r.now)
  {
    if s.stop != None then s
    else if oracle.timedOut then s.(stop := Some(GlobalTimeout))
    else if Ready(tasks, s.now) == [] && !AllDone(s.now) then s.(stop := Some(Deadlock))
    else
      var results := TrialResults(tasks, s.now, oracle.results);
      var total := s.steps + StepsOf(results);
      RunState(
        Reset(tasks, TrialEnd(tasks, s.now, Oks(oracle.results)), oracle.verdict),
        s.records + [TrialRecord(s.now, oracle.results, TrialArtifact(t, results, total))],
        total,
        if oracle.verdict.Pass? then Some(Passed) else None)
  }

  /** The run after the first t trials. */
  ghost function RunTo(tasks: seq<Task>, st: Statuses, oracles: seq<TrialOracle>, t: nat): (r: RunState)
    requires Fits(tasks, st) && OraclesFit(tasks, oracles) && t <= |oracles|
    ensures Fits(tasks, r.now)
  {
    if t == 0 then RunState(st, [], 0, None)
    else Trial(tasks, RunTo(tasks, st, oracles, t - 1), oracles[t - 1], t - 1)
  }

  /** The whole run: as many trials as there are oracles. */
  ghost function Run(tasks: seq<Task>, st: Statuses, oracles: seq<TrialOracle>): (r: RunState)
    requires Fits(tasks, st) && OraclesFit(tasks, oracles)
    ensures Fits(tasks, r.now)
  {
    RunTo(tasks, st, oracles, |oracles|)
  }

  lemma {:induction false} StoppedStays(tasks: seq<Task>, st: Statuses, oracles: seq<TrialOracle>, t: nat, t': nat)
    requires Fits(tasks, st) && OraclesFit(tasks, oracles) && t <= t' <= |oracles|
    requires RunTo(tasks, st, oracles, t).stop != None
    ensures RunTo(tasks, st, oracles, t') == RunTo(tasks, st, oracles, t)
    decreases t'
  {
    if t < t' { StoppedStays(tasks, st, oracles, t, t' - 1); }
  }

  // ---------- the objects ----------

  class SubtaskNode {
    const id: string
    const dependsOn: seq<string>
    var status: Status
    var resultSummary: Option<string>

    constructor (id: string, dependsOn: seq<string>)
      ensures this.id == id && this.dependsOn == dependsOn && status == Pending && resultSummary == None
    {
      this.id := id;
      this.dependsOn := dependsOn;
      status := Pending;
      resultSummary := None;
    }
  }

  /** A reference to a node is its position in `nodes`. */
  class DecompositionGraph {
    const nodes: seq<SubtaskNode>

    constructor (nodes: seq<SubtaskNode>)
      ensures this.nodes == nodes
    {
      this.nodes := nodes;
    }

    ghost predicate Valid() {
      forall i, j :: 0 <= i < j < |nodes| ==> nodes[i] != nodes[j]
    }

    function Tasks(): seq<Task> {
      seq(|nodes|, i requires 0 <= i < |nodes| => Task(nodes[i].id, nodes[i].dependsOn))
    }

    function Now(): Statuses
      reads nodes
    {
      seq(|nodes|, i requires 0 <= i < |nodes| reads nodes => nodes[i].status)
    }

    function ReadyNodes(): seq<nat>
      reads nodes
    {
      Ready(Tasks(), Now())
    }

    function IsAllDone(): bool
      reads nodes
    {
      AllDone(Now())
    }
  }

  /** The first 300 characters of a subtask's content, as kept on its node. */
  function Summary(content: string): (r: string)
    ensures r <= content && |r| <= 300 && (r == content || |r| == 300)
  {
    if |content| <= 300 then content else content[..300]
  }

  /** Runs the subtasks of one batch, in any order of completion: each writes the
      slot of its own index, so the batch results do not depend on the order. */
  method RunConcurrently(ready: seq<nat>, results: seq<SubtaskResult>) returns (batch: seq<SubtaskResult>)
    requires forall k :: 0 <= k < |ready| ==> ready[k] < |results|
    ensures batch == Pick(ready, results)
  {
    batch := seq(|ready|, _ => SubtaskResult("", "", 0, false));
    var running := set k {:trigger ready[k]} | 0 <= k < |ready|;
    while running != {}
      invariant |batch| == |ready| && forall k :: k in running ==> 0 <= k < |ready|
      invariant forall k :: 0 <= k < |ready| && k !in running ==> batch[k] == results[ready[k]]
      decreases running
    {
      var k :| k in running;
      batch := batch[k := results[ready[k]]];
      running := running - {k};
    }
  }

  method MarkRunning(graph: DecompositionGraph, ready: seq<nat>)
    requires graph.Valid() && forall k :: 0 <= k < |ready| ==> ready[k] < |graph.nodes|
    modifies graph.nodes
    ensures forall i :: 0 <= i < |graph.nodes| && i !in ready ==> graph.nodes[i].status == old(graph.nodes[i].status)
    ensures forall i :: 0 <= i < |graph.nodes| && i in ready ==> graph.nodes[i].status == Running
    ensures forall i :: 0 <= i < |graph.nodes| ==> graph.nodes[i].resultSummary == old(graph.nodes[i].resultSummary)
  {
    for k := 0 to |ready|
      invariant forall i :: 0 <= i < |graph.nodes| && i !in ready ==>
        graph.nodes[i].status == old(graph.nodes[i].status)
      invariant forall j :: 0 <= j < k ==> graph.nodes[ready[j]].status == Running
      invariant forall i :: 0 <= i < |graph.nodes| ==> graph.nodes[i].resultSummary == old(graph.nodes[i].resultSummary)
    {
      graph.nodes[ready[k]].status := Running;
    }
  }

  /** Stores each result of the batch on its own node. */
  method StoreOutcomes(graph: DecompositionGraph, ready: seq<nat>, batch: seq<SubtaskResult>)
    requires graph.Valid() && |batch| == |ready|
    requires forall k :: 0 <= k < |ready| ==> ready[k] < |graph.nodes|
    requires forall j, k :: 0 <= j < k < |ready| ==> ready[j] < ready[k]
    modifies graph.nodes
    ensures forall i :: 0 <= i < |graph.nodes| && i !in ready ==>
      graph.nodes[i].status == old(graph.nodes[i].status) &&
        graph.nodes[i].resultSummary == old(graph.nodes[i].resultSummary)
    ensures forall j :: 0 <= j < |ready| ==>
      graph.nodes[ready[j]].status == Outcome(!batch[j].terminated) &&
      graph.nodes[ready[j]].resultSummary == Some(Summary(batch[j].content))
  {
    for k := 0 to |ready|
      invariant forall i :: 0 <= i < |graph.nodes| && i !in ready ==>
        graph.nodes[i].status == old(graph.nodes[i].status) &&
          graph.nodes[i].resultSummary == old(graph.nodes[i].resultSummary)
      invariant forall j :: 0 <= j < k ==>
        graph.nodes[ready[j]].status == Outcome(!batch[j].terminated) &&
        graph.nodes[ready[j]].resultSummary == Some(Summary(batch[j].content))
    {
      var node := graph.nodes[ready[k]];
      node.status := if !batch[k].terminated then Done else Failed;
      node.resultSummary := Some(Summary(batch[k].content));
    }
  }

  /** One batch: mark the ready nodes running, run them, store their outcomes. */
  method RunBatch(graph: DecompositionGraph, ready: seq<nat>, results: seq<SubtaskResult>)
      returns (batch: seq<SubtaskResult>)
    requires graph.Valid() && |results| == |graph.nodes| && ready == graph.ReadyNodes()
    modifies graph.nodes
    ensures batch == Pick(ready, results)
    ensures graph.Now() == After(old(graph.Now()), ReadySet(graph.Tasks(), old(graph.Now())), Oks(results))
    ensures forall i :: 0 <= i < |graph.nodes| && i !in ready ==>
      graph.nodes[i].resultSummary == old(graph.nodes[i].resultSummary)
    ensures forall i :: 0 <= i < |graph.nodes| && i in ready ==>
      graph.nodes[i].resultSummary == Some(Summary(results[i].content))
  {
    ghost var before, tasks := graph.Now(), graph.Tasks();
    ReadyMembers(tasks, before);
    MarkRunning(graph, ready);
    batch := RunConcurrently(ready, results);
    StoreOutcomes(graph, ready, batch);
    ghost var after := After(before, ReadySet(tasks, before), Oks(results));
    forall i | 0 <= i < |graph.nodes| ensures graph.nodes[i].status == after[i] {
      assert i in ready <==> i in ReadySet(tasks, before);
      if i in ready {
        var j :| 0 <= j < |ready| && ready[j] == i;
      }
    }
    assert graph.Now() == after;
  }

  /** Appends a batch to the trial's results, counting steps. */
  method Collect(soFar: seq<SubtaskResult>, batch: seq<SubtaskResult>) returns (all: seq<SubtaskResult>, steps: nat)
    ensures all == soFar + batch && steps == StepsOf(batch)
  {
    all, steps := soFar, 0;
    for k := 0 to |batch|
      invariant all == soFar + batch[..k] && steps == StepsOf(batch[..k])
    {
      assert batch[..k + 1][..k] == batch[..k];
      all := all + [batch[k]];
      steps := steps + batch[k].steps;
    }
    assert batch[..|batch|] == batch;
  }

  /** The trial that began in `before` is now in `now` with results `soFar`. */
  ghost predicate TrialSoFar(tasks: seq<Task>, before: Statuses, results: seq<SubtaskResult>, now: Statuses,
      soFar: seq<SubtaskResult>)
    requires Fits(tasks, before) && Fits(tasks, now) && |results| == |tasks|
  {
    && TrialEnd(tasks, before, Oks(results)) == TrialEnd(tasks, now, Oks(results))
    && TrialResults(tasks, before, results) == soFar + TrialResults(tasks, now, results)
  }

  lemma TrialStep(tasks: seq<Task>, before: Statuses, results: seq<SubtaskResult>, now: Statuses,
      soFar: seq<SubtaskResult>)
    requires Fits(tasks, before) && Fits(tasks, now) && |results| == |tasks| && Ready(tasks, now) != []
    requires TrialSoFar(tasks, before, results, now, soFar)
    ensures TrialSoFar(tasks, before, results, After(now, ReadySet(tasks, now), Oks(results)),
      soFar + Pick(Ready(tasks, now), results))
    ensures PendingSet(After(now, ReadySet(tasks, now), Oks(results))) < PendingSet(now)
  {
    BatchShrinksPending(tasks, now, Oks(results));
    var rest := TrialResults(tasks, After(now, ReadySet(tasks, now), Oks(results)), results);
    assert soFar + (Pick(Ready(tasks, now), results) + rest) == (soFar + Pick(Ready(tasks, now), results)) + rest;
  }

  /** The batch loop of one trial. */
  method RunTrial(graph: DecompositionGraph, results: seq<SubtaskResult>)
      returns (subtaskResults: seq<SubtaskResult>, steps: nat)
    requires graph.Valid() && |results| == |graph.nodes|
    modifies graph.nodes
    ensures subtaskResults == TrialResults(graph.Tasks(), old(graph.Now()), results)
    ensures steps == StepsOf(subtaskResults)
    ensures graph.Now() == TrialEnd(graph.Tasks(), old(graph.Now()), Oks(results))
  {
    ghost var tasks, before, now := graph.Tasks(), graph.Now(), graph.Now();
    subtaskResults, steps := [], 0;
    var ready := graph.ReadyNodes();
    while ready != []
      invariant |now| == |tasks| && now == graph.Now() && ready == Ready(tasks, now)
      invariant TrialSoFar(tasks, before, results, now, subtaskResults)
      invariant steps == StepsOf(subtaskResults)
      decreases PendingSet(now)
    {
      TrialStep(tasks, before, results, now, subtaskResults);
      var batch := RunBatch(graph, ready, results);
      now := After(now, ReadySet(tasks, now), Oks(results));
      StepsOfConcat(subtaskResults, batch);
      var batchSteps;
      subtaskResults, batchSteps := Collect(subtaskResults, batch);
      steps := steps + batchSteps;
      ready := graph.ReadyNodes();
    }
  }

  method TargetedReplan(graph: DecompositionGraph, failedSubtasks: seq<string>)
    requires graph.Valid()
    modifies graph.nodes
    ensures graph.Now() == Replanned(graph.Tasks(), old(graph.Now()), failedSubtasks)
    ensures forall i :: 0 <= i < |graph.nodes| ==>
      graph.nodes[i].resultSummary ==
        (if graph.nodes[i].id in failedSubtasks then None else old(graph.nodes[i].resultSummary))
  {
    ghost var before := graph.Now();
    for k := 0 to |graph.nodes|
      invariant forall i :: 0 <= i < |graph.nodes| ==>
        graph.nodes[i].status == (if i < k && graph.nodes[i].id in failedSubtasks then Pending else before[i])
      invariant forall i :: 0 <= i < |graph.nodes| ==>
        graph.nodes[i].resultSummary ==
          (if i < k && graph.nodes[i].id in failedSubtasks then None else old(graph.nodes[i].resultSummary))
    {
      var node := graph.nodes[k];
      if node.id in failedSubtasks {
        node.status := Pending;
        node.resultSummary := None;
      }
    }
    assert graph.Now() == Replanned(graph.Tasks(), before, failedSubtasks);
  }

  method RetryUndone(graph: DecompositionGraph)
    requires graph.Valid()
    modifies graph.nodes
    ensures graph.Now() == Retried(old(graph.Now()))
  {
    ghost var before := graph.Now();
    for k := 0 to |graph.nodes|
      invariant forall i :: 0 <= i < |graph.nodes| ==>
        graph.nodes[i].status == (if i < k && before[i] != Done then Pending else before[i])
    {
      if graph.nodes[k].status != Done {
        graph.nodes[k].status := Pending;
      }
    }
    assert graph.Now() == Retried(before);
  }

  ghost function ArtifactsOf(records: seq<TrialRecord>): seq<TrialArtifact> {
    seq(|records|, i requires 0 <= i < |records| => records[i].artifact)
  }

  lemma ArtifactsAppend(records: seq<TrialRecord>, rec: TrialRecord)
    ensures ArtifactsOf(records + [rec]) == ArtifactsOf(records) + [rec.artifact]
  {
  }

  /** One executed trial followed by the reset its verdict asks for. */
  method RunTrialAndReset(graph: DecompositionGraph, oracle: TrialOracle)
    returns (subtaskResults: seq<SubtaskResult>, steps: nat)
    requires graph.Valid() && |oracle.results| == |graph.nodes|
    modifies graph.nodes
    ensures subtaskResults == TrialResults(graph.Tasks(), old(graph.Now()), oracle.results)
    ensures steps == StepsOf(subtaskResults)
    ensures graph.Now() ==
      Reset(graph.Tasks(), TrialEnd(graph.Tasks(), old(graph.Now()), Oks(oracle.results)), oracle.verdict)
  {
    subtaskResults, steps := RunTrial(graph, oracle.results);
    if oracle.verdict == Pass {
    } else if oracle.verdict.Partial? {
      TargetedReplan(graph, oracle.verdict.failedSubtasks);
    } else {
      RetryUndone(graph);
    }
  }

  /** The orchestrator's variables hold the run state s. */
  ghost predicate Holds(s: RunState, now: Statuses, trials: seq<TrialArtifact>, totalSteps: nat, stop: Option<Stop>) {
    s.now == now && ArtifactsOf(s.records) == trials && s.steps == totalSteps && s.stop == stop
  }

  /** The body of the outer loop, entered in state s. */
  method OuterStep(graph: DecompositionGraph, oracle: TrialOracle, t: nat, trials: seq<TrialArtifact>, totalSteps: nat,
      ghost s: RunState)
    returns (trials': seq<TrialArtifact>, totalSteps': nat, stop: Option<Stop>)
    requires graph.Valid() && |oracle.results| == |graph.nodes| && Holds(s, graph.Now(), trials, totalSteps, None)
    modifies graph.nodes
    ensures Holds(Trial(graph.Tasks(), s, oracle, t), graph.Now(), trials', totalSteps', stop)
  {
    hide Ready, TrialResults, TrialEnd, Reset, Oks, StepsOf, ArtifactsOf, AllDone;
    trials', totalSteps', stop := trials, totalSteps, None;
    if oracle.timedOut {
      stop := Some(GlobalTimeout);
    } else if graph.ReadyNodes() == [] && !graph.IsAllDone() {
      stop := Some(Deadlock);
    } else {
      var results, steps := RunTrialAndReset(graph, oracle);
      totalSteps' := totalSteps + steps;
      trials' := trials + [TrialArtifact(t, results, totalSteps')];
      ArtifactsAppend(s.records, TrialRecord(s.now, oracle.results, TrialArtifact(t, results, totalSteps')));
      if oracle.verdict == Pass {
        stop := Some(Passed);
      }
    }
  }

  /** The outer loop.  `oracles` has one entry for each of the max_trials trials. */
  method RunTrials(graph: DecompositionGraph, oracles: seq<TrialOracle>)
    returns (trials: seq<TrialArtifact>, totalSteps: nat, stop: Option<Stop>)
    requires graph.Valid() && OraclesFit(graph.Tasks(), oracles)
    modifies graph.nodes
    ensures Holds(Run(graph.Tasks(), old(graph.Now()), oracles), graph.Now(), trials, totalSteps, stop)
  {
    ghost var tasks, before := graph.Tasks(), graph.Now();
    ghost var s := RunTo(tasks, before, oracles, 0);
    trials, totalSteps, stop := [], 0, None;
    var t := 0;
    while t < |oracles| && stop == None
      invariant 0 <= t <= |oracles|
      invariant Reaches(tasks, before, oracles, t, s)
      invariant Holds(s, graph.Now(), trials, totalSteps, stop)
      decreases |oracles| - t
    {
      trials, totalSteps, stop := OuterStep(graph, oracles[t], t, trials, totalSteps, s);
      s := Reach(tasks, before, oracles, t, s);
      t := t + 1;
    }
    ReachesEnd(tasks, before, oracles, t, s);
  }

  ghost predicate Reaches(tasks: seq<Task>, before: Statuses, oracles: seq<TrialOracle>, t: nat, s: RunState)
    requires Fits(tasks, before) && OraclesFit(tasks, oracles) && t <= |oracles|
  {
    s == RunTo(tasks, before, oracles, t)
  }

  lemma Reach(tasks: seq<Task>, before: Statuses, oracles: seq<TrialOracle>, t: nat, s: RunState) returns (s': RunState)
    requires Fits(tasks, before) && OraclesFit(tasks, oracles) && t < |oracles|
    requires Reaches(tasks, before, oracles, t, s) && Fits(tasks, s.now)
    ensures s' == Trial(tasks, s, oracles[t], t) && Reaches(tasks, before, oracles, t + 1, s')
  {
    s' := Trial(tasks, s, oracles[t], t);
  }

  lemma ReachesEnd(tasks: seq<Task>, before: Statuses, oracles: seq<TrialOracle>, t: nat, s: RunState)
    requires Fits(tasks, before) && OraclesFit(tasks, oracles) && t <= |oracles|
    requires Reaches(tasks, before, oracles, t, s) && (t == |oracles| || s.stop != None)
    ensures Run(tasks, before, oracles) == s
  {
    if s.stop != None { StoppedStays(tasks, before, oracles, t, |oracles|); }
  }
}
