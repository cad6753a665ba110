/** What holds over whole runs of the orchestrator, whatever the subtasks return,
    whatever the critic says and whenever the clock runs out. */
module OrchestratorRuns {
  import opened Options
  import opened DependencyGraph
  import opened DependencyLevels
  import opened Orchestrator

  ghost function StepsOfRecords(records: seq<TrialRecord>): nat {
    if records == [] then 0
    else StepsOfRecords(records[..|records| - 1]) + StepsOf(records[|records| - 1].artifact.subtaskResults)
  }

  ghost function Executions(tasks: seq<Task>, records: seq<TrialRecord>): nat
    requires forall k :: 0 <= k < |records| ==> Fits(tasks, records[k].start) && |records[k].results| == |tasks|
  {
    if records == [] then 0
    else
      var last := records[|records| - 1];
      Executions(tasks, records[..|records| - 1]) + Total(Batches(tasks, last.start, Oks(last.results)))
  }

  /** The persisted trials are exactly the executed ones, each with the results of
      its own batches and the steps counted so far. */
  ghost predicate WellRecorded(tasks: seq<Task>, oracles: seq<TrialOracle>, records: seq<TrialRecord>)
    requires OraclesFit(tasks, oracles)
  {
    && |records| <= |oracles|
    && (forall k :: 0 <= k < |records| ==> IsTrialRecord(tasks, records[k], oracles[k], k))
    && RunningTotals(records)
  }

  ghost predicate RunningTotals(records: seq<TrialRecord>) {
    forall k :: 0 <= k < |records| ==> records[k].artifact.totalSteps == StepsOfRecords(records[..k + 1])
  }

  ghost predicate IsTrialRecord(tasks: seq<Task>, rec: TrialRecord, oracle: TrialOracle, k: nat) {
    && Fits(tasks, rec.start) && |rec.results| == |tasks|
    && rec.results == oracle.results
    && rec.artifact.trialId == k
    && rec.artifact.subtaskResults == TrialResults(tasks, rec.start, rec.results)
  }

  ghost predicate RunRecorded(tasks: seq<Task>, oracles: seq<TrialOracle>, s: RunState, t: nat)
    requires OraclesFit(tasks, oracles)
  {
    && WellRecorded(tasks, oracles, s.records)
    && s.steps == StepsOfRecords(s.records)
    && |s.records| <= t && (s.stop == None ==> |s.records| == t)
  }

  lemma TrialRecorded(tasks: seq<Task>, oracles: seq<TrialOracle>, s: RunState, t: nat)
    requires OraclesFit(tasks, oracles) && t < |oracles| && Fits(tasks, s.now) && RunRecorded(tasks, oracles, s, t)
    ensures RunRecorded(tasks, oracles, Trial(tasks, s, oracles[t], t), t + 1)
  {
    var s' := Trial(tasks, s, oracles[t], t);
    if s'.records != s.records {
      var rec := s'.records[|s.records|];
      StepsOfAppended(s.records, rec);
      TotalsAppended(s.records, rec);
      RecordAppended(tasks, oracles, s.records, rec);
    }
  }

  lemma {:induction false} RunToRecorded(tasks: seq<Task>, st: Statuses, oracles: seq<TrialOracle>, t: nat)
    requires Fits(tasks, st) && OraclesFit(tasks, oracles) && t <= |oracles|
    ensures RunRecorded(tasks, oracles, RunTo(tasks, st, oracles, t), t)
  {
    if t > 0 {
      RunToRecorded(tasks, st, oracles, t - 1);
      TrialRecorded(tasks, oracles, RunTo(tasks, st, oracles, t - 1), t - 1);
    }
  }

  lemma RecordAppended(tasks: seq<Task>, oracles: seq<TrialOracle>, records: seq<TrialRecord>, rec: TrialRecord)
    requires OraclesFit(tasks, oracles) && |records| < |oracles|
    requires forall k :: 0 <= k < |records| ==> IsTrialRecord(tasks, records[k], oracles[k], k)
    requires IsTrialRecord(tasks, rec, oracles[|records|], |records|)
    requires RunningTotals(records + [rec])
    ensures WellRecorded(tasks, oracles, records + [rec])
  {
    var all := records + [rec];
    forall k | 0 <= k < |all| ensures IsTrialRecord(tasks, all[k], oracles[k], k) {
      assert all[k] == if k < |records| then records[k] else rec;
    }
  }

  lemma TotalsAppended(records: seq<TrialRecord>, rec: TrialRecord)
    requires RunningTotals(records) && rec.artifact.totalSteps == StepsOfRecords(records + [rec])
    ensures RunningTotals(records + [rec])
  {
    var all := records + [rec];
    forall k | 0 <= k < |all| ensures all[k].artifact.totalSteps == StepsOfRecords(all[..k + 1]) {
      assert all[..k + 1] == if k < |records| then records[..k + 1] else all;
    }
  }

  lemma StepsOfAppended(records: seq<TrialRecord>, rec: TrialRecord)
    ensures StepsOfRecords(records + [rec]) == StepsOfRecords(records) + StepsOf(rec.artifact.subtaskResults)
  {
    assert (records + [rec])[..|records|] == records;
  }

  /** Conservation: total_steps is the sum of the steps of every recorded result of
      every recorded trial, and each artifact carries the sum up to its own trial. */
  lemma StepsAreConserved(tasks: seq<Task>, st: Statuses, oracles: seq<TrialOracle>)
    requires Fits(tasks, st) && OraclesFit(tasks, oracles)
    ensures var run := Run(tasks, st, oracles);
      && run.steps == StepsOfRecords(run.records)
      && WellRecorded(tasks, oracles, run.records)
  {
    RunToRecorded(tasks, st, oracles, |oracles|);
  }

  /** Every subtask the trial ran was started with all its dependencies done. */
  ghost predicate StartsAfterDeps(tasks: seq<Task>, rec: TrialRecord) {
    && Fits(tasks, rec.start) && |rec.results| == |tasks|
    && var ok := Oks(rec.results);
      forall b, k :: 0 <= b < |Batches(tasks, rec.start, ok)| && 0 <= k < |Batches(tasks, rec.start, ok)[b]| ==>
        var i := Batches(tasks, rec.start, ok)[b][k];
        i < |tasks| && DepsWithin(tasks[i], DoneIds(tasks, Stage(tasks, rec.start, ok, b)))
  }

  lemma TrialStartsAfterDeps(tasks: seq<Task>, rec: TrialRecord)
    requires Fits(tasks, rec.start) && |rec.results| == |tasks|
    ensures StartsAfterDeps(tasks, rec)
  {
    hide Batches, Stage, DoneIds, DepsWithin;
    var ok := Oks(rec.results);
    forall b, k | 0 <= b < |Batches(tasks, rec.start, ok)| && 0 <= k < |Batches(tasks, rec.start, ok)[b]|
      ensures Batches(tasks, rec.start, ok)[b][k] < |tasks|
      ensures DepsWithin(tasks[Batches(tasks, rec.start, ok)[b][k]], DoneIds(tasks, Stage(tasks, rec.start, ok, b)))
    {
      StartsWithDepsDone(tasks, rec.start, ok, b, k);
    }
  }

  lemma TrialRecordsStart(tasks: seq<Task>, s: RunState, oracle: TrialOracle, t: nat)
    requires Fits(tasks, s.now) && |oracle.results| == |tasks|
    ensures var s' := Trial(tasks, s, oracle, t);
      || s'.records == s.records
      || (s.stop == None && |s'.records| == |s.records| + 1 && s.records <= s'.records &&
        s'.records[|s.records|].start == s.now)
  {
    hide TrialEnd, TrialResults, Reset, Ready, AllDone, Oks, StepsOf;
  }

  /** Each record says in which state of the run its trial began. */
  lemma {:induction false} StartsAreRunStates(tasks: seq<Task>, st: Statuses, oracles: seq<TrialOracle>, t: nat, r: nat)
    requires Fits(tasks, st) && OraclesFit(tasks, oracles) && t <= |oracles|
    ensures r < |RunTo(tasks, st, oracles, t).records| ==>
      r < t && RunTo(tasks, st, oracles, t).records[r].start == RunTo(tasks, st, oracles, r).now
  {
    hide Trial, WellRecorded, StepsOfRecords;
    if t > 0 {
      var before := RunTo(tasks, st, oracles, t - 1);
      RunToRecorded(tasks, st, oracles, t - 1);
      TrialRecordsStart(tasks, before, oracles[t - 1], t - 1);
      if r < |before.records| { StartsAreRunStates(tasks, st, oracles, t - 1, r); }
    }
  }

  /** Whole-run safety: every trial begins in the state the run was in, and in it a
      subtask starts only when all its dependencies are done. */
  lemma RunStartsWithDepsDone(tasks: seq<Task>, st: Statuses, oracles: seq<TrialOracle>)
    requires Fits(tasks, st) && OraclesFit(tasks, oracles)
    ensures var records := Run(tasks, st, oracles).records;
      && |records| <= |oracles|
      && forall r :: 0 <= r < |records| ==>
           records[r].start == RunTo(tasks, st, oracles, r).now && StartsAfterDeps(tasks, records[r])
  {
    hide StartsAfterDeps, Trial;
    RunToRecorded(tasks, st, oracles, |oracles|);
    var records := Run(tasks, st, oracles).records;
    forall r | 0 <= r < |records|
      ensures records[r].start == RunTo(tasks, st, oracles, r).now && StartsAfterDeps(tasks, records[r])
    {
      assert IsTrialRecord(tasks, records[r], oracles[r], r);
      TrialStartsAfterDeps(tasks, records[r]);
      StartsAreRunStates(tasks, st, oracles, |oracles|, r);
    }
  }

  lemma {:induction false} ExecutionsPerTrial(tasks: seq<Task>, records: seq<TrialRecord>)
    requires forall k :: 0 <= k < |records| ==> Fits(tasks, records[k].start) && |records[k].results| == |tasks|
    ensures Executions(tasks, records) <= |records| * |tasks|
  {
    if records != [] {
      var last := records[|records| - 1];
      ExecutionsPerTrial(tasks, records[..|records| - 1]);
      TrialRunsAtMostPending(tasks, last.start, Oks(last.results));
      assert (|records| - 1) * |tasks| + |tasks| == |records| * |tasks|;
    }
  }

  /** A run executes at most max_trials times as many subtasks as there are nodes. */
  lemma {:induction false} ExecutionsBounded(tasks: seq<Task>, st: Statuses, oracles: seq<TrialOracle>)
    requires Fits(tasks, st) && OraclesFit(tasks, oracles)
    ensures var records := Run(tasks, st, oracles).records;
      && (forall k :: 0 <= k < |records| ==> Fits(tasks, records[k].start) && |records[k].results| == |tasks|)
      && Executions(tasks, records) <= |oracles| * |tasks|
  {
    RunToRecorded(tasks, st, oracles, |oracles|);
    var records := Run(tasks, st, oracles).records;
    ExecutionsPerTrial(tasks, records);
    MulMonotone(|records|, |oracles|, |tasks|);
  }

  lemma MulMonotone(a: nat, b: nat, c: nat)
    requires a <= b
    ensures a * c <= b * c
  {
  }

  /** The batches one after the other. */
  ghost function InOrder(bs: seq<seq<nat>>): seq<nat> {
    if bs == [] then [] else bs[0] + InOrder(bs[1..])
  }

  lemma ExecutedAre(tasks: seq<Task>, st: Statuses, ok: seq<bool>)
    requires Fits(tasks, st) && |ok| == |st| && Ready(tasks, st) != []
    ensures InOrder(Batches(tasks, st, ok)) ==
      Ready(tasks, st) + InOrder(Batches(tasks, After(st, ReadySet(tasks, st), ok), ok))
  {
    hide Ready, ReadySet, After;
    var bs := Batches(tasks, st, ok);
    assert bs[1..] == Batches(tasks, After(st, ReadySet(tasks, st), ok), ok);
  }

  /** A trial's results are those of the subtasks it executes, in the order of the batches. */
  lemma {:induction false} ResultsAreExecutions(tasks: seq<Task>, st: Statuses, results: seq<SubtaskResult>)
    requires Fits(tasks, st) && |results| == |tasks|
    ensures var order := InOrder(Batches(tasks, st, Oks(results)));
      && |TrialResults(tasks, st, results)| == |order|
      && forall k :: 0 <= k < |order| ==>
           order[k] < |results| && TrialResults(tasks, st, results)[k] == results[order[k]]
    decreases PendingSet(st)
  {
    hide Ready, ReadySet, After, Batches, PendingSet, Oks;
    if Ready(tasks, st) != [] {
      BatchShrinksPending(tasks, st, Oks(results));
      ExecutedAre(tasks, st, Oks(results));
      ReadyFits(tasks, st);
      ResultsAreExecutions(tasks, After(st, ReadySet(tasks, st), Oks(results)), results);
    } else {
      NothingExecuted(tasks, st, Oks(results));
    }
  }

  lemma ReadyFits(tasks: seq<Task>, st: Statuses)
    requires Fits(tasks, st)
    ensures forall k :: 0 <= k < |Ready(tasks, st)| ==> Ready(tasks, st)[k] < |tasks|
  {
  }

  lemma NothingExecuted(tasks: seq<Task>, st: Statuses, ok: seq<bool>)
    requires Fits(tasks, st) && |ok| == |st| && Ready(tasks, st) == []
    ensures InOrder(Batches(tasks, st, ok)) == []
  {
  }

  /** A trial returns one result for each subtask it executes. */
  lemma {:induction false} OneResultPerExecution(tasks: seq<Task>, st: Statuses, results: seq<SubtaskResult>)
    requires Fits(tasks, st) && |results| == |tasks|
    ensures |TrialResults(tasks, st, results)| == Total(Batches(tasks, st, Oks(results)))
    decreases PendingSet(st)
  {
    if Ready(tasks, st) != [] {
      BatchShrinksPending(tasks, st, Oks(results));
      var st' := After(st, ReadySet(tasks, st), Oks(results));
      OneResultPerExecution(tasks, st', results);
      assert Batches(tasks, st, Oks(results))[1..] == Batches(tasks, st', Oks(results));
    }
  }

  // ---------- what the verdicts do ----------

  /** Every dependency of a done subtask is done. */
  ghost predicate DoneClosed(tasks: seq<Task>, st: Statuses)
    requires Fits(tasks, st)
  {
    forall i :: 0 <= i < |tasks| && st[i] == Done ==> DepsWithin(tasks[i], DoneIds(tasks, st))
  }

  lemma {:induction false} TrialKeepsDoneClosed(tasks: seq<Task>, st: Statuses, ok: seq<bool>)
    requires Fits(tasks, st) && |ok| == |st| && DoneClosed(tasks, st)
    ensures DoneClosed(tasks, TrialEnd(tasks, st, ok))
    ensures DoneSet(st) <= DoneSet(TrialEnd(tasks, st, ok))
  {
    BatchesAreStages(tasks, st, ok);
    StageExplains(tasks, st, ok, |Batches(tasks, st, ok)|);
    var end := TrialEnd(tasks, st, ok);
    assert DoneIds(tasks, st) <= DoneIds(tasks, end) by {
      DoneIdsAreIds(tasks, st);
      DoneIdsAreIds(tasks, end);
      assert DoneSet(st) <= DoneSet(end);
    }
  }

  lemma ReplanRemovesIds(tasks: seq<Task>, st: Statuses, failed: seq<string>)
    requires Fits(tasks, st)
    ensures DoneIds(tasks, Replanned(tasks, st, failed)) == set d | d in DoneIds(tasks, st) && d !in failed
  {
    var st' := Replanned(tasks, st, failed);
    forall d | d in DoneIds(tasks, st) && d !in failed ensures d in DoneIds(tasks, st') {
      var i :| 0 <= i < |tasks| && st[i] == Done && tasks[i].id == d;
      assert st'[i] == Done;
    }
  }

  /** A targeted replan does not reset the dependents of what it resets, so it can
      leave a done subtask whose dependency is not done.  It keeps "done is closed
      under dependencies" exactly when no done subtask outside the failed list
      depends on one inside it. */
  lemma ReplanKeepsDoneClosedIff(tasks: seq<Task>, st: Statuses, failed: seq<string>)
    requires Fits(tasks, st) && DoneClosed(tasks, st)
    ensures DoneClosed(tasks, Replanned(tasks, st, failed)) <==>
      forall i, d :: 0 <= i < |tasks| && st[i] == Done && tasks[i].id !in failed && d in tasks[i].deps ==> d !in failed
  {
    ReplanRemovesIds(tasks, st, failed);
    var st' := Replanned(tasks, st, failed);
    if DoneClosed(tasks, st') {
      forall i, d | 0 <= i < |tasks| && st[i] == Done && tasks[i].id !in failed && d in tasks[i].deps
        ensures d !in failed
      {
        assert st'[i] == Done;
        assert d in DoneIds(tasks, st');
      }
    }
    if forall i, d ::
      0 <= i < |tasks| && st[i] == Done && tasks[i].id !in failed && d in tasks[i].deps ==> d !in failed
    {
      forall i | 0 <= i < |tasks| && st'[i] == Done ensures DepsWithin(tasks[i], DoneIds(tasks, st')) {
        assert st[i] == Done && DepsWithin(tasks[i], DoneIds(tasks, st));
      }
    }
  }

  lemma StuckReadyIff(tasks: seq<Task>, end: Statuses, failed: seq<string>, i: nat)
    requires Fits(tasks, end) && Stuck(tasks, end) && i < |tasks|
    ensures IsReady(tasks, Replanned(tasks, end, failed), i) <==>
      tasks[i].id in failed && forall d :: d in tasks[i].deps ==> d in DoneIds(tasks, end) && d !in failed
  {
    ReplanRemovesIds(tasks, end, failed);
    hide DoneIds;
    assert i !in ReadySet(tasks, end);
  }

  lemma SomeReadyIff(tasks: seq<Task>, st: Statuses)
    requires Fits(tasks, st)
    ensures Ready(tasks, st) != [] <==> exists i: nat :: i < |tasks| && IsReady(tasks, st, i)
  {
    hide IsReady;
    if Ready(tasks, st) != [] { assert IsReady(tasks, st, Ready(tasks, st)[0]); }
    if i: nat :| i < |tasks| && IsReady(tasks, st, i) { assert i in Ready(tasks, st); }
  }

  /** After a trial, a partial verdict lets the next one make progress exactly when
      it names some subtask all of whose dependencies stay done. */
  lemma ReplanProgressIff(tasks: seq<Task>, end: Statuses, failed: seq<string>)
    requires Fits(tasks, end) && Stuck(tasks, end)
    ensures Ready(tasks, Replanned(tasks, end, failed)) != [] <==>
      exists i :: 0 <= i < |tasks| && tasks[i].id in failed &&
        forall d :: d in tasks[i].deps ==> d in DoneIds(tasks, end) && d !in failed
  {
    hide IsReady, Ready, DoneIds, Replanned, Stuck;
    var st := Replanned(tasks, end, failed);
    FitsReplanned(tasks, end, failed);
    SomeReadyIff(tasks, st);
    if i: nat :| i < |tasks| && IsReady(tasks, st, i) { StuckReadyIff(tasks, end, failed, i); }
    if i :|
      0 <= i < |tasks| && tasks[i].id in failed &&
      forall d :: d in tasks[i].deps ==> d in DoneIds(tasks, end) && d !in failed
    {
      StuckReadyIff(tasks, end, failed, i);
    }
  }

  lemma FitsReplanned(tasks: seq<Task>, st: Statuses, failed: seq<string>)
    requires Fits(tasks, st)
    ensures Fits(tasks, Replanned(tasks, st, failed))
  {
  }

  /** After a reject on a schedulable graph the next trial never deadlocks. */
  lemma RejectNeverDeadlocks(tasks: seq<Task>, end: Statuses)
    requires Fits(tasks, end) && Schedulable(tasks)
    ensures Ready(tasks, Retried(end)) != [] || AllDone(Retried(end))
  {
    var st := Retried(end);
    if i :| 0 <= i < |st| && st[i] == Pending {
      var rank :| RankedBy(tasks, rank);
      RankedHasReady(tasks, st, rank, i);
      ReadyMembers(tasks, st);
      var j :| j in ReadySet(tasks, st);
      assert j in Ready(tasks, st);
    }
  }

  ghost predicate NoPartial(oracles: seq<TrialOracle>) {
    forall t :: 0 <= t < |oracles| ==> !oracles[t].verdict.Partial?
  }

  /** Not deadlocked, done closed under dependencies, and nothing failed between trials. */
  ghost predicate Healthy(tasks: seq<Task>, s: RunState) {
    && Fits(tasks, s.now)
    && s.stop != Some(Deadlock)
    && DoneClosed(tasks, s.now)
    && (s.stop == None ==> Retried(s.now) == s.now)
  }

  lemma TrialStaysHealthy(tasks: seq<Task>, s: RunState, oracle: TrialOracle, t: nat)
    requires Healthy(tasks, s) && |oracle.results| == |tasks| && Schedulable(tasks) && !oracle.verdict.Partial?
    ensures Healthy(tasks, Trial(tasks, s, oracle, t))
  {
    if s.stop == None {
      RejectNeverDeadlocks(tasks, s.now);
      TrialKeepsDoneClosed(tasks, s.now, Oks(oracle.results));
      RetriedKeepsDone(tasks, TrialEnd(tasks, s.now, Oks(oracle.results)));
    }
  }

  /** On a fresh schedulable graph, a run without partial verdicts never stops in a
      deadlock, and "done is closed under dependencies" holds throughout. */
  lemma {:induction false} WithoutPartialNoDeadlock(tasks: seq<Task>, st: Statuses, oracles: seq<TrialOracle>, t: nat)
    requires Fits(tasks, st) && OraclesFit(tasks, oracles) && t <= |oracles|
    requires Schedulable(tasks) && AllPending(st) && NoPartial(oracles)
    ensures Healthy(tasks, RunTo(tasks, st, oracles, t))
  {
    if t > 0 {
      WithoutPartialNoDeadlock(tasks, st, oracles, t - 1);
      TrialStaysHealthy(tasks, RunTo(tasks, st, oracles, t - 1), oracles[t - 1], t - 1);
    }
  }

  lemma RetriedKeepsDone(tasks: seq<Task>, st: Statuses)
    requires Fits(tasks, st)
    ensures DoneIds(tasks, Retried(st)) == DoneIds(tasks, st)
    ensures DoneClosed(tasks, st) ==> DoneClosed(tasks, Retried(st))
    ensures DoneSet(Retried(st)) == DoneSet(st)
  {
    var st' := Retried(st);
    assert forall i :: 0 <= i < |st| ==> (st'[i] == Done <==> st[i] == Done);
    forall d | d in DoneIds(tasks, st) ensures d in DoneIds(tasks, st') {
      var i :| 0 <= i < |tasks| && st[i] == Done && tasks[i].id == d;
      assert st'[i] == Done;
    }
  }

  lemma TrialKeepsDone(tasks: seq<Task>, s: RunState, oracle: TrialOracle, t: nat)
    requires Fits(tasks, s.now) && |oracle.results| == |tasks| && !oracle.verdict.Partial?
    ensures DoneSet(s.now) <= DoneSet(Trial(tasks, s, oracle, t).now)
  {
    var ok := Oks(oracle.results);
    TrialReachesLeastFixedPoint(tasks, s.now, ok);
    RetriedKeepsDone(tasks, TrialEnd(tasks, s.now, ok));
  }

  /** Without partial verdicts a subtask that is done stays done, so it is never
      executed again in any later trial. */
  lemma {:induction false} WithoutPartialDoneStays(tasks: seq<Task>, st: Statuses, oracles: seq<TrialOracle>, t: nat,
      t': nat)
    requires Fits(tasks, st) && OraclesFit(tasks, oracles) && t <= t' <= |oracles| && NoPartial(oracles)
    ensures DoneSet(RunTo(tasks, st, oracles, t).now) <= DoneSet(RunTo(tasks, st, oracles, t').now)
    decreases t'
  {
    if t < t' {
      WithoutPartialDoneStays(tasks, st, oracles, t, t' - 1);
      TrialKeepsDone(tasks, RunTo(tasks, st, oracles, t' - 1), oracles[t' - 1], t' - 1);
    }
  }

  lemma StartOfRun(tasks: seq<Task>, st: Statuses, oracles: seq<TrialOracle>)
    requires Fits(tasks, st) && OraclesFit(tasks, oracles)
    ensures RunTo(tasks, st, oracles, 0) == RunState(st, [], 0, None)
  {
  }

  lemma NextOfRun(tasks: seq<Task>, st: Statuses, oracles: seq<TrialOracle>, t: nat)
    requires Fits(tasks, st) && OraclesFit(tasks, oracles) && 0 < t <= |oracles|
    ensures RunTo(tasks, st, oracles, t) == Trial(tasks, RunTo(tasks, st, oracles, t - 1), oracles[t - 1], t - 1)
  {
  }

  lemma ReplanNothing(tasks: seq<Task>, st: Statuses)
    requires Fits(tasks, st)
    ensures Replanned(tasks, st, []) == st
  {
  }

  /** A partial verdict sends the next trial into the deadlock exit exactly when the
      graph is not done and the critic names no subtask that could run again. */
  lemma {:induction false} PartialDeadlocksNextIff(tasks: seq<Task>, s: RunState, oracle: TrialOracle,
      next: TrialOracle, t: nat)
    requires Fits(tasks, s.now) && |oracle.results| == |tasks| == |next.results|
    requires s.stop == None && !oracle.timedOut && (Ready(tasks, s.now) != [] || AllDone(s.now))
    requires oracle.verdict.Partial? && !next.timedOut
    ensures var end := TrialEnd(tasks, s.now, Oks(oracle.results));
      var failed := oracle.verdict.failedSubtasks;
      Trial(tasks, Trial(tasks, s, oracle, t), next, t + 1).stop == Some(Deadlock) <==>
        && !AllDone(Replanned(tasks, end, failed))
        && !exists i :: 0 <= i < |tasks| && tasks[i].id in failed &&
             forall d :: d in tasks[i].deps ==> d in DoneIds(tasks, end) && d !in failed
  {
    var end := TrialEnd(tasks, s.now, Oks(oracle.results));
    assert Stuck(tasks, end) by { BatchesAreStages(tasks, s.now, Oks(oracle.results)); }
    ReplanProgressIff(tasks, end, oracle.verdict.failedSubtasks);
    var s1 := AfterPartial(tasks, s, oracle, t);
  }

  lemma AfterPartial(tasks: seq<Task>, s: RunState, oracle: TrialOracle, t: nat) returns (s1: RunState)
    requires Fits(tasks, s.now) && |oracle.results| == |tasks| && oracle.verdict.Partial?
    requires s.stop == None && !oracle.timedOut && (Ready(tasks, s.now) != [] || AllDone(s.now))
    ensures s1 == Trial(tasks, s, oracle, t) && s1.stop == None
    ensures s1.now == Replanned(tasks, TrialEnd(tasks, s.now, Oks(oracle.results)), oracle.verdict.failedSubtasks)
  {
    s1 := Trial(tasks, s, oracle, t);
  }
}
