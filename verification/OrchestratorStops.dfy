/** When a run of the orchestrator ends, and why. */
module OrchestratorStops {
  import opened Options
  import opened DependencyGraph
  import opened Orchestrator
  import opened OrchestratorRuns

  /** Something to run, or nothing left to do. */
  ghost predicate CanGoOn(tasks: seq<Task>, st: Statuses)
    requires Fits(tasks, st)
  {
    ReadySet(tasks, st) != {} || forall i :: 0 <= i < |st| ==> st[i] == Done || st[i] == Skipped
  }

  /** The exits of one trial.  It is executed, and recorded, unless the time is up or there is
      a deadlock; of the executed ones only a pass ends the run, and leaves the statuses as
      the trial ended; any other verdict resets them and the run goes on. */
  lemma TrialExits(tasks: seq<Task>, s: RunState, oracle: TrialOracle, t: nat)
    requires Fits(tasks, s.now) && |oracle.results| == |tasks| && s.stop == None
    ensures var s' := Trial(tasks, s, oracle, t);
      var executed := !oracle.timedOut && CanGoOn(tasks, s.now);
      var end := TrialEnd(tasks, s.now, Oks(oracle.results));
      && (s'.stop == Some(GlobalTimeout) <==> oracle.timedOut)
      && (s'.stop == Some(Deadlock) <==> !oracle.timedOut && !CanGoOn(tasks, s.now))
      && (s'.stop == Some(Passed) <==> executed && oracle.verdict == Pass)
      && (s'.stop == None <==> executed && oracle.verdict != Pass)
      && |s'.records| == |s.records| + (if executed then 1 else 0) && s.records <= s'.records
      && (!executed ==> s'.now == s.now)
      && (s'.stop == Some(Passed) ==> s'.now == end)
      && (executed && oracle.verdict == Reject ==> s'.now == Retried(end))
      && (executed && oracle.verdict.Partial? ==> s'.now == Replanned(tasks, end, oracle.verdict.failedSubtasks))
  {
    hide Ready, TrialEnd, TrialResults, Oks, StepsOf, Retried, Replanned, ReadySet;
    NothingReady(tasks, s.now);
  }

  /** The executed trials were all in time, and all but perhaps the last had another verdict
      than pass. */
  ghost predicate Executed(oracles: seq<TrialOracle>, n: nat) {
    && n <= |oracles|
    && (forall k :: 0 <= k < n ==> !oracles[k].timedOut)
    && (forall k :: 0 <= k < n - 1 ==> oracles[k].verdict != Pass)
  }

  /** The reason to stop, read off the oracles, the number n of trials executed of t, and the
      statuses they left. */
  ghost predicate StopIs(tasks: seq<Task>, oracles: seq<TrialOracle>, s: RunState, t: nat)
    requires Fits(tasks, s.now) && t <= |oracles|
  {
    var n := |s.records|;
    && n <= t && Executed(oracles, n)
    && var passed := n > 0 && oracles[n - 1].verdict == Pass;
    && (s.stop == Some(Passed) <==> passed)
    && (s.stop == Some(GlobalTimeout) <==> !passed && n < t && oracles[n].timedOut)
    && (s.stop == Some(Deadlock) <==> !passed && n < t && !oracles[n].timedOut)
    && (s.stop == Some(Deadlock) ==> !CanGoOn(tasks, s.now))
    && (s.stop == None ==> n == t)
  }

  lemma Reasons(stop: Option<Stop>)
    ensures stop == None || stop == Some(GlobalTimeout) || stop == Some(Deadlock) || stop == Some(Passed)
  {
    assert stop == None || stop.value.GlobalTimeout? || stop.value.Deadlock? || stop.value.Passed?;
  }

  lemma StopOfNext(tasks: seq<Task>, oracles: seq<TrialOracle>, s: RunState, t: nat)
    requires OraclesFit(tasks, oracles) && t < |oracles| && Fits(tasks, s.now) && StopIs(tasks, oracles, s, t)
    ensures StopIs(tasks, oracles, Trial(tasks, s, oracles[t], t), t + 1)
  {
    hide CanGoOn, TrialEnd, Oks, Retried, Replanned;
    if s.stop == None {
      hide Trial;
      TrialExits(tasks, s, oracles[t], t);
    } else {
      Reasons(s.stop);
    }
  }

  lemma {:induction false} StopOfPrefix(tasks: seq<Task>, st: Statuses, oracles: seq<TrialOracle>, t: nat)
    requires Fits(tasks, st) && OraclesFit(tasks, oracles) && t <= |oracles|
    ensures StopIs(tasks, oracles, RunTo(tasks, st, oracles, t), t)
  {
    hide StopIs, Trial;
    if t == 0 {
      StopOfNone(tasks, st, oracles);
    } else {
      StopOfPrefix(tasks, st, oracles, t - 1);
      StopOfNext(tasks, oracles, RunTo(tasks, st, oracles, t - 1), t - 1);
    }
  }

  lemma StopOfNone(tasks: seq<Task>, st: Statuses, oracles: seq<TrialOracle>)
    requires Fits(tasks, st) && OraclesFit(tasks, oracles)
    ensures StopIs(tasks, oracles, RunTo(tasks, st, oracles, 0), 0)
  {
  }

  /** Why a run stops.  It passes exactly when its last executed trial was passed, and no
      trial before it was; otherwise every executed trial is followed by another one, unless
      the trials are used up, the time is up, or nothing is ready and not all is done. */
  lemma RunStops(tasks: seq<Task>, st: Statuses, oracles: seq<TrialOracle>)
    requires Fits(tasks, st) && OraclesFit(tasks, oracles)
    ensures var r := Run(tasks, st, oracles);
      var n := |r.records|;
      && Executed(oracles, n)
      && (r.stop == Some(Passed) <==> n > 0 && oracles[n - 1].verdict == Pass)
      && (r.stop == None <==> n == |oracles| && (n > 0 ==> oracles[n - 1].verdict != Pass))
      && (r.stop == Some(GlobalTimeout) <==>
            n < |oracles| && (n > 0 ==> oracles[n - 1].verdict != Pass) && oracles[n].timedOut)
      && (r.stop == Some(Deadlock) <==>
            n < |oracles| && (n > 0 ==> oracles[n - 1].verdict != Pass) && !oracles[n].timedOut)
      && (r.stop == Some(Deadlock) ==> !CanGoOn(tasks, r.now))
  {
    hide CanGoOn;
    StopOfPrefix(tasks, st, oracles, |oracles|);
    Reasons(Run(tasks, st, oracles).stop);
  }
}
