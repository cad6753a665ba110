/** The rules the critic applies before it asks a model, and runs of the orchestrator with
    verdicts that these rules allow. */
module Critic {
  import opened Options
  import opened DependencyGraph
  import opened DependencyLevels
  import opened Orchestrator
  import opened OrchestratorRuns
  import Text

  /** Finished, with more than ten characters besides white space at the ends. */
  predicate HasContent(r: SubtaskResult) {
    !r.terminated && |Text.Strip(r.content)| > 10
  }

  /** The verdict of the rules, if they are conclusive. */
  function RuleCheck(results: seq<SubtaskResult>): Option<Verdict> {
    if forall i :: 0 <= i < |results| ==> results[i].terminated then Some(Reject)
    else if |results| <= 2 && forall i :: 0 <= i < |results| ==> HasContent(results[i]) then Some(Pass)
    else None
  }

  /** The model is asked, and may say anything, only when the rules are not conclusive. */
  predicate MaySay(results: seq<SubtaskResult>, verdict: Verdict) {
    RuleCheck(results) == None || RuleCheck(results) == Some(verdict)
  }

  /** A partial verdict needs a subtask that was not terminated, and one that was or that
      brought little, or else more than two of them. */
  lemma {:induction false} MaySayPartialIff(results: seq<SubtaskResult>, failed: seq<string>)
    ensures MaySay(results, Partial(failed)) <==>
            && (exists i :: 0 <= i < |results| && !results[i].terminated)
            && (|results| > 2 || exists i :: 0 <= i < |results| && !HasContent(results[i]))
  {
    hide HasContent;
    if (exists i :: 0 <= i < |results| && !results[i].terminated)
       && exists i :: 0 <= i < |results| && !HasContent(results[i]) {
      assert RuleCheck(results) == None;
    }
  }

  /** The rules reject a trial without results or with terminated ones only, and pass one of
      at most two results that are all finished and of more than ten characters. */
  lemma RulesDecideIff(results: seq<SubtaskResult>)
    ensures RuleCheck(results) == Some(Reject) <==> !exists i :: 0 <= i < |results| && !results[i].terminated
    ensures RuleCheck(results) == Some(Pass) <==>
      0 < |results| <= 2 && forall i :: 0 <= i < |results| ==>
        !results[i].terminated && |Text.Strip(results[i].content)| > 10
    ensures forall failed :: RuleCheck(results) != Some(Partial(failed))
  {
    hide Text.Strip;
    assert results != [] && HasContent(results[0]) ==> !results[0].terminated;
  }

  /** So a trial in which every subtask failed is always rejected, and on a schedulable
      graph the next trial can go on. */
  lemma {:induction false} AllFailedGoesOn(tasks: seq<Task>, s: RunState, oracle: TrialOracle, t: nat)
    requires Fits(tasks, s.now) && |oracle.results| == |tasks| && Schedulable(tasks) && s.stop == None
    requires var results := TrialResults(tasks, s.now, oracle.results);
      MaySay(results, oracle.verdict) && forall i :: 0 <= i < |results| ==> results[i].terminated
    ensures var s' := Trial(tasks, s, oracle, t);
      s'.stop == None ==> Ready(tasks, s'.now) != [] || AllDone(s'.now)
  {
    hide Ready, AllDone, TrialEnd, TrialResults, StepsOf, Oks, Schedulable, HasContent;
    RejectNeverDeadlocks(tasks, TrialEnd(tasks, s.now, Oks(oracle.results)));
  }

  // ---------- runs that the rules allow ----------

  lemma ReadyOfTwo(tasks: seq<Task>, st: Statuses)
    requires Fits(tasks, st) && |tasks| == 2
    ensures Ready(tasks, st) ==
      (if IsReady(tasks, st, 0) then [0] else []) + (if IsReady(tasks, st, 1) then [1] else [])
  {
    hide IsReady;
    assert ReadyUpTo(tasks, st, 0) == [];
    assert ReadyUpTo(tasks, st, 1) == ReadyUpTo(tasks, st, 0) + if IsReady(tasks, st, 0) then [0] else [];
    assert ReadyUpTo(tasks, st, 2) == ReadyUpTo(tasks, st, 1) + if IsReady(tasks, st, 1) then [1] else [];
  }

  lemma {:induction false} OneBatch(tasks: seq<Task>, st: Statuses, results: seq<SubtaskResult>, st': Statuses)
    requires Fits(tasks, st) && |results| == |tasks| && Ready(tasks, st) != []
    requires st' == After(st, ReadySet(tasks, st), Oks(results))
    ensures TrialResults(tasks, st, results) == Pick(Ready(tasks, st), results) + TrialResults(tasks, st', results)
    ensures TrialEnd(tasks, st, Oks(results)) == TrialEnd(tasks, st', Oks(results))
  {
    hide Ready, ReadySet, After, Oks, Pick;
  }

  lemma {:induction false} NoBatch(tasks: seq<Task>, st: Statuses, results: seq<SubtaskResult>)
    requires Fits(tasks, st) && |results| == |tasks| && Ready(tasks, st) == []
    ensures TrialResults(tasks, st, results) == [] && TrialEnd(tasks, st, Oks(results)) == st
  {
  }

  /** Two subtasks, a and b, where b has these dependencies. */
  predicate IsPair(tasks: seq<Task>, deps: seq<string>) {
    |tasks| == 2 && tasks[0] == Task("a", []) && tasks[1] == Task("b", deps)
  }

  lemma {:induction false} IndependentTrial(tasks: seq<Task>, st: Statuses, results: seq<SubtaskResult>, end: Statuses)
    requires IsPair(tasks, []) && |results| == 2 && st == [Pending, Pending]
    requires end == [Outcome(!results[0].terminated), Outcome(!results[1].terminated)]
    ensures Ready(tasks, st) == [0, 1] && Ready(tasks, end) == []
    ensures TrialResults(tasks, st, results) == results && TrialEnd(tasks, st, Oks(results)) == end
  {
    hide TrialResults, TrialEnd, Ready;
    ReadyOfTwo(tasks, st);
    ReadyOfTwo(tasks, end);
    assert ReadySet(tasks, st) == {0, 1};
    assert After(st, ReadySet(tasks, st), Oks(results)) == end;
    OneBatch(tasks, st, results, end);
    NoBatch(tasks, end, results);
    assert Pick([0, 1], results) + [] == results;
  }

  /** Of two independent subtasks one succeeds and one is terminated; the rules do not
      decide, and the model says partial without naming a subtask.  The second trial stops in
      a deadlock: nothing is ready, and not all is done. */
  lemma {:induction false} PartialDeadlockHappens(tasks: seq<Task>, st: Statuses, o: TrialOracle, end: Statuses)
    requires IsPair(tasks, []) && st == [Pending, Pending] && end == [Done, Failed]
    requires o ==
      TrialOracle(false, [SubtaskResult("a", "done", 1, false), SubtaskResult("b", "", 1, true)], Partial([]))
    ensures MaySay(TrialResults(tasks, st, o.results), o.verdict)
    ensures RunTo(tasks, st, [o, o], 2).stop == Some(Deadlock)
  {
    hide RunTo, TrialEnd, TrialResults, Ready, StepsOf;
    IndependentTrial(tasks, st, o.results, end);
    MaySayPartialIff(o.results, []);
    assert !HasContent(o.results[1]) && !o.results[0].terminated;
    StartOfRun(tasks, st, [o, o]);
    NextOfRun(tasks, st, [o, o], 1);
    var s1 := RunTo(tasks, st, [o, o], 1);
    assert s1.stop == None && s1.now == end by { ReplanNothing(tasks, end); }
    NextOfRun(tasks, st, [o, o], 2);
    assert !AllDone(end) by { assert end[1] == Failed; }
  }

  lemma ChainedReady(tasks: seq<Task>, st: Statuses)
    requires IsPair(tasks, ["a"]) && |st| == 2
    ensures IsReady(tasks, st, 0) <==> st[0] == Pending
    ensures st[1] != Done ==> (IsReady(tasks, st, 1) <==> st[1] == Pending && st[0] == Done)
    ensures st[0] == Done || st[1] == Done || tasks[0].id !in DoneIds(tasks, st)
  {
    assert "a" in tasks[1].deps;
    if st[0] == Done { assert tasks[0].id in DoneIds(tasks, st); }
  }

  lemma {:induction false} ChainedTrial(tasks: seq<Task>, st: Statuses, results: seq<SubtaskResult>, mid: Statuses,
      end: Statuses)
    requires IsPair(tasks, ["a"]) && |results| == 2 && !results[0].terminated && !results[1].terminated
    requires st == [Pending, Pending] && mid == [Done, Pending] && end == [Done, Done]
    ensures Ready(tasks, st) == [0]
    ensures TrialResults(tasks, st, results) == results && TrialEnd(tasks, st, Oks(results)) == end
  {
    hide TrialResults, TrialEnd, Ready, IsReady;
    ChainedReady(tasks, st);
    ChainedReady(tasks, mid);
    ChainedReady(tasks, end);
    ReadyOfTwo(tasks, st);
    ReadyOfTwo(tasks, mid);
    ReadyOfTwo(tasks, end);
    assert !IsReady(tasks, end, 1) by { NotReadyWhenDone(tasks, end); }
    assert ReadySet(tasks, st) == {0} && ReadySet(tasks, mid) == {1};
    assert After(st, ReadySet(tasks, st), Oks(results)) == mid;
    assert After(mid, ReadySet(tasks, mid), Oks(results)) == end;
    OneBatch(tasks, st, results, mid);
    OneBatch(tasks, mid, results, end);
    NoBatch(tasks, end, results);
    assert Pick([0], results) + (Pick([1], results) + []) == results;
  }

  lemma NotReadyWhenDone(tasks: seq<Task>, st: Statuses)
    requires |tasks| == 2 == |st| && st[1] == Done
    ensures !IsReady(tasks, st, 1)
  {
  }

  /** A subtask and its dependent both succeed, with short answers that the rules do not
      decide on; the model asks for the first one again.  The dependent stays done while its
      dependency is not. */
  lemma {:induction false} ReplanBreaksDoneClosed(tasks: seq<Task>, st: Statuses, o: TrialOracle, mid: Statuses,
      end: Statuses, broken: Statuses)
    requires IsPair(tasks, ["a"]) && st == [Pending, Pending] && broken == [Pending, Done]
    requires mid == [Done, Pending] && end == [Done, Done]
    requires o ==
      TrialOracle(false, [SubtaskResult("a", "1", 1, false), SubtaskResult("b", "2", 1, false)], Partial(["a"]))
    ensures MaySay(TrialResults(tasks, st, o.results), o.verdict)
    ensures RunTo(tasks, st, [o], 1).now == broken
    ensures !DoneClosed(tasks, broken)
  {
    hide RunTo, TrialEnd, TrialResults, Ready, StepsOf;
    ChainedTrial(tasks, st, o.results, mid, end);
    MaySayPartialIff(o.results, ["a"]);
    ShortHasNone(o.results[0]);
    assert !HasContent(o.results[0]) && !o.results[0].terminated;
    StartOfRun(tasks, st, [o]);
    NextOfRun(tasks, st, [o], 1);
    assert Replanned(tasks, end, ["a"]) == broken;
    assert "a" in tasks[1].deps && "a" !in DoneIds(tasks, broken);
  }

  lemma ShortHasNone(r: SubtaskResult)
    requires |r.content| <= 10
    ensures !HasContent(r)
  {
    Text.StripShorter(r.content);
  }
}
