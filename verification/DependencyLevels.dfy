/** Which batch a subtask lands in, and which graphs run to completion. */
module DependencyLevels {
  import opened DependencyGraph

  ghost predicate AllPending(st: Statuses) {
    forall i :: 0 <= i < |st| ==> st[i] == Pending
  }

  ghost predicate AllSucceed(ok: seq<bool>) {
    forall i :: 0 <= i < |ok| ==> ok[i]
  }

  ghost predicate DepsExist(tasks: seq<Task>) {
    forall i, d :: 0 <= i < |tasks| && d in tasks[i].deps ==> exists j :: 0 <= j < |tasks| && tasks[j].id == d
  }

  /** A dependency chain: each task depends on the one before it. */
  ghost predicate IsChain(tasks: seq<Task>, c: seq<nat>) {
    && |c| > 0
    && c[|c| - 1] < |tasks|
    && (|c| > 1 ==>
         var prefix := c[..|c| - 1];
         IsChain(tasks, prefix) && tasks[c[|c| - 2]].id in tasks[c[|c| - 1]].deps)
  }

  ghost predicate ChainTo(tasks: seq<Task>, c: seq<nat>, i: nat) {
    IsChain(tasks, c) && c[|c| - 1] == i
  }

  ghost predicate ChainsWithin(tasks: seq<Task>, i: nat, n: nat) {
    forall c :: ChainTo(tasks, c, i) ==> |c| <= n
  }

  /** i is at level b: its longest chain has b dependencies before it. */
  ghost predicate AtLevel(tasks: seq<Task>, i: nat, b: nat) {
    ChainsWithin(tasks, i, b + 1) && exists c :: ChainTo(tasks, c, i) && |c| == b + 1
  }

  lemma ShorterChain(tasks: seq<Task>, c: seq<nat>, i: nat)
    requires ChainTo(tasks, c, i) && |c| > 1
    ensures ChainTo(tasks, c[..|c| - 1], c[|c| - 2]) && tasks[c[|c| - 2]].id in tasks[i].deps
  {
  }

  lemma LongerChain(tasks: seq<Task>, c: seq<nat>, j: nat, i: nat)
    requires ChainTo(tasks, c, j) && i < |tasks| && tasks[j].id in tasks[i].deps
    ensures ChainTo(tasks, c + [i], i)
  {
    assert (c + [i])[..|c|] == c;
  }

  /** One direction of the level invariant: a done task has only short chains. */
  lemma {:induction false} DoneHasShortChains(tasks: seq<Task>, st: Statuses, ok: seq<bool>, b: nat, i: nat)
    requires Fits(tasks, st) && |ok| == |st| && UniqueIds(tasks) && AllPending(st) && i < |tasks|
    requires Stage(tasks, st, ok, b)[i] == Done
    ensures ChainsWithin(tasks, i, b)
    decreases b
  {
    var prev := Stage(tasks, st, ok, b - 1);
    forall c | ChainTo(tasks, c, i) ensures |c| <= b {
      if prev[i] == Done {
        DoneHasShortChains(tasks, st, ok, b - 1, i);
      } else if |c| > 1 {
        assert i in ReadySet(tasks, prev);
        ShorterChain(tasks, c, i);
        var j := c[|c| - 2];
        assert tasks[j].id in DoneIds(tasks, prev);
        assert prev[j] == Done;
        DoneHasShortChains(tasks, st, ok, b - 1, j);
        assert |c[..|c| - 1]| <= b - 1;
      }
    }
  }

  /** Chains into a dependency are shorter than chains into its dependent. */
  lemma DependencyChainsShorter(tasks: seq<Task>, i: nat, j: nat, b: nat)
    requires i < |tasks| && j < |tasks| && tasks[j].id in tasks[i].deps
    requires ChainsWithin(tasks, i, b + 1)
    ensures ChainsWithin(tasks, j, b)
  {
    forall c | ChainTo(tasks, c, j) ensures |c| <= b {
      LongerChain(tasks, c, j, i);
      assert |c + [i]| <= b + 1;
    }
  }

  lemma BoundPositive(tasks: seq<Task>, i: nat, b: nat)
    requires i < |tasks| && ChainsWithin(tasks, i, b)
    ensures b > 0
  {
    assert ChainTo(tasks, [i], i);
  }

  /** The other: short chains make a task done in time. */
  lemma {:induction false} ShortChainsGetDone(tasks: seq<Task>, st: Statuses, ok: seq<bool>, b: nat, i: nat)
    requires Fits(tasks, st) && |ok| == |st| && AllPending(st) && AllSucceed(ok) && DepsExist(tasks) && i < |tasks|
    requires ChainsWithin(tasks, i, b)
    ensures Stage(tasks, st, ok, b)[i] == Done
    decreases b
  {
    BoundPositive(tasks, i, b);
    var p: nat := b - 1;
    forall j: nat | j < |tasks| && tasks[j].id in tasks[i].deps ensures Stage(tasks, st, ok, p)[j] == Done {
      DependencyChainsShorter(tasks, i, j, p);
      ShortChainsGetDone(tasks, st, ok, p, j);
    }
    AllProvidersDone(tasks, Stage(tasks, st, ok, p), i);
    DepsDoneGetsDone(tasks, st, ok, p, i);
  }

  lemma AllProvidersDone(tasks: seq<Task>, at: Statuses, i: nat)
    requires Fits(tasks, at) && DepsExist(tasks) && i < |tasks|
    requires forall j: nat :: j < |tasks| && tasks[j].id in tasks[i].deps ==> at[j] == Done
    ensures DepsWithin(tasks[i], DoneIds(tasks, at))
  {
    forall d | d in tasks[i].deps ensures d in DoneIds(tasks, at) {
      var j :| 0 <= j < |tasks| && tasks[j].id == d;
      assert at[j] == Done;
    }
  }

  lemma DepsDoneGetsDone(tasks: seq<Task>, st: Statuses, ok: seq<bool>, b: nat, i: nat)
    requires Fits(tasks, st) && |ok| == |st| && AllPending(st) && AllSucceed(ok) && i < |tasks|
    requires DepsWithin(tasks[i], DoneIds(tasks, Stage(tasks, st, ok, b)))
    ensures Stage(tasks, st, ok, b + 1)[i] == Done
  {
    StageExplains(tasks, st, ok, b);
    var at := Stage(tasks, st, ok, b);
    if at[i] == Pending { RunsAt(tasks, st, ok, b, i); } else { StageKeeps(tasks, st, ok, b, b + 1, i); }
  }

  /** Level theorem: with unique ids, existing dependencies and no failure, batch b
      runs exactly the tasks whose longest dependency chain has length b. */
  lemma BatchIsLevel(tasks: seq<Task>, st: Statuses, ok: seq<bool>, b: nat, i: nat)
    requires Fits(tasks, st) && |ok| == |st| && UniqueIds(tasks) && DepsExist(tasks)
    requires AllPending(st) && AllSucceed(ok)
    requires b < |Batches(tasks, st, ok)| && i < |tasks|
    ensures i in Batches(tasks, st, ok)[b] <==> AtLevel(tasks, i, b)
  {
    BatchesAreStages(tasks, st, ok);
    var at := Stage(tasks, st, ok, b);
    StageExplains(tasks, st, ok, b);
    assert i in Batches(tasks, st, ok)[b] <==> i in ReadySet(tasks, at) by { ReadyMembers(tasks, at); }
    if i in ReadySet(tasks, at) {
      RunsAt(tasks, st, ok, b, i);
      DoneHasShortChains(tasks, st, ok, b + 1, i);
      if ChainsWithin(tasks, i, b) {
        ShortChainsGetDone(tasks, st, ok, b, i);
        assert false;
      }
      var c :| ChainTo(tasks, c, i) && |c| > b;
      assert |c| == b + 1;
    }
    if AtLevel(tasks, i, b) {
      ShortChainsGetDone(tasks, st, ok, b + 1, i);
      if at[i] == Done {
        DoneHasShortChains(tasks, st, ok, b, i);
        assert false;
      }
    }
  }

  lemma BoundedChainsAllDone(tasks: seq<Task>, st: Statuses, ok: seq<bool>, bound: nat, i: nat)
    requires Fits(tasks, st) && |ok| == |st| && DepsExist(tasks) && AllPending(st) && AllSucceed(ok)
    requires ChainsWithin(tasks, i, bound) && i < |tasks|
    ensures TrialEnd(tasks, st, ok)[i] == Done
  {
    hide Stage, Batches, TrialEnd, ChainsWithin, DepsExist, AllSucceed;
    BatchesAreStages(tasks, st, ok);
    var n := |Batches(tasks, st, ok)|;
    ShortChainsGetDone(tasks, st, ok, bound, i);
    StageKeeps(tasks, st, ok, bound, n + bound, i);
    StuckStays(tasks, st, ok, n, n + bound);
  }

  /** ... and the loop needs exactly as many batches as the longest chain has tasks,
      if chains are bounded at all; then everything is done. */
  lemma {:induction false} LongestChainIsBatchCount(tasks: seq<Task>, st: Statuses, ok: seq<bool>, bound: nat)
    requires Fits(tasks, st) && |ok| == |st| && UniqueIds(tasks) && DepsExist(tasks)
    requires AllPending(st) && AllSucceed(ok)
    requires forall i :: 0 <= i < |tasks| ==> ChainsWithin(tasks, i, bound)
    ensures AllDone(TrialEnd(tasks, st, ok))
    ensures forall i :: 0 <= i < |tasks| ==> ChainsWithin(tasks, i, |Batches(tasks, st, ok)|)
    ensures var n := |Batches(tasks, st, ok)|; n > 0 ==> SomeAtLevel(tasks, n - 1)
  {
    BatchesAreStages(tasks, st, ok);
    var n := |Batches(tasks, st, ok)|;
    forall i | 0 <= i < |tasks|
      ensures TrialEnd(tasks, st, ok)[i] == Done && ChainsWithin(tasks, i, n)
    {
      BoundedChainsAllDone(tasks, st, ok, bound, i);
      DoneHasShortChains(tasks, st, ok, n, i);
    }
    if n > 0 { LastBatchHasLevel(tasks, st, ok); }
  }

  ghost predicate SomeAtLevel(tasks: seq<Task>, b: nat) {
    exists i: nat | i < |tasks| :: AtLevel(tasks, i, b)
  }

  lemma LastBatchHasLevel(tasks: seq<Task>, st: Statuses, ok: seq<bool>)
    requires Fits(tasks, st) && |ok| == |st| && UniqueIds(tasks) && DepsExist(tasks)
    requires AllPending(st) && AllSucceed(ok) && Batches(tasks, st, ok) != []
    ensures SomeAtLevel(tasks, |Batches(tasks, st, ok)| - 1)
  {
    var b := |Batches(tasks, st, ok)| - 1;
    var i := BatchMember(tasks, st, ok, b);
    BatchIsLevel(tasks, st, ok, b, i);
  }

  lemma BatchMember(tasks: seq<Task>, st: Statuses, ok: seq<bool>, b: nat) returns (i: nat)
    requires Fits(tasks, st) && |ok| == |st| && b < |Batches(tasks, st, ok)|
    ensures i < |tasks| && i in Batches(tasks, st, ok)[b]
  {
    BatchesAreStages(tasks, st, ok);
    i := Batches(tasks, st, ok)[b][0];
  }

  lemma {:induction false} StuckStays(tasks: seq<Task>, st: Statuses, ok: seq<bool>, n: nat, m: nat)
    requires Fits(tasks, st) && |ok| == |st| && n <= m
    requires Stuck(tasks, Stage(tasks, st, ok, n))
    ensures Stage(tasks, st, ok, m) == Stage(tasks, st, ok, n)
    decreases m - n
  {
    if n < m {
      StuckStays(tasks, st, ok, n, m - 1);
      var prev := Stage(tasks, st, ok, m - 1);
      assert ReadySet(tasks, prev) == {};
      assert After(prev, {}, ok) == prev;
    }
  }

  // ---------- which graphs complete ----------

  /** Every dependency is provided by some task of smaller rank: no cycle, no
      missing dependency.  Duplicate ids are allowed. */
  ghost predicate RankedBy(tasks: seq<Task>, rank: seq<nat>) {
    && |rank| == |tasks|
    && forall i, d :: 0 <= i < |tasks| && d in tasks[i].deps ==> Provided(tasks, rank, d, rank[i])
  }

  ghost predicate Provided(tasks: seq<Task>, rank: seq<nat>, d: string, below: nat)
    requires |rank| == |tasks|
  {
    exists j :: 0 <= j < |tasks| && tasks[j].id == d && rank[j] < below
  }

  ghost predicate Schedulable(tasks: seq<Task>) {
    exists rank :: RankedBy(tasks, rank)
  }

  /** A ranking bounds every dependency chain. */
  lemma {:induction false} RankBoundsChains(tasks: seq<Task>, rank: seq<nat>, c: seq<nat>, i: nat)
    requires UniqueIds(tasks) && RankedBy(tasks, rank) && ChainTo(tasks, c, i)
    ensures |c| <= rank[i] + 1
    decreases |c|
  {
    if |c| > 1 {
      ShorterChain(tasks, c, i);
      var d := c[|c| - 2];
      RankBoundsChains(tasks, rank, c[..|c| - 1], d);
      assert Provided(tasks, rank, tasks[d].id, rank[i]);
    }
  }

  lemma RankBound(rank: seq<nat>) returns (bound: nat)
    ensures forall i :: 0 <= i < |rank| ==> rank[i] < bound
  {
    bound := 0;
    for n := 0 to |rank|
      invariant forall i :: 0 <= i < n ==> rank[i] < bound
    {
      bound := if rank[n] < bound then bound else rank[n] + 1;
    }
  }

  /** Level theorem for schedulable graphs: with unique ids and no failure, all is done
      after exactly as many batches as the longest chain has tasks, and batch b is level b. */
  lemma SchedulableRunsByLevel(tasks: seq<Task>, st: Statuses, ok: seq<bool>)
    requires Fits(tasks, st) && |ok| == |st| && UniqueIds(tasks) && Schedulable(tasks)
    requires AllPending(st) && AllSucceed(ok)
    ensures AllDone(TrialEnd(tasks, st, ok))
    ensures forall i :: 0 <= i < |tasks| ==> ChainsWithin(tasks, i, |Batches(tasks, st, ok)|)
    ensures var n := |Batches(tasks, st, ok)|; n > 0 ==> SomeAtLevel(tasks, n - 1)
    ensures forall b, i: nat :: 0 <= b < |Batches(tasks, st, ok)| && i < |tasks| ==>
      (i in Batches(tasks, st, ok)[b] <==> AtLevel(tasks, i, b))
  {
    hide Batches, TrialEnd, AtLevel, AllPending, AllSucceed, UniqueIds, SomeAtLevel;
    var rank :| RankedBy(tasks, rank);
    var bound := RankBound(rank);
    assert DepsExist(tasks);
    forall i: nat | i < |tasks| ensures ChainsWithin(tasks, i, bound) {
      forall c | ChainTo(tasks, c, i) ensures |c| <= bound { RankBoundsChains(tasks, rank, c, i); }
    }
    LongestChainIsBatchCount(tasks, st, ok, bound);
    forall b, i: nat | 0 <= b < |Batches(tasks, st, ok)| && i < |tasks|
      ensures i in Batches(tasks, st, ok)[b] <==> AtLevel(tasks, i, b)
    {
      BatchIsLevel(tasks, st, ok, b, i);
    }
  }

  /** In a schedulable graph with only done and pending tasks, something is ready
      unless everything is done. */
  lemma {:induction false} RankedHasReady(tasks: seq<Task>, st: Statuses, rank: seq<nat>, i: nat)
    requires Fits(tasks, st) && RankedBy(tasks, rank) && i < |tasks| && st[i] == Pending
    requires forall j :: 0 <= j < |tasks| ==> st[j] == Done || st[j] == Pending
    ensures !Stuck(tasks, st)
    decreases rank[i]
  {
    if IsReady(tasks, st, i) {
      assert i in ReadySet(tasks, st);
    } else {
      var d :| d in tasks[i].deps && d !in DoneIds(tasks, st);
      assert Provided(tasks, rank, d, rank[i]);
      var j :| 0 <= j < |tasks| && tasks[j].id == d && rank[j] < rank[i];
      RankedHasReady(tasks, st, rank, j);
    }
  }

  /** The stage at which each task got done ranks the graph. */
  lemma {:induction false} StageRanks(tasks: seq<Task>, st: Statuses, ok: seq<bool>, b: nat) returns (rank: seq<nat>)
    requires Fits(tasks, st) && |ok| == |st| && AllPending(st)
    ensures |rank| == |tasks|
    ensures var at := Stage(tasks, st, ok, b);
      forall i :: 0 <= i < |tasks| ==> if at[i] == Done then rank[i] <= b else rank[i] == b + 1
    ensures var at := Stage(tasks, st, ok, b);
      forall i, d :: 0 <= i < |tasks| && at[i] == Done && d in tasks[i].deps ==> Provided(tasks, rank, d, rank[i])
  {
    if b == 0 {
      rank := seq(|tasks|, _ => 1);
    } else {
      var r := StageRanks(tasks, st, ok, b - 1);
      var prev, at := Stage(tasks, st, ok, b - 1), Stage(tasks, st, ok, b);
      rank := seq(|tasks|, i requires 0 <= i < |tasks| =>
        if prev[i] == Done then r[i] else if at[i] == Done then b else b + 1);
      AfterKeepsDone(tasks, prev, ok, ReadySet(tasks, prev));
      forall i | 0 <= i < |tasks| && prev[i] == Done ensures at[i] == Done {
        assert i in DoneSet(prev);
      }
      forall i, d | 0 <= i < |tasks| && at[i] == Done && d in tasks[i].deps
        ensures Provided(tasks, rank, d, rank[i])
      {
        if prev[i] == Done {
          assert Provided(tasks, r, d, r[i]);
          var j :| 0 <= j < |tasks| && tasks[j].id == d && r[j] < r[i];
          assert prev[j] == Done;
        } else {
          assert i in ReadySet(tasks, prev);
          assert d in DoneIds(tasks, prev);
          var j :| 0 <= j < |tasks| && prev[j] == Done && tasks[j].id == d;
        }
      }
    }
  }

  /** Completion theorem: with no failure, a fresh trial finishes every subtask if
      and only if the graph is schedulable. */
  lemma {:induction false} CompletesIffSchedulable(tasks: seq<Task>, st: Statuses, ok: seq<bool>)
    requires Fits(tasks, st) && |ok| == |st| && AllPending(st) && AllSucceed(ok)
    ensures AllDone(TrialEnd(tasks, st, ok)) <==> Schedulable(tasks)
  {
    BatchesAreStages(tasks, st, ok);
    var n := |Batches(tasks, st, ok)|;
    var end := TrialEnd(tasks, st, ok);
    StageExplains(tasks, st, ok, n);
    if AllDone(end) {
      var rank := StageRanks(tasks, st, ok, n);
      assert RankedBy(tasks, rank);
    }
    if rank :| RankedBy(tasks, rank) {
      forall i | 0 <= i < |tasks| ensures end[i] == Done {
        if end[i] == Pending { RankedHasReady(tasks, end, rank, i); }
      }
    }
  }
}
