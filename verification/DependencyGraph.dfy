/** The subtask graph of the hybrid planner: which subtasks are ready, and what
    running ready subtasks to exhaustion leaves behind.

    A graph is a list of tasks; its state is the list of their statuses.  Ids are
    plain strings: nothing stops the decomposer from repeating one, from naming
    a dependency that does not exist, or from drawing a cycle. */
module DependencyGraph {

  datatype Status = Pending | Running | Done | Failed | Skipped

  datatype Task = Task(id: string, deps: seq<string>)

  type Statuses = seq<Status>

  predicate Fits(tasks: seq<Task>, st: Statuses) {
    |st| == |tasks|
  }

  ghost predicate UniqueIds(tasks: seq<Task>) {
    forall i, j :: 0 <= i < |tasks| && 0 <= j < |tasks| && tasks[i].id == tasks[j].id ==> i == j
  }

  // ---------- ready_nodes and all_done ----------

  function DoneIds(tasks: seq<Task>, st: Statuses): set<string>
    requires Fits(tasks, st)
  {
    set i | 0 <= i < |tasks| && st[i] == Done :: tasks[i].id
  }

  predicate DepsWithin(task: Task, ids: set<string>) {
    forall d :: d in task.deps ==> d in ids
  }

  predicate IsReady(tasks: seq<Task>, st: Statuses, i: nat)
    requires Fits(tasks, st) && i < |tasks|
  {
    st[i] == Pending && DepsWithin(tasks[i], DoneIds(tasks, st))
  }

  ghost function ReadySet(tasks: seq<Task>, st: Statuses): set<nat>
    requires Fits(tasks, st)
  {
    set i: nat | i < |tasks| && IsReady(tasks, st, i)
  }

  predicate AllDone(st: Statuses) {
    forall i :: 0 <= i < |st| ==> st[i] == Done || st[i] == Skipped
  }

  /** The positions of the ready tasks among the first n, in list order. */
  function ReadyUpTo(tasks: seq<Task>, st: Statuses, n: nat): (r: seq<nat>)
    requires Fits(tasks, st) && n <= |tasks|
    ensures forall k :: 0 <= k < |r| ==> r[k] < n && IsReady(tasks, st, r[k])
    ensures forall i: nat :: i < n && IsReady(tasks, st, i) ==> i in r
    ensures forall j, k :: 0 <= j < k < |r| ==> r[j] < r[k]
  {
    if n == 0 then []
    else ReadyUpTo(tasks, st, n - 1) + (if IsReady(tasks, st, n - 1) then [n - 1] else [])
  }

  function Ready(tasks: seq<Task>, st: Statuses): seq<nat>
    requires Fits(tasks, st)
  {
    ReadyUpTo(tasks, st, |tasks|)
  }

  lemma ReadyMembers(tasks: seq<Task>, st: Statuses)
    requires Fits(tasks, st)
    ensures forall i :: i in Ready(tasks, st) <==> i in ReadySet(tasks, st)
  {
  }

  ghost function PendingSet(st: Statuses): set<nat> {
    set i: nat | i < |st| && st[i] == Pending
  }

  ghost function DoneSet(st: Statuses): set<nat> {
    set i: nat | i < |st| && st[i] == Done
  }

  // ---------- running sets of ready tasks ----------

  /** The status a task ends a batch with: done unless its run was terminated. */
  function Outcome(ok: bool): Status {
    if ok then Done else Failed
  }

  /** All tasks of `who` run, everything else is left alone. */
  ghost function After(st: Statuses, who: set<nat>, ok: seq<bool>): (r: Statuses)
    requires |ok| == |st|
    ensures |r| == |st|
  {
    seq(|st|, i requires 0 <= i < |st| => if i in who then Outcome(ok[i]) else st[i])
  }

  /** A schedule is a list of sets of tasks, each set ready when its turn comes. */
  ghost predicate ValidSchedule(tasks: seq<Task>, st: Statuses, ok: seq<bool>, sched: seq<set<nat>>)
    requires Fits(tasks, st) && |ok| == |st|
    decreases |sched|
  {
    sched == [] ||
    (sched[0] <= ReadySet(tasks, st) && ValidSchedule(tasks, After(st, sched[0], ok), ok, sched[1..]))
  }

  ghost function EndOf(st: Statuses, ok: seq<bool>, sched: seq<set<nat>>): (r: Statuses)
    requires |ok| == |st|
    ensures |r| == |st|
    decreases |sched|
  {
    if sched == [] then st else EndOf(After(st, sched[0], ok), ok, sched[1..])
  }

  ghost predicate Stuck(tasks: seq<Task>, st: Statuses)
    requires Fits(tasks, st)
  {
    ReadySet(tasks, st) == {}
  }

  // ---------- the least fixed point ----------

  ghost function Ids(tasks: seq<Task>, s: set<nat>): set<string> {
    set i | i in s && i < |tasks| :: tasks[i].id
  }

  /** One application of "already done, or pending, succeeding and with every dependency in s". */
  ghost function Derive(tasks: seq<Task>, st: Statuses, ok: seq<bool>, s: set<nat>): set<nat>
    requires Fits(tasks, st) && |ok| == |st|
  {
    set i: nat | i < |tasks| &&
      (st[i] == Done || (st[i] == Pending && ok[i] && DepsWithin(tasks[i], Ids(tasks, s))))
  }

  ghost predicate IsLeastFixedPoint(tasks: seq<Task>, st: Statuses, ok: seq<bool>, d: set<nat>)
    requires Fits(tasks, st) && |ok| == |st|
  {
    && d == Derive(tasks, st, ok, d)
    && forall s: set<nat> :: Derive(tasks, st, ok, s) <= s ==> d <= s
  }

  lemma DoneIdsAreIds(tasks: seq<Task>, st: Statuses)
    requires Fits(tasks, st)
    ensures DoneIds(tasks, st) == Ids(tasks, DoneSet(st))
  {
    forall d | d in DoneIds(tasks, st) ensures d in Ids(tasks, DoneSet(st)) {
      var i :| 0 <= i < |tasks| && st[i] == Done && tasks[i].id == d;
      assert i in DoneSet(st);
    }
  }

  /** What st0 and the outcomes explain about a state reached from it. */
  ghost predicate Explains(tasks: seq<Task>, st0: Statuses, ok: seq<bool>, st: Statuses)
    requires Fits(tasks, st0) && Fits(tasks, st) && |ok| == |st0|
  {
    forall i :: 0 <= i < |tasks| ==>
      if st0[i] != Pending then st[i] == st0[i]
      else st[i] == Pending || (st[i] == Outcome(ok[i]) && DepsWithin(tasks[i], DoneIds(tasks, st)))
  }

  lemma AfterKeepsDone(tasks: seq<Task>, st: Statuses, ok: seq<bool>, who: set<nat>)
    requires Fits(tasks, st) && |ok| == |st| && who <= ReadySet(tasks, st)
    ensures DoneSet(st) <= DoneSet(After(st, who, ok))
    ensures DoneIds(tasks, st) <= DoneIds(tasks, After(st, who, ok))
  {
    var st' := After(st, who, ok);
    forall i | i in DoneSet(st) ensures st'[i] == Done {
      assert i !in ReadySet(tasks, st);
    }
    forall d | d in DoneIds(tasks, st) ensures d in DoneIds(tasks, st') {
      var i :| 0 <= i < |tasks| && st[i] == Done && tasks[i].id == d;
      assert i in DoneSet(st);
    }
  }

  lemma StepExplains(tasks: seq<Task>, st0: Statuses, ok: seq<bool>, st: Statuses, who: set<nat>)
    requires Fits(tasks, st0) && Fits(tasks, st) && |ok| == |st0| && who <= ReadySet(tasks, st)
    requires Explains(tasks, st0, ok, st)
    ensures Explains(tasks, st0, ok, After(st, who, ok))
  {
    AfterKeepsDone(tasks, st, ok, who);
    var st' := After(st, who, ok);
    forall i | 0 <= i < |tasks|
      ensures if st0[i] != Pending then st'[i] == st0[i]
              else st'[i] == Pending || (st'[i] == Outcome(ok[i]) && DepsWithin(tasks[i], DoneIds(tasks, st')))
    {
      if i in who { assert IsReady(tasks, st, i); }
    }
  }

  lemma StepStaysBelow(tasks: seq<Task>, st0: Statuses, ok: seq<bool>, st: Statuses, who: set<nat>, s: set<nat>)
    requires Fits(tasks, st0) && Fits(tasks, st) && |ok| == |st0| && who <= ReadySet(tasks, st)
    requires Explains(tasks, st0, ok, st)
    requires Derive(tasks, st0, ok, s) <= s && DoneSet(st) <= s
    ensures DoneSet(After(st, who, ok)) <= s
  {
    var st' := After(st, who, ok);
    forall i | i in DoneSet(st') ensures i in s {
      if i in who {
        assert IsReady(tasks, st, i);
        DoneIdsAreIds(tasks, st);
        assert Ids(tasks, DoneSet(st)) <= Ids(tasks, s);
        assert i in Derive(tasks, st0, ok, s);
      } else {
        assert i in DoneSet(st);
      }
    }
  }

  lemma {:induction false} ScheduleExplains(tasks: seq<Task>, st0: Statuses, ok: seq<bool>, st: Statuses,
      sched: seq<set<nat>>)
    requires Fits(tasks, st0) && Fits(tasks, st) && |ok| == |st0|
    requires Explains(tasks, st0, ok, st) && ValidSchedule(tasks, st, ok, sched)
    ensures Explains(tasks, st0, ok, EndOf(st, ok, sched))
    decreases |sched|
  {
    if sched != [] {
      StepExplains(tasks, st0, ok, st, sched[0]);
      ScheduleExplains(tasks, st0, ok, After(st, sched[0], ok), sched[1..]);
    }
  }

  lemma {:induction false} ScheduleStaysBelow(tasks: seq<Task>, st0: Statuses, ok: seq<bool>, st: Statuses,
                                              sched: seq<set<nat>>, s: set<nat>)
    requires Fits(tasks, st0) && Fits(tasks, st) && |ok| == |st0|
    requires Explains(tasks, st0, ok, st) && ValidSchedule(tasks, st, ok, sched)
    requires Derive(tasks, st0, ok, s) <= s && DoneSet(st) <= s
    ensures DoneSet(EndOf(st, ok, sched)) <= s
    decreases |sched|
  {
    if sched != [] {
      StepExplains(tasks, st0, ok, st, sched[0]);
      StepStaysBelow(tasks, st0, ok, st, sched[0], s);
      ScheduleStaysBelow(tasks, st0, ok, After(st, sched[0], ok), sched[1..], s);
    }
  }

  lemma StuckIsFixed(tasks: seq<Task>, st0: Statuses, ok: seq<bool>, st: Statuses)
    requires Fits(tasks, st0) && Fits(tasks, st) && |ok| == |st0|
    requires Explains(tasks, st0, ok, st) && Stuck(tasks, st)
    ensures DoneSet(st) == Derive(tasks, st0, ok, DoneSet(st))
    ensures forall i :: 0 <= i < |tasks| && st0[i] == Pending ==>
      (st[i] == Pending <==> !DepsWithin(tasks[i], Ids(tasks, DoneSet(st))))
  {
    DoneIdsAreIds(tasks, st);
    forall i: nat | i < |tasks| && st0[i] == Pending
      ensures st[i] == Pending <==> !DepsWithin(tasks[i], Ids(tasks, DoneSet(st)))
    {
      assert i !in ReadySet(tasks, st);
    }
  }

  /** Fixed-point theorem.  However the ready tasks are scheduled, once nothing is
      ready the done tasks are the least fixed point of "succeeds and every
      dependency is done", and what is left pending is exactly what depends on
      something outside it.  Ids need not be unique, edges need not exist. */
  lemma ScheduleReachesLeastFixedPoint(tasks: seq<Task>, st: Statuses, ok: seq<bool>, sched: seq<set<nat>>)
    requires Fits(tasks, st) && |ok| == |st|
    requires ValidSchedule(tasks, st, ok, sched) && Stuck(tasks, EndOf(st, ok, sched))
    ensures IsLeastFixedPoint(tasks, st, ok, DoneSet(EndOf(st, ok, sched)))
    ensures forall i :: 0 <= i < |tasks| && st[i] == Pending ==>
      (EndOf(st, ok, sched)[i] == Pending <==>
        !DepsWithin(tasks[i], Ids(tasks, DoneSet(EndOf(st, ok, sched)))))
  {
    var end := EndOf(st, ok, sched);
    ScheduleExplains(tasks, st, ok, st, sched);
    StuckIsFixed(tasks, st, ok, end);
    forall s: set<nat> | Derive(tasks, st, ok, s) <= s ensures DoneSet(end) <= s {
      forall i | i in DoneSet(st) ensures i in s {
        assert i in Derive(tasks, st, ok, s);
      }
      ScheduleStaysBelow(tasks, st, ok, st, sched, s);
    }
  }

  /** Confluence: two exhaustive schedules, parallel or one task at a time, agree
      on every status. */
  lemma {:induction false} SchedulesAgree(tasks: seq<Task>, st: Statuses, ok: seq<bool>, a: seq<set<nat>>,
      b: seq<set<nat>>)
    requires Fits(tasks, st) && |ok| == |st|
    requires ValidSchedule(tasks, st, ok, a) && Stuck(tasks, EndOf(st, ok, a))
    requires ValidSchedule(tasks, st, ok, b) && Stuck(tasks, EndOf(st, ok, b))
    ensures EndOf(st, ok, a) == EndOf(st, ok, b)
  {
    var ea, eb := EndOf(st, ok, a), EndOf(st, ok, b);
    ScheduleReachesLeastFixedPoint(tasks, st, ok, a);
    ScheduleReachesLeastFixedPoint(tasks, st, ok, b);
    assert DoneSet(ea) == DoneSet(eb);
    ScheduleExplains(tasks, st, ok, st, a);
    ScheduleExplains(tasks, st, ok, st, b);
    forall i | 0 <= i < |tasks| ensures ea[i] == eb[i] {
    }
  }

  // ---------- the batch loop ----------

  /** The state before batch b when every batch runs all that is ready. */
  ghost function Stage(tasks: seq<Task>, st: Statuses, ok: seq<bool>, b: nat): (r: Statuses)
    requires Fits(tasks, st) && |ok| == |st|
    ensures |r| == |st|
  {
    if b == 0 then st
    else var prev := Stage(tasks, st, ok, b - 1); After(prev, ReadySet(tasks, prev), ok)
  }

  lemma BatchShrinksPending(tasks: seq<Task>, st: Statuses, ok: seq<bool>)
    requires Fits(tasks, st) && |ok| == |st| && Ready(tasks, st) != []
    ensures PendingSet(After(st, ReadySet(tasks, st), ok)) < PendingSet(st)
  {
    var i := Ready(tasks, st)[0];
    assert i in ReadySet(tasks, st) && i in PendingSet(st);
    assert i !in PendingSet(After(st, ReadySet(tasks, st), ok));
  }

  /** The batches of one trial: the list positions each batch runs, in order. */
  ghost function Batches(tasks: seq<Task>, st: Statuses, ok: seq<bool>): seq<seq<nat>>
    requires Fits(tasks, st) && |ok| == |st|
    decreases PendingSet(st)
  {
    if Ready(tasks, st) == [] then []
    else
      BatchShrinksPending(tasks, st, ok);
      [Ready(tasks, st)] + Batches(tasks, After(st, ReadySet(tasks, st), ok), ok)
  }

  /** The statuses when a trial's batch loop stops. */
  ghost function TrialEnd(tasks: seq<Task>, st: Statuses, ok: seq<bool>): (r: Statuses)
    requires Fits(tasks, st) && |ok| == |st|
    ensures |r| == |st|
    decreases PendingSet(st)
  {
    if Ready(tasks, st) == [] then st
    else
      BatchShrinksPending(tasks, st, ok);
      TrialEnd(tasks, After(st, ReadySet(tasks, st), ok), ok)
  }

  lemma {:induction false} StageShift(tasks: seq<Task>, st: Statuses, ok: seq<bool>, b: nat)
    requires Fits(tasks, st) && |ok| == |st|
    ensures Stage(tasks, After(st, ReadySet(tasks, st), ok), ok, b) == Stage(tasks, st, ok, b + 1)
  {
    if b > 0 { StageShift(tasks, st, ok, b - 1); }
  }

  /** The loop ends at the stage after its last batch, where nothing is ready. */
  lemma {:induction false} LoopEndsStuck(tasks: seq<Task>, st: Statuses, ok: seq<bool>)
    requires Fits(tasks, st) && |ok| == |st|
    ensures TrialEnd(tasks, st, ok) == Stage(tasks, st, ok, |Batches(tasks, st, ok)|)
    ensures Stuck(tasks, TrialEnd(tasks, st, ok))
    decreases PendingSet(st)
  {
    hide After, ReadySet, Ready, DoneIds, PendingSet;
    if Ready(tasks, st) == [] {
      NothingReady(tasks, st);
    } else {
      BatchShrinksPending(tasks, st, ok);
      var st' := After(st, ReadySet(tasks, st), ok);
      LoopEndsStuck(tasks, st', ok);
      StageShift(tasks, st, ok, |Batches(tasks, st', ok)|);
    }
  }

  lemma NothingReady(tasks: seq<Task>, st: Statuses)
    requires Fits(tasks, st)
    ensures Ready(tasks, st) == [] <==> ReadySet(tasks, st) == {}
  {
    hide DoneIds, DepsWithin;
    ReadyMembers(tasks, st);
    if Ready(tasks, st) != [] { assert Ready(tasks, st)[0] in ReadySet(tasks, st); }
  }

  lemma {:induction false} BatchIsReady(tasks: seq<Task>, st: Statuses, ok: seq<bool>, b: nat)
    requires Fits(tasks, st) && |ok| == |st| && b < |Batches(tasks, st, ok)|
    ensures Batches(tasks, st, ok)[b] == Ready(tasks, Stage(tasks, st, ok, b)) && Batches(tasks, st, ok)[b] != []
    decreases b
  {
    hide After, ReadySet, Ready, DoneIds, PendingSet;
    if b > 0 {
      BatchShrinksPending(tasks, st, ok);
      BatchIsReady(tasks, After(st, ReadySet(tasks, st), ok), ok, b - 1);
      StageShift(tasks, st, ok, b - 1);
    }
  }

  /** Batch b runs exactly what is ready at stage b, and the loop stops at the
      first stage where nothing is. */
  lemma BatchesAreStages(tasks: seq<Task>, st: Statuses, ok: seq<bool>)
    requires Fits(tasks, st) && |ok| == |st|
    ensures var bs := Batches(tasks, st, ok);
      && (forall b :: 0 <= b < |bs| ==> bs[b] == Ready(tasks, Stage(tasks, st, ok, b)) && bs[b] != [])
      && TrialEnd(tasks, st, ok) == Stage(tasks, st, ok, |bs|)
      && Stuck(tasks, TrialEnd(tasks, st, ok))
  {
    hide Batches, Stage, TrialEnd, Ready, Stuck;
    LoopEndsStuck(tasks, st, ok);
    var bs := Batches(tasks, st, ok);
    forall b | 0 <= b < |bs| ensures bs[b] == Ready(tasks, Stage(tasks, st, ok, b)) && bs[b] != [] {
      BatchIsReady(tasks, st, ok, b);
    }
  }

  /** The batch loop is one of the schedules. */
  lemma {:induction false} BatchLoopIsSchedule(tasks: seq<Task>, st: Statuses, ok: seq<bool>)
      returns (sched: seq<set<nat>>)
    requires Fits(tasks, st) && |ok| == |st|
    ensures ValidSchedule(tasks, st, ok, sched) && EndOf(st, ok, sched) == TrialEnd(tasks, st, ok)
    decreases PendingSet(st)
  {
    sched := [];
    if Ready(tasks, st) != [] {
      BatchShrinksPending(tasks, st, ok);
      var r := ReadySet(tasks, st);
      var rest := BatchLoopIsSchedule(tasks, After(st, r, ok), ok);
      sched := [r] + rest;
      assert sched[1..] == rest;
    }
  }

  /** The trial theorem: the batch loop ends in the least fixed point, as does any
      other exhaustive schedule with the same outcomes. */
  lemma {:induction false} TrialReachesLeastFixedPoint(tasks: seq<Task>, st: Statuses, ok: seq<bool>)
    requires Fits(tasks, st) && |ok| == |st|
    ensures var end := TrialEnd(tasks, st, ok);
      && IsLeastFixedPoint(tasks, st, ok, DoneSet(end))
      && (forall i :: 0 <= i < |tasks| && st[i] == Pending ==>
           (end[i] == Pending <==> !DepsWithin(tasks[i], Ids(tasks, DoneSet(end)))))
      && (forall i :: 0 <= i < |tasks| && st[i] == Pending && end[i] != Pending ==> end[i] == Outcome(ok[i]))
      && (forall i :: 0 <= i < |tasks| && st[i] != Pending ==> end[i] == st[i])
    ensures forall sched :: ValidSchedule(tasks, st, ok, sched) && Stuck(tasks, EndOf(st, ok, sched)) ==>
      EndOf(st, ok, sched) == TrialEnd(tasks, st, ok)
  {
    var loop := BatchLoopIsSchedule(tasks, st, ok);
    BatchesAreStages(tasks, st, ok);
    ScheduleReachesLeastFixedPoint(tasks, st, ok, loop);
    ScheduleExplains(tasks, st, ok, st, loop);
    forall sched | ValidSchedule(tasks, st, ok, sched) && Stuck(tasks, EndOf(st, ok, sched))
      ensures EndOf(st, ok, sched) == TrialEnd(tasks, st, ok)
    {
      SchedulesAgree(tasks, st, ok, sched, loop);
    }
  }

  lemma {:induction false} StageExplains(tasks: seq<Task>, st: Statuses, ok: seq<bool>, b: nat)
    requires Fits(tasks, st) && |ok| == |st|
    ensures Explains(tasks, st, ok, Stage(tasks, st, ok, b))
  {
    if b > 0 {
      StageExplains(tasks, st, ok, b - 1);
      var prev := Stage(tasks, st, ok, b - 1);
      StepExplains(tasks, st, ok, prev, ReadySet(tasks, prev));
    }
  }

  lemma {:induction false} StageKeeps(tasks: seq<Task>, st: Statuses, ok: seq<bool>, a: nat, b: nat, i: nat)
    requires Fits(tasks, st) && |ok| == |st| && i < |tasks| && a <= b
    requires Stage(tasks, st, ok, a)[i] != Pending
    ensures Stage(tasks, st, ok, b)[i] == Stage(tasks, st, ok, a)[i]
    decreases b - a
  {
    if a < b {
      StageKeeps(tasks, st, ok, a, b - 1, i);
      var prev := Stage(tasks, st, ok, b - 1);
      assert i !in ReadySet(tasks, prev);
    }
  }

  /** A subtask starts only while it is pending and every dependency is done. */
  lemma {:induction false} StartsWithDepsDone(tasks: seq<Task>, st: Statuses, ok: seq<bool>, b: nat, k: nat)
    requires Fits(tasks, st) && |ok| == |st|
    requires b < |Batches(tasks, st, ok)| && k < |Batches(tasks, st, ok)[b]|
    ensures var i := Batches(tasks, st, ok)[b][k];
      && i < |tasks|
      && Stage(tasks, st, ok, b)[i] == Pending
      && DepsWithin(tasks[i], DoneIds(tasks, Stage(tasks, st, ok, b)))
  {
    BatchesAreStages(tasks, st, ok);
  }

  /** A trial runs a subtask at most once. */
  lemma StartsOnce(tasks: seq<Task>, st: Statuses, ok: seq<bool>, b: nat, k: nat, b': nat, k': nat)
    requires Fits(tasks, st) && |ok| == |st|
    requires b < |Batches(tasks, st, ok)| && k < |Batches(tasks, st, ok)[b]|
    requires b' < |Batches(tasks, st, ok)| && k' < |Batches(tasks, st, ok)[b']|
    requires Batches(tasks, st, ok)[b][k] == Batches(tasks, st, ok)[b'][k']
    ensures b == b' && k == k'
  {
    var i := Batches(tasks, st, ok)[b][k];
    StartsWithDepsDone(tasks, st, ok, b, k);
    StartsWithDepsDone(tasks, st, ok, b', k');
    if b < b' {
      GonePending(tasks, st, ok, b, b', i);
    } else if b' < b {
      GonePending(tasks, st, ok, b', b, i);
    } else {
      BatchesAreStages(tasks, st, ok);
    }
  }

  lemma {:induction false} GonePending(tasks: seq<Task>, st: Statuses, ok: seq<bool>, b: nat, b': nat, i: nat)
    requires Fits(tasks, st) && |ok| == |st| && i < |tasks| && b < b'
    requires IsReady(tasks, Stage(tasks, st, ok, b), i)
    ensures Stage(tasks, st, ok, b')[i] != Pending
  {
    RunsAt(tasks, st, ok, b, i);
    StageKeeps(tasks, st, ok, b + 1, b', i);
  }

  lemma RunsAt(tasks: seq<Task>, st: Statuses, ok: seq<bool>, b: nat, i: nat)
    requires Fits(tasks, st) && |ok| == |st| && i < |tasks|
    requires IsReady(tasks, Stage(tasks, st, ok, b), i)
    ensures Stage(tasks, st, ok, b + 1)[i] == Outcome(ok[i])
  {
    assert i in ReadySet(tasks, Stage(tasks, st, ok, b));
  }

  /** With unique ids a subtask never shares a batch with one of its dependencies. */
  lemma NeverAlongsideDependency(tasks: seq<Task>, st: Statuses, ok: seq<bool>, b: nat, k: nat, k': nat)
    requires Fits(tasks, st) && |ok| == |st| && UniqueIds(tasks)
    requires b < |Batches(tasks, st, ok)| && k < |Batches(tasks, st, ok)[b]| && k' < |Batches(tasks, st, ok)[b]|
    ensures var batch := Batches(tasks, st, ok)[b];
      batch[k] < |tasks| && batch[k'] < |tasks| && tasks[batch[k']].id !in tasks[batch[k]].deps
  {
    StartsWithDepsDone(tasks, st, ok, b, k);
    StartsWithDepsDone(tasks, st, ok, b, k');
  }

  ghost function Total(bs: seq<seq<nat>>): nat {
    if bs == [] then 0 else |bs[0]| + Total(bs[1..])
  }

  lemma {:induction false} DistinctBounded(s: seq<nat>, within: set<nat>)
    requires forall k :: 0 <= k < |s| ==> s[k] in within
    requires forall j, k :: 0 <= j < k < |s| ==> s[j] < s[k]
    ensures |s| <= |within|
  {
    if s != [] {
      var last := s[|s| - 1];
      DistinctBounded(s[..|s| - 1], within - {last});
    }
  }

  lemma BatchCount(tasks: seq<Task>, st: Statuses, ok: seq<bool>)
    requires Fits(tasks, st) && |ok| == |st|
    ensures |Ready(tasks, st)| + |PendingSet(After(st, ReadySet(tasks, st), ok))| <= |PendingSet(st)|
  {
    var r := ReadySet(tasks, st);
    DistinctBounded(Ready(tasks, st), r);
    assert PendingSet(After(st, r, ok)) == PendingSet(st) - r && r <= PendingSet(st);
  }

  /** A trial runs at most as many subtasks as stop being pending. */
  lemma {:induction false} TrialRunsAtMostPending(tasks: seq<Task>, st: Statuses, ok: seq<bool>)
    requires Fits(tasks, st) && |ok| == |st|
    ensures Total(Batches(tasks, st, ok)) + |PendingSet(TrialEnd(tasks, st, ok))| <= |PendingSet(st)| <= |tasks|
    decreases PendingSet(st)
  {
    PendingBound(st, |st|);
    if Ready(tasks, st) != [] {
      BatchShrinksPending(tasks, st, ok);
      BatchCount(tasks, st, ok);
      var st' := After(st, ReadySet(tasks, st), ok);
      TrialRunsAtMostPending(tasks, st', ok);
      assert Batches(tasks, st, ok)[1..] == Batches(tasks, st', ok);
    }
  }

  lemma {:induction false} PendingBound(st: Statuses, n: nat)
    requires n <= |st|
    ensures |set i: nat | i < n && st[i] == Pending| <= n
    ensures n == |st| ==> |PendingSet(st)| <= n
  {
    if n > 0 {
      PendingBound(st, n - 1);
      var a := set i: nat | i < n && st[i] == Pending;
      var b := set i: nat | i < n - 1 && st[i] == Pending;
      assert a <= b + {n - 1};
      Bigger(a, b + {n - 1});
    }
    assert n == |st| ==> PendingSet(st) == set i: nat | i < n && st[i] == Pending;
  }

  lemma {:induction false} Bigger(a: set<nat>, b: set<nat>)
    requires a <= b
    ensures |a| <= |b|
  {
    assert b == a + (b - a);
    assert |b| == |a| + |b - a|;
  }
}
