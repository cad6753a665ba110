/** What a health check's reset discards.  Its compare-and-swap is meant to keep a failure
    recorded since its load, and does while the tally cannot return to an earlier value. */
module BreakerResets {
  import opened GlobalBreaker

  // ---------- between the load and the swap ----------

  ghost predicate AwayFrom(steps: seq<Step>, j: nat, i: nat, t: nat)
    requires i <= |steps|
  {
    forall m :: j <= m < i ==> steps[m].t != t
  }

  /** Step j is the load, and step i the compare-and-swap, of one health check of t. */
  ghost predicate CheckSpans(run: seq<System>, steps: seq<Step>, j: nat, i: nat, t: nat) {
    && IsRun(run, steps) && j < i < |steps|
    && steps[j] == LoadForCheck(t) && steps[i] == CasReset(t)
    && AwayFrom(steps, j + 1, i, t)
  }

  lemma {:induction false} ThreadWaits(run: seq<System>, steps: seq<Step>, j: nat, i: nat, t: nat)
    requires IsRun(run, steps) && j <= i <= |steps| && AwayFrom(steps, j, i, t) && t in run[j].threads
    ensures t in run[i].threads && run[i].threads[t] == run[j].threads[t]
  {
    hide Pack, Unpack, NextCount, SaturatingSub;
    if j < i { ThreadWaits(run, steps, j, i - 1, t); }
  }

  lemma {:induction false} LogGrows(run: seq<System>, steps: seq<Step>, j: nat, i: nat)
    requires IsRun(run, steps) && j <= i <= |steps|
    ensures |run[j].log| <= |run[i].log| && run[i].log[..|run[j].log|] == run[j].log
  {
    hide Pack, Unpack, NextCount, SaturatingSub;
    if j < i { LogGrows(run, steps, j, i - 1); }
  }

  /** The reset takes place exactly when the tally at its swap is the tally at its load. */
  lemma ResetSucceedsIff(run: seq<System>, steps: seq<Step>, j: nat, i: nat, t: nat)
    requires CheckSpans(run, steps, j, i, t)
    ensures t in run[i].threads && run[i].threads[t].CheckReset? && run[i].threads[t].current == run[j].word
    ensures Fold(run[i].log) == Fold(run[j].log) ==> run[i + 1].log == run[i].log + [Reset(t, run[i].threads[t].now)]
    ensures Fold(run[i].log) != Fold(run[j].log) ==> run[i + 1].log == run[i].log && run[i + 1].word == run[i].word
  {
    hide Fold, Pack, Unpack, SaturatingSub;
    ThreadWaits(run, steps, j + 1, i, t);
    assert Enabled(run[j], steps[j]) && Enabled(run[i], steps[i]);
    RunInvariants(run, steps, j);
    RunInvariants(run, steps, i);
    PackUnpack(run[j].word);
    PackUnpack(run[i].word);
  }

  // ---------- when the tally cannot return ----------

  /** Clock readings fit in 32 bits and do not fall from one event to a later one. */
  ghost predicate ClockRises(log: seq<Event>) {
    && (forall k :: 0 <= k < |log| ==> log[k].now < TWO32)
    && (forall k, m :: 0 <= k < m < |log| ==> log[k].now <= log[m].now)
  }

  ghost predicate Justified(log: seq<Event>) {
    forall k :: 0 <= k < |log| && log[k].Reset? ==> ResetJustified(log[..k], log[k].now)
  }

  /** Since the tally was `seen`, failures of the same second have raised the count, or the
      clock has moved on and taken the timestamp with it. */
  ghost predicate MovedOn(now: U64, tally: Tally, seen: Tally, later: bool) {
    || (now == seen.last == tally.last && tally.count >= seen.count && (later ==> tally.count > seen.count))
    || (now > seen.last && (tally.count == 0 || tally.last > seen.last))
  }

  lemma MovesOn(now: U64, tally: Tally, seen: Tally, later: bool, e: Event)
    requires MovedOn(now, tally, seen, later) && seen.count < U32_MAX && now <= e.now < TWO32
    requires e.Reset? ==> SaturatingSub(e.now, tally.last) >= TIME_WINDOW_SEC
    ensures MovedOn(e.now, Apply(tally, e), seen, true)
  {
  }

  lemma NotYet(log: seq<Event>)
    requires log != [] && log[|log| - 1].Record? && log[|log| - 1].now < TWO32
    ensures MovedOn(log[|log| - 1].now, Fold(log), Fold(log), false)
  {
    hide Fold, LongestStreak;
    var k := FoldIsStreak(log);
  }

  /** Once the clock has moved on, or the count risen, the tally is another. */
  lemma NeverBack(now: U64, tally: Tally, seen: Tally)
    requires MovedOn(now, tally, seen, true) && seen.count > 0
    ensures tally != seen
  {
  }

  lemma OneShorter(prev: seq<Event>, e: Event)
    requires ClockRises(prev + [e]) && Justified(prev + [e]) && prev != []
    ensures ClockRises(prev) && Justified(prev) && prev[|prev| - 1].now <= e.now < TWO32
    ensures e.Reset? ==> ResetJustified(prev, e.now)
  {
    hide ResetJustified;
    var log := prev + [e];
    assert log[|prev|] == e && log[..|prev|] == prev && log[|prev| - 1] == prev[|prev| - 1];
    forall k | 0 <= k < |prev| && prev[k].Reset? ensures ResetJustified(prev[..k], prev[k].now) {
      assert log[k] == prev[k] && log[..k] == prev[..k];
    }
  }

  lemma {:induction false} LogMovesOn(log: seq<Event>, a: nat)
    requires ClockRises(log) && Justified(log) && 0 < a <= |log| && log[a - 1].Record?
    requires Fold(log[..a]).count < U32_MAX
    ensures MovedOn(log[|log| - 1].now, Fold(log), Fold(log[..a]), a < |log|)
  {
    hide MovedOn, Fold, Apply, SaturatingSub, LongestStreak, Justified;
    if a == |log| {
      assert log[..a] == log;
      NotYet(log);
    } else {
      var prev, e := log[..|log| - 1], log[|log| - 1];
      assert log == prev + [e] && prev[..a] == log[..a] && prev[a - 1] == log[a - 1];
      OneShorter(prev, e);
      LogMovesOn(prev, a);
      FoldAppend(prev, e);
      MovesOn(prev[|prev| - 1].now, Fold(prev), Fold(log[..a]), a < |prev|, e);
    }
  }

  /** With an unsaturated count and a clock that does not fall from one logged event to the
      next, a reset takes place exactly when nothing was logged since its load: it discards
      only failures that its thread had seen. */
  lemma ResetKeepsLaterFailures(run: seq<System>, steps: seq<Step>, j: nat, i: nat, t: nat)
    requires CheckSpans(run, steps, j, i, t)
    requires ClockRises(run[i].log) && Fold(run[j].log).count < U32_MAX
    ensures run[i + 1].log != run[i].log <==> run[i].log == run[j].log
  {
    hide Fold, Pack, Unpack, SaturatingSub, MovedOn, ClockRises, ResetJustified;
    ResetSucceedsIff(run, steps, j, i, t);
    LogGrows(run, steps, j, i);
    var log, a := run[i].log, |run[j].log|;
    if a < |log| {
      RunInvariants(run, steps, i);
      ThresholdAtLoad(run, steps, j, i, t);
      var k := FoldIsStreak(run[j].log);
      LogMovesOn(log, a);
      NeverBack(log[|log| - 1].now, Fold(log), Fold(run[j].log));
    } else {
      assert log == log[..a];
    }
  }

  lemma ThresholdAtLoad(run: seq<System>, steps: seq<Step>, j: nat, i: nat, t: nat)
    requires CheckSpans(run, steps, j, i, t)
    ensures Fold(run[j].log).count >= FAIL_THRESHOLD
  {
    hide Fold, Pack, SaturatingSub;
    ResetSucceedsIff(run, steps, j, i, t);
    RunInvariants(run, steps, i);
    RunInvariants(run, steps, j);
    assert run[i].threads[t].current == run[j].word;
  }

  // ---------- when it does ----------

  ghost predicate Reads(a: Step) {
    a.StartRecord? || a.StartCheck?
  }

  /** The threads read clocks that never fall, and the latest reading is at most `now`. */
  ghost predicate ClockUpTo(steps: seq<Step>, now: U64) {
    && (forall m, n :: 0 <= m < n < |steps| && Reads(steps[m]) && Reads(steps[n]) ==> steps[m].now <= steps[n].now)
    && (forall m :: 0 <= m < |steps| && Reads(steps[m]) ==> steps[m].now <= now)
  }

  /** A run so far, with its clock. */
  ghost predicate Going(run: seq<System>, steps: seq<Step>, now: U64) {
    IsRun(run, steps) && ClockUpTo(steps, now)
  }

  ghost function Last(run: seq<System>): System
    requires run != []
  {
    run[|run| - 1]
  }

  lemma Extend(run: seq<System>, steps: seq<Step>, now: U64, a: Step) returns (run': seq<System>, steps': seq<Step>)
    requires Going(run, steps, now) && Enabled(Last(run), a) && (Reads(a) ==> a.now == now)
    ensures Going(run', steps', now) && steps' == steps + [a] && run' == run + [Do(Last(run), a)]
  {
    hide Enabled, Do, Init;
    run', steps' := run + [Do(Last(run), a)], steps + [a];
    assert run'[0] == run[0];
    forall i | 0 <= i < |steps'| ensures Enabled(run'[i], steps'[i]) && run'[i + 1] == Do(run'[i], steps'[i]) {
      if i < |steps| { assert run'[i] == run[i] && run'[i + 1] == run[i + 1] && steps'[i] == steps[i]; }
    }
  }

  /** A longer run, in which thread 0 takes no further step. */
  ghost predicate Further(run: seq<System>, steps: seq<Step>, run': seq<System>, steps': seq<Step>) {
    && |run| == |steps| + 1 && |run'| == |steps'| + 1 && |steps| <= |steps'|
    && run'[..|run|] == run && steps'[..|steps|] == steps && AwayFrom(steps', |steps|, |steps'|, 0)
  }

  /** One more failure in the log, and no other thread has moved. */
  ghost predicate OneMore(before: System, after: System, t: nat, now: U64) {
    && after.log == before.log + [Record(t, now)]
    && after.threads.Keys == before.threads.Keys
    && forall u :: u in before.threads && u != t ==> after.threads[u] == before.threads[u]
  }

  /** A thread that has read its clock records its failure. */
  lemma RecordDelayed(run: seq<System>, steps: seq<Step>, now: U64, t: nat, at: U64)
    returns (run': seq<System>, steps': seq<Step>)
    requires Going(run, steps, now) && t != 0 && t in Last(run).threads && Last(run).threads[t] == RecordRead(at)
    ensures Going(run', steps', now) && Further(run, steps, run', steps')
    ensures OneMore(Last(run), Last(run'), t, at) && Last(run').threads[t] == RecordReturn(at)
  {
    hide Going, NextCount, Pack, Unpack;
    Consistent(run, steps, now);
    run', steps' := Extend(run, steps, now, LoadForRecord(t));
    run', steps' := Extend(run', steps', now, CasOk(t));
  }

  /** A thread reads its clock, records its failure and returns. */
  lemma RecordNow(run: seq<System>, steps: seq<Step>, now: U64, t: nat) returns (run': seq<System>, steps': seq<Step>)
    requires Going(run, steps, now) && t != 0 && t in Last(run).threads && Last(run).threads[t] == Idle
    ensures Going(run', steps', now) && Further(run, steps, run', steps')
    ensures OneMore(Last(run), Last(run'), t, now) && Last(run').threads[t] == Idle
  {
    hide Going, NextCount, Pack, Unpack;
    Consistent(run, steps, now);
    run', steps' := Extend(run, steps, now, StartRecord(t, now));
    run', steps' := Extend(run', steps', now, LoadForRecord(t));
    run', steps' := Extend(run', steps', now, CasOk(t));
    run', steps' := Extend(run', steps', now, ReturnRecord(t));
  }

  lemma Consistent(run: seq<System>, steps: seq<Step>, now: U64)
    requires Going(run, steps, now)
    ensures |run| == |steps| + 1
    ensures Last(run).threads.Keys == Last(run).returned.Keys
  {
    RunInvariants(run, steps, |steps|);
  }

  /** n more failures at the end of a log. */
  ghost predicate Grown(before: seq<Event>, after: seq<Event>, n: nat) {
    && |after| == |before| + n && after[..|before|] == before
    && forall k :: |before| <= k < |after| ==> after[k].Record?
  }

  /** What n failures at `at` do to a tally, when `at` is not a window past its timestamp. */
  function Counted(tally: Tally, at: U64, n: nat): Tally
    requires at < TWO32 && tally.count + n <= U32_MAX
  {
    if n == 0 then tally else Tally(at, tally.count + n)
  }

  lemma CountOne(log: seq<Event>, tally: Tally, at: U64, n: nat, t: nat)
    requires at < TWO32 && tally.count + n < U32_MAX && SaturatingSub(at, tally.last) <= TIME_WINDOW_SEC
    requires Fold(log) == Counted(tally, at, n)
    ensures Fold(log + [Record(t, at)]) == Counted(tally, at, n + 1)
  {
    FoldAppend(log, Record(t, at));
  }

  /** One thread records n failures in the same second. */
  lemma {:induction false} RecordRepeatedly(run: seq<System>, steps: seq<Step>, now: U64, t: nat, n: nat)
    returns (run': seq<System>, steps': seq<Step>)
    requires Going(run, steps, now) && t != 0 && t in Last(run).threads && Last(run).threads[t] == Idle
    requires now < TWO32 && Fold(Last(run).log).count + n <= U32_MAX
    requires SaturatingSub(now, Fold(Last(run).log).last) <= TIME_WINDOW_SEC
    ensures Going(run', steps', now) && Further(run, steps, run', steps')
    ensures Fold(Last(run').log) == Counted(Fold(Last(run).log), now, n)
    ensures Grown(Last(run).log, Last(run').log, n)
    ensures Last(run').threads == Last(run).threads
  {
    hide Going, Fold, SaturatingSub;
    Consistent(run, steps, now);
    if n == 0 {
      run', steps' := run, steps;
    } else {
      var run1, steps1 := RecordRepeatedly(run, steps, now, t, n - 1);
      run', steps' := RecordNow(run1, steps1, now, t);
      CountOne(Last(run1).log, Fold(Last(run).log), now, n - 1, t);
    }
  }

  /** The threads 1 to n have read their clocks at `at`; each records its failure. */
  lemma {:induction false} RecordAllDelayed(run: seq<System>, steps: seq<Step>, now: U64, at: U64, n: nat)
    returns (run': seq<System>, steps': seq<Step>)
    requires Going(run, steps, now) && at < TWO32 && Fold(Last(run).log).count + n <= U32_MAX
    requires forall t: nat :: 0 < t <= n ==> t in Last(run).threads && Last(run).threads[t] == RecordRead(at)
    requires SaturatingSub(at, Fold(Last(run).log).last) <= TIME_WINDOW_SEC
    ensures Going(run', steps', now) && Further(run, steps, run', steps')
    ensures Fold(Last(run').log) == Counted(Fold(Last(run).log), at, n)
    ensures Grown(Last(run).log, Last(run').log, n)
    ensures forall t: nat :: t > n && t in Last(run).threads ==>
              t in Last(run').threads && Last(run').threads[t] == Last(run).threads[t]
  {
    hide Going, Fold, SaturatingSub;
    Consistent(run, steps, now);
    if n == 0 {
      run', steps' := run, steps;
    } else {
      var run1, steps1 := RecordAllDelayed(run, steps, now, at, n - 1);
      run', steps' := RecordDelayed(run1, steps1, now, n, at);
      CountOne(Last(run1).log, Fold(Last(run).log), at, n - 1, n);
    }
  }

  /** The threads 1 to n read their clocks. */
  lemma {:induction false} ReadAll(run: seq<System>, steps: seq<Step>, now: U64, n: nat)
    returns (run': seq<System>, steps': seq<Step>)
    requires Going(run, steps, now)
    requires forall t: nat :: 0 < t <= n ==> t in Last(run).threads && Last(run).threads[t] == Idle
    ensures Going(run', steps', now) && Further(run, steps, run', steps')
    ensures Last(run').log == Last(run).log && Last(run').threads.Keys == Last(run).threads.Keys
    ensures forall t: nat :: 0 < t <= n ==> t in Last(run').threads && Last(run').threads[t] == RecordRead(now)
    ensures forall t: nat :: (t > n || t == 0) && t in Last(run).threads ==>
      Last(run').threads[t] == Last(run).threads[t]
  {
    hide Going;
    Consistent(run, steps, now);
    if n == 0 {
      run', steps' := run, steps;
    } else {
      var run1, steps1 := ReadAll(run, steps, now, n - 1);
      Consistent(run1, steps1, now);
      run', steps' := Extend(run1, steps1, now, StartRecord(n, now));
    }
  }

  lemma FirstOfStreak(log: seq<Event>, t: nat, at: U64)
    requires at < TWO32 && Fold(log).last + TIME_WINDOW_SEC < at
    ensures Fold(log + [Record(t, at)]) == Tally(at, 1)
  {
    hide Fold, Apply;
    FoldAppend(log, Record(t, at));
    OneAgain(Fold(log), t, at);
  }

  lemma OneAgain(tally: Tally, t: nat, at: U64)
    requires at < TWO32 && tally.last + TIME_WINDOW_SEC < at
    ensures Apply(tally, Record(t, at)) == Tally(at, 1)
  {
  }

  /** Thirty failures at `at`; the threads 1 to 29 have read their clocks, but not gone on. */
  ghost predicate Poised(s: System, at: U64) {
    && Fold(s.log) == Tally(at, 30)
    && 0 in s.threads && s.threads[0] == Idle && 30 in s.threads && s.threads[30] == Idle
    && forall t: nat :: 0 < t <= 29 ==> t in s.threads && s.threads[t] == RecordRead(at)
  }

  lemma Begins(start: System, now: U64)
    requires Init(start)
    ensures Going([start], [], now) && Fold(start.log) == ZERO
  {
  }

  lemma ReachPoised(start: System, at: U64) returns (run: seq<System>, steps: seq<Step>)
    requires Init(start) && (forall t: nat :: t <= 30 ==> t in start.threads) && TIME_WINDOW_SEC < at < TWO32
    ensures run != [] && run[0] == start && Going(run, steps, at) && Poised(Last(run), at)
  {
    hide Fold, Going;
    run, steps := [start], [];
    Begins(start, at);
    Consistent(run, steps, at);
    var run1, steps1 := RecordNow(run, steps, at, 30);
    FirstOfStreak(start.log, 30, at);
    Consistent(run1, steps1, at);
    var run2, steps2 := RecordRepeatedly(run1, steps1, at, 30, 29);
    Consistent(run2, steps2, at);
    run, steps := ReadAll(run2, steps2, at, 29);
  }

  lemma Later(run: seq<System>, steps: seq<Step>, now: U64, then': U64)
    requires Going(run, steps, now) && now <= then'
    ensures Going(run, steps, then')
  {
  }

  /** After thread 0 has loaded the word: a failure by a clock past the window, and the 29
      delayed ones, bring the tally back. */
  lemma TallyReturns(run: seq<System>, steps: seq<Step>, at: U64, now: U64)
    returns (run': seq<System>, steps': seq<Step>)
    requires Going(run, steps, now) && TIME_WINDOW_SEC < at && at + TIME_WINDOW_SEC < now < TWO32
    requires Fold(Last(run).log) == Tally(at, 30) && 30 in Last(run).threads && Last(run).threads[30] == Idle
    requires forall t: nat :: 0 < t <= 29 ==> t in Last(run).threads && Last(run).threads[t] == RecordRead(at)
    ensures Going(run', steps', now) && Further(run, steps, run', steps')
    ensures Grown(Last(run).log, Last(run').log, 30) && Fold(Last(run').log) == Tally(at, 30)
  {
    hide Fold, Going;
    Consistent(run, steps, now);
    var run1, steps1 := RecordNow(run, steps, now, 30);
    FirstOfStreak(Last(run).log, 30, now);
    Consistent(run1, steps1, now);
    run', steps' := RecordAllDelayed(run1, steps1, now, at, 29);
  }

  /** Thread 0 loads the word for a health check, and is about to reset it. */
  lemma Load(run: seq<System>, steps: seq<Step>, at: U64, now: U64)
    returns (run1: seq<System>, steps1: seq<Step>, run2: seq<System>, steps2: seq<Step>)
    requires Going(run, steps, now) && Poised(Last(run), at) && at + TIME_WINDOW_SEC <= now
    ensures Going(run2, steps2, now) && steps2 == steps1 + [LoadForCheck(0)] && run1 != []
    ensures run2 == run1 + [Last(run2)] && run2[0] == run[0] && Last(run1).log == Last(run2).log == Last(run).log
    ensures 0 in Last(run2).threads && Last(run2).threads[0] == CheckReset(now, Last(run1).word)
    ensures Fold(Last(run2).log) == Tally(at, 30) && 30 in Last(run2).threads && Last(run2).threads[30] == Idle
    ensures forall t: nat :: 0 < t <= 29 ==> t in Last(run2).threads && Last(run2).threads[t] == RecordRead(at)
  {
    hide Fold, Going, Unpack, Pack;
    Consistent(run, steps, now);
    run1, steps1 := Extend(run, steps, now, StartCheck(0, now));
    TallyNow(run1, steps1, now);
    run2, steps2 := Extend(run1, steps1, now, LoadForCheck(0));
  }

  lemma TallyNow(run: seq<System>, steps: seq<Step>, now: U64)
    requires Going(run, steps, now)
    ensures |run| == |steps| + 1 && Last(run).threads.Keys == Last(run).returned.Keys
    ensures Unpack(Last(run).word) == (Fold(Last(run).log).last, Fold(Last(run).log).count)
  {
    RunInvariants(run, steps, |steps|);
  }

  /** The swap of a check that loaded the word at step j, when the tally is back. */
  lemma Swap(run: seq<System>, steps: seq<Step>, j: nat, now: U64) returns (run': seq<System>, steps': seq<Step>)
    requires Going(run, steps, now) && j < |steps| < |run| && steps[j] == LoadForCheck(0)
    requires AwayFrom(steps, j + 1, |steps|, 0) && 0 in run[j + 1].threads && run[j + 1].threads[0].CheckReset?
    requires Fold(Last(run).log) == Fold(run[j].log)
    ensures Going(run', steps', now) && CheckSpans(run', steps', j, |steps|, 0) && run'[..|run|] == run
    ensures run'[|run|].log == Last(run).log + [Reset(0, run[j + 1].threads[0].now)]
  {
    hide Fold, Do, Pack, Unpack, ClockUpTo;
    ThreadWaits(run, steps, j + 1, |steps|, 0);
    Consistent(run, steps, now);
    run', steps' := Extend(run, steps, now, CasReset(0));
    assert forall m :: 0 <= m < |run| ==> run'[m] == run[m];
    assert AwayFrom(steps', j + 1, |steps|, 0);
    ResetSucceedsIff(run', steps', j, |steps|, 0);
  }

  lemma ResetClears(log: seq<Event>, t: nat, now: U64)
    ensures Fold(log + [Reset(t, now)]) == ZERO
  {
    FoldAppend(log, Reset(t, now));
  }

  lemma Clock(run: seq<System>, steps: seq<Step>, now: U64)
    requires Going(run, steps, now)
    ensures ClockUpTo(steps, now)
  {
  }

  /** The promise fails on this run.  A health check loads thirty failures that are 70 seconds
      old; then 30 more are recorded, one by a later clock and 29 by threads that had read
      theirs before the load.  The tally is the same again, and the reset discards all 60,
      although the threads' clocks never fall. */
  lemma LaterFailuresLost(start: System)
    returns (run: seq<System>, steps: seq<Step>, j: nat, i: nat)
    requires Init(start) && forall t: nat :: t <= 30 ==> t in start.threads
    ensures CheckSpans(run, steps, j, i, 0) && run[0] == start && ClockUpTo(steps, 1100)
    ensures Grown(run[j].log, run[i].log, 30)
    ensures run[i + 1].log == run[i].log + [Reset(0, 1070)] && Fold(run[i + 1].log) == ZERO
  {
    hide Fold, Going, ClockUpTo, Enabled, Do, Poised, Grown;
    var run0, steps0 := ReachPoised(start, 1000);
    Later(run0, steps0, 1000, 1070);
    var run1, steps1, run2, steps2 := Load(run0, steps0, 1000, 1070);
    Later(run2, steps2, 1070, 1100);
    var run3, steps3 := TallyReturns(run2, steps2, 1000, 1100);
    j, i := |steps1|, |steps3|;
    run, steps := Swap(run3, steps3, j, 1100);
    assert run[j] == Last(run1) && run[j + 1] == Last(run2) && run[i] == Last(run3) && run[0] == start;
    ResetClears(run[i].log, 0, 1070);
    Clock(run, steps, 1100);
  }
}
