/** That the threads of the global breaker get on: a swap fails only when it was beaten or
    spuriously, a call takes a bounded number of steps besides, and what it logs is the clock
    reading it began with. */
module BreakerProgress {
  import opened GlobalBreaker
  import opened BreakerResets

  // ---------- why a swap fails ----------

  /** Step j has given thread t the word it is about to swap against. */
  ghost predicate Loads(steps: seq<Step>, j: nat, t: nat) {
    j < |steps| && (steps[j] == LoadForRecord(t) || steps[j] == CasFail(t))
  }

  /** Between its load and its swap a record call can swap exactly while the tally is the
      one it loaded. */
  lemma SwapEnabledIff(run: seq<System>, steps: seq<Step>, j: nat, i: nat, t: nat)
    requires IsRun(run, steps) && Loads(steps, j, t) && j < i <= |steps| && AwayFrom(steps, j + 1, i, t)
    ensures t in run[i].threads && run[i].threads[t].RecordLoop? && run[i].threads[t].current == run[j].word
    ensures Enabled(run[i], CasOk(t)) <==> Fold(run[i].log) == Fold(run[j].log)
  {
    hide Fold, Pack, Unpack, NextCount, SaturatingSub;
    assert Enabled(run[j], steps[j]);
    ThreadWaits(run, steps, j + 1, i, t);
    RunInvariants(run, steps, j);
    RunInvariants(run, steps, i);
    PackUnpack(run[j].word);
    PackUnpack(run[i].word);
  }

  /** So a swap that cannot succeed has been beaten: another thread's event was logged
      since the load. */
  lemma FailsOnlyWhenBeaten(run: seq<System>, steps: seq<Step>, j: nat, i: nat, t: nat)
    requires IsRun(run, steps) && Loads(steps, j, t) && j < i <= |steps| && AwayFrom(steps, j + 1, i, t)
    requires !Enabled(run[i], CasOk(t))
    ensures |run[i].log| > |run[j].log| && run[i].log[..|run[j].log|] == run[j].log
  {
    hide Enabled, Fold;
    SwapEnabledIff(run, steps, j, i, t);
    LogGrows(run, steps, j, i);
    assert run[i].log[..|run[i].log|] == run[i].log;
  }

  // ---------- a call returns unless it is beaten for ever ----------

  ghost predicate InRecord(s: System, t: nat) {
    t in s.threads && (s.threads[t].RecordRead? || s.threads[t].RecordLoop? || s.threads[t].RecordReturn?)
  }

  /** The steps of t among steps i to n. */
  ghost function Taken(steps: seq<Step>, t: nat, i: nat, n: nat): nat
    requires i <= n <= |steps|
  {
    if i == n then 0 else Taken(steps, t, i, n - 1) + if steps[n - 1].t == t then 1 else 0
  }

  /** A failure of the weak compare-and-swap although the word was the one loaded. */
  ghost predicate Spurious(s: System, a: Step, t: nat) {
    a == CasFail(t) && Enabled(s, CasOk(t))
  }

  ghost function SpuriousFailures(run: seq<System>, steps: seq<Step>, t: nat, i: nat, n: nat): nat
    requires |run| == |steps| + 1 && i <= n <= |steps|
  {
    if i == n then 0
    else SpuriousFailures(run, steps, t, i, n - 1) + if Spurious(run[n - 1], steps[n - 1], t) then 1 else 0
  }

  /** The steps that t needs before it can return, if nothing goes wrong from now on. */
  ghost function ToGo(s: System, t: nat): nat
    requires t in s.threads
  {
    match s.threads[t]
    case RecordRead(_) => 2
    case RecordLoop(_, current) => if s.word == current then 1 else 2
    case _ => 0
  }

  /** One step: t comes nearer, or was beaten, or failed spuriously. */
  lemma StepNearer(s: System, a: Step, t: nat)
    requires Enabled(s, a) && InRecord(s, t) && a != ReturnRecord(t)
    ensures var s' := Do(s, a);
      && InRecord(s', t)
      && |s.log| <= |s'.log|
      && (if a.t == t then 1 else 0) + ToGo(s', t) <=
           ToGo(s, t) + (if Spurious(s, a, t) then 1 else 0) + (|s'.log| - |s.log|)
  {
    hide Pack, Unpack, NextCount, SaturatingSub;
  }

  /** While a call has not returned, its thread has taken at most two steps, besides one for
      every event logged meanwhile and one for every spurious failure. */
  lemma {:induction false} CallsReturn(run: seq<System>, steps: seq<Step>, t: nat, i: nat, n: nat)
    requires IsRun(run, steps) && i <= n <= |steps| && InRecord(run[i], t)
    requires forall m :: i <= m < n ==> steps[m] != ReturnRecord(t)
    ensures InRecord(run[n], t) && |run[i].log| <= |run[n].log|
    ensures Taken(steps, t, i, n) + ToGo(run[n], t) <=
      2 + SpuriousFailures(run, steps, t, i, n) + (|run[n].log| - |run[i].log|)
  {
    hide Enabled, Do, Init, InRecord, Spurious, ToGo;
    if i == n {
      AtMostTwo(run[i], t);
    } else {
      CallsReturn(run, steps, t, i, n - 1);
      StepNearer(run[n - 1], steps[n - 1], t);
    }
  }

  lemma AtMostTwo(s: System, t: nat)
    requires InRecord(s, t)
    ensures ToGo(s, t) <= 2
  {
  }

  ghost predicate InCheck(s: System, t: nat) {
    t in s.threads && (s.threads[t].CheckRead? || s.threads[t].CheckReset?)
  }

  ghost function CheckToGo(s: System, t: nat): nat
    requires t in s.threads
  {
    if s.threads[t].CheckRead? then 2 else if s.threads[t].CheckReset? then 1 else 0
  }

  lemma CheckNearer(s: System, a: Step, t: nat)
    requires Enabled(s, a) && InCheck(s, t)
    ensures var s' := Do(s, a);
      t in s'.threads && (if a.t == t then 1 else 0) + CheckToGo(s', t) <= CheckToGo(s, t)
      && (a.t == t && s.threads[t].CheckReset? ==> s'.threads[t] == Idle)
  {
    hide Pack, Unpack, NextCount, SaturatingSub;
  }

  /** A health check takes at most two steps, a load and perhaps a swap, and the second ends
      it whether it succeeds or not. */
  lemma {:induction false} ChecksReturn(run: seq<System>, steps: seq<Step>, t: nat, i: nat, n: nat)
    requires IsRun(run, steps) && i <= n <= |steps|
    requires forall m :: i <= m < n ==> InCheck(run[m], t)
    requires t in run[i].threads
    ensures t in run[n].threads && Taken(steps, t, i, n) + CheckToGo(run[n], t) <= 2
    ensures i < n && steps[n - 1] == CasReset(t) ==> run[n].threads[t] == Idle
  {
    hide Do, Init, InCheck, CheckToGo;
    if i == n {
      CheckAtMostTwo(run[i], t);
    } else {
      ChecksReturn(run, steps, t, i, n - 1);
      CheckNearer(run[n - 1], steps[n - 1], t);
    }
  }

  lemma CheckAtMostTwo(s: System, t: nat)
    requires t in s.threads
    ensures CheckToGo(s, t) <= 2
  {
  }

  // ---------- the readings that are logged ----------

  /** The clock readings with which t began its record calls. */
  ghost function Begun(steps: seq<Step>, t: nat): seq<U64> {
    if steps == [] then []
    else
      var a := steps[|steps| - 1];
      Begun(steps[..|steps| - 1], t) + (if a.StartRecord? && a.t == t then [a.now] else [])
  }

  ghost function NotLogged(c: Control): seq<U64> {
    if c.RecordRead? || c.RecordLoop? then [c.now] else []
  }

  lemma LoggedStep(s: System, a: Step, t: nat, begun: seq<U64>)
    requires Enabled(s, a) && t in s.threads
    requires RecordsOf(s.log, t) + NotLogged(s.threads[t]) == begun
    ensures t in Do(s, a).threads
    ensures RecordsOf(Do(s, a).log, t) + NotLogged(Do(s, a).threads[t]) ==
      begun + (if a.StartRecord? && a.t == t then [a.now] else [])
  {
    hide Pack, Unpack, NextCount, RecordsOf, SaturatingSub;
    var c := s.threads[a.t];
    if a.CasOk? {
      RecordsAppend(s.log, Record(a.t, c.now), t);
    } else if a.CasReset? && s.word == c.current {
      RecordsAppend(s.log, Reset(a.t, c.now), t);
    }
  }

  /** Every call that began is in the log once, with the clock reading it took when it
      began, in the thread's order; only the current one may be missing yet. */
  lemma {:induction false} LoggedAsBegun(run: seq<System>, steps: seq<Step>, i: nat, t: nat)
    requires IsRun(run, steps) && i < |run| && t in run[0].threads
    ensures t in run[i].threads
    ensures RecordsOf(run[i].log, t) + NotLogged(run[i].threads[t]) == Begun(steps[..i], t)
  {
    hide Enabled, Do, NotLogged;
    if i == 0 {
      NothingLogged(run[0], t);
    } else {
      LoggedAsBegun(run, steps, i - 1, t);
      LoggedStep(run[i - 1], steps[i - 1], t, Begun(steps[..i - 1], t));
      assert steps[..i][..i - 1] == steps[..i - 1];
    }
  }

  lemma NothingLogged(s: System, t: nat)
    requires Init(s) && t in s.threads
    ensures RecordsOf(s.log, t) + NotLogged(s.threads[t]) == []
  {
  }

  /** A health check answers with one entry, by the clock reading it began with, at the
      load: the word of that moment decides it. */
  lemma AnswersAsBegun(run: seq<System>, steps: seq<Step>, j: nat, i: nat, t: nat, now: U64)
    requires IsRun(run, steps) && j < i < |steps| && AwayFrom(steps, j + 1, i, t)
    requires steps[j] == StartCheck(t, now) && steps[i] == LoadForCheck(t)
    ensures |run[i + 1].answers| == |run[i].answers| + 1 && run[i].answers <= run[i + 1].answers
    ensures var answer := run[i + 1].answers[|run[i].answers|];
      answer.thread == t && answer.now == now && answer.at == |run[i].log|
  {
    hide Pack, Unpack, SaturatingSub;
    assert Enabled(run[j], steps[j]) && Enabled(run[i], steps[i]);
    ThreadWaits(run, steps, j + 1, i, t);
  }
}
