/** The process-wide circuit breaker: one atomic 64-bit word, updated by any number
    of threads with compare-and-swap loops and no lock. */
module GlobalBreaker {

  const TWO32: nat := 0x1_0000_0000
  const U32_MAX: nat := 0xFFFF_FFFF

  const FAIL_THRESHOLD: nat := 30
  const TIME_WINDOW_SEC: nat := 60

  type Word = w: nat | w < 0x1_0000_0000_0000_0000
  type U64 = t: nat | t < 0x1_0000_0000_0000_0000
  type U32 = c: nat | c < 0x1_0000_0000

  // ---------- the packed word ----------

  /** `(last << 32) | count`: the shift drops the high half of `last`, and leaves
      32 zero bits, so the disjunction is a sum. */
  function Pack(last: U64, count: U32): Word {
    (last % TWO32) * TWO32 + count
  }

  /** `(state >> 32, state as u32)` */
  function Unpack(state: Word): (U64, U32) {
    (state / TWO32, state % TWO32)
  }

  /** Packing loses nothing exactly while the timestamp fits in 32 bits. */
  lemma UnpackPackIff(last: U64, count: U32)
    ensures Unpack(Pack(last, count)) == (last % TWO32, count)
    ensures Unpack(Pack(last, count)) == (last, count) <==> last < TWO32
  {
    UnpackPack(last % TWO32, count);
  }

  lemma UnpackPack(high: nat, low: nat)
    requires low < TWO32
    ensures (high * TWO32 + low) / TWO32 == high && (high * TWO32 + low) % TWO32 == low
  {
  }

  /** Every word is the packing of what it unpacks to. */
  lemma PackUnpack(state: Word)
    ensures Unpack(state).0 < TWO32 && Pack(Unpack(state).0, Unpack(state).1) == state
  {
  }

  /** The same on machine words: the shifted halves never overlap, so or is plus, and
      the timestamp comes back exactly when it fits in 32 bits. */
  lemma BitsRoundTrip(last: bv64, count: bv64)
    requires count >> 32 == 0
    ensures ((last << 32) | count) >> 32 == last <==> last >> 32 == 0
    ensures ((last << 32) | count) & 0xFFFF_FFFF == count
    ensures (last << 32) | count == (last << 32) + count
  {
  }

  function SaturatingSub(a: nat, b: nat): nat {
    if a < b then 0 else a - b
  }

  function SaturatingInc(c: U32): U32 {
    if c == U32_MAX then c else c + 1
  }

  // ---------- the sequential meaning ----------

  /** A successful compare-and-swap: a failure recorded by a thread whose clock
      read `now`, or a reset by a health check whose clock read `now`. */
  datatype Event = Record(thread: nat, now: U64) | Reset(thread: nat, now: U64)

  datatype Tally = Tally(last: U64, count: U32)

  const ZERO := Tally(0, 0)

  /** What one event does to (last failure, count), as if nothing ran beside it. */
  function Apply(t: Tally, e: Event): Tally {
    match e
    case Record(_, now) =>
      Tally(now % TWO32, if SaturatingSub(now, t.last) > TIME_WINDOW_SEC then 1 else SaturatingInc(t.count))
    case Reset(_, _) => ZERO
  }

  function Fold(log: seq<Event>): Tally {
    if log == [] then ZERO else Apply(Fold(log[..|log| - 1]), log[|log| - 1])
  }

  // ---------- the streak of failures ----------

  /** Event i continues the streak of event i-1: both are failures, and i's clock
      reading is at most the window after the timestamp i-1 left behind. */
  predicate Continues(log: seq<Event>, i: nat)
    requires i < |log|
  {
    && i > 0 && log[i].Record? && log[i - 1].Record?
    && SaturatingSub(log[i].now, log[i - 1].now % TWO32) <= TIME_WINDOW_SEC
  }

  /** The last k events are failures, each continuing the one before. */
  ghost predicate EndsInStreak(log: seq<Event>, k: nat) {
    && k <= |log|
    && (forall i :: |log| - k <= i < |log| ==> log[i].Record?)
    && (forall i :: |log| - k < i < |log| ==> Continues(log, i))
  }

  /** ... and no longer streak ends here. */
  ghost predicate LongestStreak(log: seq<Event>, k: nat) {
    && EndsInStreak(log, k)
    && forall k': nat :: EndsInStreak(log, k') ==> k' <= k
  }

  function Saturate(k: nat): U32 {
    if k <= U32_MAX then k else U32_MAX
  }

  lemma StreakExtends(log: seq<Event>, e: Event, k: nat)
    requires LongestStreak(log, k)
    requires e.Record? && log != [] && Continues(log + [e], |log|)
    ensures LongestStreak(log + [e], k + 1) && k > 0
  {
    var all := log + [e];
    assert EndsInStreak(log, 1);
    forall i | |all| - (k + 1) < i < |all| ensures Continues(all, i) {
      if i < |log| { assert Continues(log, i); }
    }
    forall k': nat | EndsInStreak(all, k') ensures k' <= k + 1 {
      if k' > 0 {
        forall i | |log| - (k' - 1) < i < |log| ensures Continues(log, i) {
          assert Continues(all, i);
        }
        forall i | |log| - (k' - 1) <= i < |log| ensures log[i].Record? {
          assert all[i].Record?;
        }
        assert EndsInStreak(log, k' - 1);
      }
    }
  }

  lemma StreakRestarts(log: seq<Event>, e: Event)
    requires e.Record? && !Continues(log + [e], |log|)
    ensures LongestStreak(log + [e], 1)
  {
    var all := log + [e];
    assert !Continues(all, |log|);
  }

  lemma StreakEmpty(log: seq<Event>)
    requires log == [] || log[|log| - 1].Reset?
    ensures LongestStreak(log, 0)
  {
  }

  /** The fold's count is the length of the current streak, saturated, and its
      timestamp is the (32-bit) clock reading of the latest failure. */
  lemma {:induction false} FoldIsStreak(log: seq<Event>) returns (k: nat)
    ensures LongestStreak(log, k) && Fold(log).count == Saturate(k)
    ensures Fold(log).last == if log != [] && log[|log| - 1].Record? then log[|log| - 1].now % TWO32 else 0
    ensures k == 0 <==> (log == [] || log[|log| - 1].Reset?)
  {
    if log == [] || log[|log| - 1].Reset? {
      k := 0;
      StreakEmpty(log);
    } else {
      var prev, e := log[..|log| - 1], log[|log| - 1];
      assert log == prev + [e];
      var j := FoldIsStreak(prev);
      if Continues(log, |prev|) {
        StreakExtends(prev, e, j);
        k := j + 1;
      } else {
        StreakRestarts(prev, e);
        k := 1;
      }
    }
  }

  // ---------- the threads ----------

  /** Where a thread stands.  A thread reads the clock before it loads the word, and
      keeps that reading through every retry. */
  datatype Control =
    | Idle
    | RecordRead(now: U64)                     // clock read, word not loaded yet
    | RecordLoop(now: U64, current: Word)      // about to try compare_exchange_weak
    | RecordReturn(now: U64)                   // it succeeded, call not returned yet
    | CheckRead(now: U64)
    | CheckReset(now: U64, current: Word)      // about to try compare_exchange to zero

  /** A health check's answer, with the log length when it loaded the word. */
  datatype Answer = Answer(thread: nat, now: U64, healthy: bool, at: nat)

  /** The shared word and the threads; `log`, `returned` and `answers` only remember
      what happened. */
  datatype System = System(
    word: Word,
    threads: map<nat, Control>,
    log: seq<Event>,
    returned: map<nat, seq<U64>>,
    answers: seq<Answer>)

  datatype Step =
    | StartRecord(t: nat, now: U64)
    | LoadForRecord(t: nat)
    | CasOk(t: nat)
    | CasFail(t: nat)          // real or spurious: the weak form may fail either way
    | ReturnRecord(t: nat)
    | StartCheck(t: nat, now: U64)
    | LoadForCheck(t: nat)
    | CasReset(t: nat)

  ghost predicate Init(s: System) {
    && s.word == 0 && s.log == [] && s.answers == []
    && s.threads.Keys == s.returned.Keys
    && forall t :: t in s.threads ==> s.threads[t] == Idle && s.returned[t] == []
  }

  function NextCount(now: U64, last: U64, count: U32): U32 {
    if SaturatingSub(now, last) > TIME_WINDOW_SEC then 1 else SaturatingInc(count)
  }

  ghost predicate Enabled(s: System, a: Step) {
    && a.t in s.threads && a.t in s.returned
    && var c := s.threads[a.t];
    match a
    case StartRecord(_, _) => c == Idle
    case LoadForRecord(_) => c.RecordRead?
    case CasOk(_) => c.RecordLoop? && s.word == c.current
    case CasFail(_) => c.RecordLoop?
    case ReturnRecord(_) => c.RecordReturn?
    case StartCheck(_, _) => c == Idle
    case LoadForCheck(_) => c.CheckRead?
    case CasReset(_) => c.CheckReset?
  }

  /** One atomic step of one thread. */
  ghost function Do(s: System, a: Step): System
    requires Enabled(s, a)
  {
    var c := s.threads[a.t];
    match a
    case StartRecord(t, now) => s.(threads := s.threads[t := RecordRead(now)])
    case LoadForRecord(t) => s.(threads := s.threads[t := RecordLoop(c.now, s.word)])
    case CasOk(t) =>
      var (last, count) := Unpack(c.current);
      s.(word := Pack(c.now, NextCount(c.now, last, count)),
         threads := s.threads[t := RecordReturn(c.now)],
         log := s.log + [Record(t, c.now)])
    case CasFail(t) => s.(threads := s.threads[t := RecordLoop(c.now, s.word)])
    case ReturnRecord(t) =>
      s.(threads := s.threads[t := Idle], returned := s.returned[t := s.returned[t] + [c.now]])
    case StartCheck(t, now) => s.(threads := s.threads[t := CheckRead(now)])
    case LoadForCheck(t) =>
      var (last, count) := Unpack(s.word);
      if count < FAIL_THRESHOLD then
        s.(threads := s.threads[t := Idle], answers := s.answers + [Answer(t, c.now, true, |s.log|)])
      else if SaturatingSub(c.now, last) < TIME_WINDOW_SEC then
        s.(threads := s.threads[t := Idle], answers := s.answers + [Answer(t, c.now, false, |s.log|)])
      else
        s.(threads := s.threads[t := CheckReset(c.now, s.word)],
          answers := s.answers + [Answer(t, c.now, true, |s.log|)])
    case CasReset(t) =>
      if s.word == c.current then
        s.(word := Pack(0, 0), threads := s.threads[t := Idle], log := s.log + [Reset(t, c.now)])
      else
        s.(threads := s.threads[t := Idle])
  }

  /** The states of a run: any steps of any threads, in any order. */
  ghost predicate IsRun(run: seq<System>, steps: seq<Step>) {
    && |run| == |steps| + 1 && Init(run[0])
    && forall i :: 0 <= i < |steps| ==> Enabled(run[i], steps[i]) && run[i + 1] == Do(run[i], steps[i])
  }

  // ---------- the refinement ----------

  /** The clock readings of the failures thread t has in the log. */
  function RecordsOf(log: seq<Event>, t: nat): seq<U64> {
    if log == [] then []
    else
      var e := log[|log| - 1];
      RecordsOf(log[..|log| - 1], t) + (if e.Record? && e.thread == t then [e.now] else [])
  }

  ghost function Unreturned(c: Control): seq<U64> {
    if c.RecordReturn? then [c.now] else []
  }

  /** What a health check that loaded the word when the log was `seen` must answer. */
  ghost predicate Tripped(seen: seq<Event>, now: U64) {
    var tally := Fold(seen);
    tally.count >= FAIL_THRESHOLD && SaturatingSub(now, tally.last) < TIME_WINDOW_SEC
  }

  /** A reset is allowed only when the streak is over the threshold and its latest
      failure is at least the window old by the resetting thread's clock. */
  ghost predicate ResetJustified(before: seq<Event>, now: U64) {
    var tally := Fold(before);
    tally.count >= FAIL_THRESHOLD && SaturatingSub(now, tally.last) >= TIME_WINDOW_SEC
  }

  ghost predicate WordInv(s: System) {
    Unpack(s.word) == (Fold(s.log).last, Fold(s.log).count) && Fold(s.log).last < TWO32
  }

  ghost predicate RecordInv(s: System) {
    s.threads.Keys == s.returned.Keys && forall t :: t in s.threads ==> Accounted(s, t)
  }

  ghost predicate Accounted(s: System, t: nat)
    requires t in s.threads && t in s.returned
  {
    RecordsOf(s.log, t) == s.returned[t] + Unreturned(s.threads[t])
  }

  ghost predicate AnswerInv(s: System) {
    forall i :: 0 <= i < |s.answers| ==>
      s.answers[i].at <= |s.log| && (s.answers[i].healthy <==> !Tripped(s.log[..s.answers[i].at], s.answers[i].now))
  }

  ghost predicate ResetInv(s: System) {
    && (forall i :: 0 <= i < |s.log| && s.log[i].Reset? ==> ResetJustified(s.log[..i], s.log[i].now))
    && (forall t :: t in s.threads && s.threads[t].CheckReset? ==>
         var (last, count) := Unpack(s.threads[t].current);
         count >= FAIL_THRESHOLD && SaturatingSub(s.threads[t].now, last) >= TIME_WINDOW_SEC)
  }

  lemma FoldAppend(log: seq<Event>, e: Event)
    ensures Fold(log + [e]) == Apply(Fold(log), e)
  {
    assert (log + [e])[..|log|] == log;
  }

  lemma WordStep(s: System, a: Step)
    requires WordInv(s) && Enabled(s, a)
    ensures WordInv(Do(s, a))
  {
    hide Fold, Pack, Unpack, SaturatingSub, SaturatingInc;
    var c := s.threads[a.t];
    if a.CasOk? {
      FoldAppend(s.log, Record(a.t, c.now));
      UnpackPackIff(c.now, NextCount(c.now, Fold(s.log).last, Fold(s.log).count));
    } else if a.CasReset? && s.word == c.current {
      FoldAppend(s.log, Reset(a.t, c.now));
      UnpackPackIff(0, 0);
    }
  }

  lemma RecordsAppend(log: seq<Event>, e: Event, t: nat)
    ensures RecordsOf(log + [e], t) == RecordsOf(log, t) + (if e.Record? && e.thread == t then [e.now] else [])
  {
    assert (log + [e])[..|log|] == log;
  }

  lemma AccountedStep(s: System, a: Step, t: nat)
    requires Enabled(s, a) && t in s.threads && t in s.returned && Accounted(s, t)
    ensures t in Do(s, a).threads && t in Do(s, a).returned && Accounted(Do(s, a), t)
  {
    hide Pack, Unpack, NextCount, RecordsOf, SaturatingSub;
    var s' := Do(s, a);
    var c := s.threads[a.t];
    if a.CasOk? {
      RecordsAppend(s.log, Record(a.t, c.now), t);
    } else if a.CasReset? && s.word == c.current {
      RecordsAppend(s.log, Reset(a.t, c.now), t);
    } else {
      assert s'.log == s.log;
    }
  }

  lemma RecordStep(s: System, a: Step)
    requires RecordInv(s) && Enabled(s, a)
    ensures RecordInv(Do(s, a))
  {
    var s' := Do(s, a);
    assert s'.threads.Keys == s.threads.Keys && s'.returned.Keys == s.returned.Keys;
    forall t | t in s'.threads ensures Accounted(s', t) {
      AccountedStep(s, a, t);
    }
  }

  lemma AnswerStep(s: System, a: Step)
    requires WordInv(s) && AnswerInv(s) && Enabled(s, a)
    ensures AnswerInv(Do(s, a))
  {
    var s' := Do(s, a);
    assert s.log[..|s.log|] == s.log;
    forall i | 0 <= i < |s'.answers|
      ensures s'.answers[i].at <= |s'.log|
      ensures s'.answers[i].healthy <==> !Tripped(s'.log[..s'.answers[i].at], s'.answers[i].now)
    {
      assert s'.log[..s'.answers[i].at] == s.log[..s'.answers[i].at];
    }
  }

  lemma ResetStep(s: System, a: Step)
    requires WordInv(s) && ResetInv(s) && Enabled(s, a)
    ensures ResetInv(Do(s, a))
  {
    var s' := Do(s, a);
    forall i | 0 <= i < |s'.log| && s'.log[i].Reset? ensures ResetJustified(s'.log[..i], s'.log[i].now) {
      assert s'.log[..i] == s.log[..i];
      assert s.log[..|s.log|] == s.log;
    }
  }

  lemma {:induction false} RunInvariants(run: seq<System>, steps: seq<Step>, i: nat)
    requires IsRun(run, steps) && i < |run|
    ensures WordInv(run[i]) && RecordInv(run[i]) && AnswerInv(run[i]) && ResetInv(run[i])
  {
    if i > 0 {
      RunInvariants(run, steps, i - 1);
      WordStep(run[i - 1], steps[i - 1]);
      RecordStep(run[i - 1], steps[i - 1]);
      AnswerStep(run[i - 1], steps[i - 1]);
      ResetStep(run[i - 1], steps[i - 1]);
    }
  }

  /** Refinement: in every interleaving, stale clock readings and spurious failures
      included, the shared word is the sequential fold of the successful swaps, and
      its count is the length of the current streak of failures, saturated. */
  lemma WordIsFold(run: seq<System>, steps: seq<Step>, i: nat) returns (k: nat)
    requires IsRun(run, steps) && i < |run|
    ensures Unpack(run[i].word) == (Fold(run[i].log).last, Fold(run[i].log).count)
    ensures LongestStreak(run[i].log, k) && Unpack(run[i].word).1 == Saturate(k)
  {
    RunInvariants(run, steps, i);
    k := FoldIsStreak(run[i].log);
  }

  /** No failure is lost or counted twice: the failures a thread has in the log are
      the calls it has returned from, in order, plus the one it is returning from. */
  lemma NoFailureLostOrRepeated(run: seq<System>, steps: seq<Step>, i: nat, t: nat)
    requires IsRun(run, steps) && i < |run| && t in run[i].threads
    ensures t in run[i].returned
    ensures RecordsOf(run[i].log, t) == run[i].returned[t] + Unreturned(run[i].threads[t])
  {
    RunInvariants(run, steps, i);
  }

  /** A health check answers false exactly when, at its load, the word held a streak of
      at least 30 failures whose latest timestamp was under a minute old by its clock. */
  lemma UnhealthyIffStreak(run: seq<System>, steps: seq<Step>, i: nat, a: nat) returns (k: nat)
    requires IsRun(run, steps) && i < |run| && a < |run[i].answers|
    ensures var answer := run[i].answers[a];
      && answer.at <= |run[i].log|
      && LongestStreak(run[i].log[..answer.at], k)
      && (!answer.healthy <==>
           k >= 30 && SaturatingSub(answer.now, run[i].log[answer.at - 1].now % TWO32) < 60)
  {
    RunInvariants(run, steps, i);
    var answer := run[i].answers[a];
    k := FoldIsStreak(run[i].log[..answer.at]);
  }

  /** A reset only ever discards a streak over the threshold whose latest timestamp
      is at least a minute old by the clock of the thread that resets. */
  lemma ResetsAreJustified(run: seq<System>, steps: seq<Step>, i: nat, e: nat) returns (k: nat)
    requires IsRun(run, steps) && i < |run| && e < |run[i].log| && run[i].log[e].Reset?
    ensures e > 0 && LongestStreak(run[i].log[..e], k) && k >= 30
    ensures SaturatingSub(run[i].log[e].now, run[i].log[e - 1].now % TWO32) >= 60
  {
    RunInvariants(run, steps, i);
    k := FoldIsStreak(run[i].log[..e]);
  }
}
