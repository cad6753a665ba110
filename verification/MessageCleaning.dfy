/** Normalising a message history for providers that refuse adjacent user or system
    messages: drop empty messages and join neighbours. */
module MessageCleaning {
  import opened Options

  datatype Message = Message(
    role: string, content: Option<string>, name: Option<string>, calls: seq<string>, callId: Option<string>)

  /** KeyError is what joining onto a message without content raises. */
  datatype Outcome = Cleaned(messages: seq<Message>) | KeyError

  const SEPARATOR: string := "\n\n"

  predicate HasText(o: Option<string>) {
    o != None && o.value != ""
  }

  predicate Empty(m: Message) {
    !HasText(m.content) && m.calls == [] && !HasText(m.callId)
  }

  function Built(m: Message): Message {
    if m.calls != [] && !HasText(m.content) then m.(content := Some("")) else m
  }

  /** b is joined onto a when it follows a. */
  predicate Joins(a: Message, b: Message) {
    a.role == b.role && (b.role == "user" || b.role == "system") && b.calls == [] && !HasText(b.callId) && a.calls == []
  }

  function TextOf(m: Message): string {
    if m.content == None then "" else m.content.value
  }

  /** What the loop body does with one message. */
  function Add(cleaned: seq<Message>, m: Message): Outcome {
    if Empty(m) then Cleaned(cleaned)
    else
      var built := Built(m);
      if cleaned != [] && Joins(cleaned[|cleaned| - 1], built) then
        var last := cleaned[|cleaned| - 1];
        if last.content == None then KeyError
        else Cleaned(cleaned[..|cleaned| - 1] +
          [last.(content := Some(last.content.value + SEPARATOR + TextOf(built)))])
      else Cleaned(cleaned + [built])
  }

  function Clean(ms: seq<Message>): Outcome {
    if ms == [] then Cleaned([])
    else
      var r := Clean(ms[..|ms| - 1]);
      if r.KeyError? then r else Add(r.messages, ms[|ms| - 1])
  }

  method CleanMessages(messages: seq<Message>) returns (r: Outcome)
    ensures r == Clean(messages)
  {
    hide Empty, Joins, Built;
    var cleaned: seq<Message> := [];
    for i := 0 to |messages|
      invariant Clean(messages[..i]) == Cleaned(cleaned)
    {
      assert messages[..i + 1][..i] == messages[..i];
      var m := messages[i];
      if Empty(m) { continue; }
      var built := Built(m);
      if cleaned != [] && Joins(cleaned[|cleaned| - 1], built) {
        var last := cleaned[|cleaned| - 1];
        if last.content == None {
          FailureStays(messages, i + 1, |messages|);
          assert messages[..|messages|] == messages;
          return KeyError;
        }
        cleaned := cleaned[|cleaned| - 1 := last.(content := Some(last.content.value + SEPARATOR + TextOf(built)))];
      } else {
        cleaned := cleaned + [built];
      }
    }
    assert messages[..|messages|] == messages;
    return Cleaned(cleaned);
  }

  lemma {:induction false} FailureStays(ms: seq<Message>, k: nat, n: nat)
    requires k <= n <= |ms| && Clean(ms[..k]) == KeyError
    ensures Clean(ms[..n]) == KeyError
    decreases n
  {
    if k < n {
      FailureStays(ms, k, n - 1);
      assert ms[..n][..n - 1] == ms[..n - 1];
    }
  }

  // ---------- what it means: maximal runs, joined ----------

  /** The non-empty messages, with the content the code gives them. */
  function Kept(ms: seq<Message>): seq<Message> {
    if ms == [] then []
    else Kept(ms[..|ms| - 1]) + if Empty(ms[|ms| - 1]) then [] else [Built(ms[|ms| - 1])]
  }

  function Flatten(runs: seq<seq<Message>>): seq<Message> {
    if runs == [] then [] else Flatten(runs[..|runs| - 1]) + runs[|runs| - 1]
  }

  /** Consecutive messages that join one onto the other. */
  ghost predicate IsRun(run: seq<Message>) {
    run != [] && forall i :: 0 < i < |run| ==> Joins(run[i - 1], run[i])
  }

  /** kept is cut exactly where neighbours do not join. */
  ghost predicate AreRuns(runs: seq<seq<Message>>, kept: seq<Message>) {
    && Flatten(runs) == kept
    && (forall i :: 0 <= i < |runs| ==> IsRun(runs[i]))
    && (forall i :: 0 < i < |runs| ==> !Joins(runs[i - 1][|runs[i - 1]| - 1], runs[i][0]))
  }

  function JoinedText(run: seq<Message>): string
    requires run != []
  {
    if |run| == 1 then TextOf(run[0]) else JoinedText(run[..|run| - 1]) + SEPARATOR + TextOf(run[|run| - 1])
  }

  /** A run as one message: the first one, carrying all texts in order. */
  function Merged(run: seq<Message>): Message
    requires run != []
  {
    if |run| == 1 then run[0] else run[0].(content := Some(JoinedText(run)))
  }

  ghost predicate AreMerged(out: seq<Message>, runs: seq<seq<Message>>) {
    |out| == |runs| && forall i :: 0 <= i < |runs| ==> runs[i] != [] && out[i] == Merged(runs[i])
  }

  /** A message that carries only a tool id is followed by one that would be joined to it. */
  predicate Fails(kept: seq<Message>, j: int) {
    0 < j < |kept| && Joins(kept[j - 1], kept[j]) && kept[j - 1].content == None
  }

  ghost predicate SomeFails(kept: seq<Message>) {
    exists j :: Fails(kept, j)
  }

  ghost predicate AllBuilt(kept: seq<Message>) {
    forall i :: 0 <= i < |kept| ==> !Empty(kept[i]) && Built(kept[i]) == kept[i]
  }

  lemma {:induction false} KeptBuilt(ms: seq<Message>)
    ensures AllBuilt(Kept(ms))
  {
    if ms != [] { KeptBuilt(ms[..|ms| - 1]); }
  }

  /** Everything about the cleaned list so far. */
  ghost predicate Describes(out: seq<Message>, kept: seq<Message>) {
    && AllBuilt(kept)
    && !SomeFails(kept)
    && exists runs :: AreRuns(runs, kept) && AreMerged(out, runs)
  }

  lemma LastOfRuns(runs: seq<seq<Message>>, kept: seq<Message>)
    requires AreRuns(runs, kept) && runs != []
    ensures var run := runs[|runs| - 1];
      run != [] && kept != [] && run[|run| - 1] == kept[|kept| - 1] && |run| <= |kept|
      && run == kept[|kept| - |run|..]
  {
  }

  ghost predicate JoinsAt(kept: seq<Message>, c: int) {
    0 < c < |kept| && Joins(kept[c - 1], kept[c])
  }

  lemma JoinsInLastRun(runs: seq<seq<Message>>, kept: seq<Message>, c: int)
    requires AreRuns(runs, kept) && runs != [] && |kept| - |runs[|runs| - 1]| < c < |kept|
    ensures JoinsAt(kept, c)
  {
    hide Joins;
    LastOfRuns(runs, kept);
    var run := runs[|runs| - 1];
    var cut := |kept| - |run|;
    assert IsRun(run) && run == kept[cut..];
    assert run[c - cut - 1] == kept[c - 1] && run[c - cut] == kept[c];
  }

  /** The last run begins where neighbours last do not join. */
  lemma LastRunIsMaximal(runs: seq<seq<Message>>, kept: seq<Message>)
    requires AreRuns(runs, kept) && runs != []
    ensures var cut := |kept| - |runs[|runs| - 1]|;
      0 <= cut < |kept| && !JoinsAt(kept, cut) && forall c :: cut < c < |kept| ==> JoinsAt(kept, c)
  {
    hide Joins, AreRuns;
    LastOfRuns(runs, kept);
    forall c | |kept| - |runs[|runs| - 1]| < c < |kept| ensures JoinsAt(kept, c) { JoinsInLastRun(runs, kept, c); }
    if |runs| > 1 { LastBefore(runs, kept); } else { OnlyRun(runs, kept); }
  }

  lemma OnlyRun(runs: seq<seq<Message>>, kept: seq<Message>)
    requires AreRuns(runs, kept) && |runs| == 1
    ensures kept == runs[0]
  {
    hide Joins, IsRun;
    assert runs[..0] == [] && Flatten(runs) == [] + runs[0];
  }

  lemma LastBefore(runs: seq<seq<Message>>, kept: seq<Message>)
    requires AreRuns(runs, kept) && |runs| > 1
    ensures var cut := |kept| - |runs[|runs| - 1]|; 0 < cut < |kept| && !Joins(kept[cut - 1], kept[cut])
  {
    hide Joins;
    LastOfRuns(runs, kept);
    var before := runs[..|runs| - 1];
    assert AreRuns(before, Flatten(before));
    LastOfRuns(before, Flatten(before));
    assert kept == Flatten(before) + runs[|runs| - 1];
    assert !Joins(runs[|runs| - 2][|runs[|runs| - 2]| - 1], runs[|runs| - 1][0]);
  }

  /** There is only one way to cut a history into such runs. */
  lemma {:induction false} RunsUnique(runs: seq<seq<Message>>, others: seq<seq<Message>>, kept: seq<Message>)
    requires AreRuns(runs, kept) && AreRuns(others, kept)
    ensures runs == others
    decreases |runs|
  {
    hide Joins, IsRun;
    NoneLeft(others, kept);
    NoneLeft(runs, kept);
    if runs != [] {
      LastOfRuns(runs, kept);
      assert others != [];
      LastOfRuns(others, kept);
      LastRunIsMaximal(runs, kept);
      LastRunIsMaximal(others, kept);
      var k, m := |runs| - 1, |others| - 1;
      assert runs[k] == others[m];
      var front := kept[..|kept| - |runs[k]|];
      assert Flatten(runs[..k]) == front && Flatten(others[..m]) == front;
      RunsUnique(runs[..k], others[..m], front);
      assert runs == runs[..k] + [runs[k]] && others == others[..m] + [others[m]];
    }
  }

  lemma NoneLeft(runs: seq<seq<Message>>, kept: seq<Message>)
    requires AreRuns(runs, kept)
    ensures runs == [] <==> kept == []
  {
    if runs != [] { LastOfRuns(runs, kept); }
  }

  /** In a run all messages have the first one's role, and no calls if there are several. */
  lemma {:induction false} RunAlike(run: seq<Message>, i: nat)
    requires IsRun(run) && i < |run|
    ensures run[i].role == run[0].role && run[i].calls == run[0].calls && (|run| > 1 ==> run[i].calls == [])
  {
    if i > 0 { RunAlike(run, i - 1); }
    if |run| > 1 { assert Joins(run[0], run[1]); }
  }

  lemma MergedJoins(run: seq<Message>, m: Message)
    requires IsRun(run)
    ensures Joins(Merged(run), m) <==> Joins(run[|run| - 1], m)
    ensures Joins(m, Merged(run)) <==> Joins(m, run[0])
  {
    RunAlike(run, |run| - 1);
  }

  lemma MergedOneMore(run: seq<Message>, m: Message)
    requires IsRun(run) && Merged(run).content != None
    ensures Merged(run + [m]) == Merged(run).(content := Some(Merged(run).content.value + SEPARATOR + TextOf(m)))
  {
    var longer := run + [m];
    assert longer[..|longer| - 1] == run && longer[0] == run[0] && longer[|longer| - 1] == m;
    assert JoinedText(longer) == JoinedText(run) + SEPARATOR + TextOf(m);
    assert Merged(run).content.value == JoinedText(run);
  }

  lemma RunOneMore(run: seq<Message>, m: Message)
    requires IsRun(run) && Joins(run[|run| - 1], m)
    ensures IsRun(run + [m])
  {
    hide Joins;
  }

  lemma ExtendLastRun(runs: seq<seq<Message>>, kept: seq<Message>, m: Message)
    requires AreRuns(runs, kept) && runs != [] && Joins(kept[|kept| - 1], m)
    ensures AreRuns(runs[..|runs| - 1] + [runs[|runs| - 1] + [m]], kept + [m])
  {
    hide Joins, IsRun;
    LastOfRuns(runs, kept);
    var before, run := runs[..|runs| - 1], runs[|runs| - 1];
    var runs' := before + [run + [m]];
    RunOneMore(run, m);
    assert runs'[..|before|] == before && (run + [m])[0] == run[0];
    assert Flatten(before) + (run + [m]) == Flatten(runs) + [m];
  }

  lemma StartRun(runs: seq<seq<Message>>, kept: seq<Message>, m: Message)
    requires AreRuns(runs, kept) && (runs != [] ==> !Joins(kept[|kept| - 1], m))
    ensures AreRuns(runs + [[m]], kept + [m])
  {
    hide Joins;
    if runs != [] { LastOfRuns(runs, kept); }
    assert (runs + [[m]])[..|runs|] == runs;
  }

  lemma FailsMore(kept: seq<Message>, m: Message)
    ensures SomeFails(kept + [m]) <==>
            SomeFails(kept) || (kept != [] && Joins(kept[|kept| - 1], m) && kept[|kept| - 1].content == None)
  {
    hide Joins;
    if SomeFails(kept) {
      var j :| Fails(kept, j);
      assert Fails(kept + [m], j);
    }
    if kept != [] && Joins(kept[|kept| - 1], m) && kept[|kept| - 1].content == None {
      assert Fails(kept + [m], |kept|);
    }
    if SomeFails(kept + [m]) {
      var j :| Fails(kept + [m], j);
      assert j < |kept| ==> Fails(kept, j);
    }
  }

  lemma AddDescribes(out: seq<Message>, kept: seq<Message>, m: Message)
    requires Describes(out, kept) && !Empty(m)
    ensures var r := Add(out, m); var kept' := kept + [Built(m)];
      if SomeFails(kept') then r == KeyError else r.Cleaned? && Describes(r.messages, kept')
  {
    hide Joins, AreRuns, SomeFails;
    var built := Built(m);
    var runs :| AreRuns(runs, kept) && AreMerged(out, runs);
    FailsMore(kept, built);
    assert AllBuilt(kept + [built]);
    if out == [] {
      StartRun(runs, kept, built);
      assert kept == [] by { NoRuns(runs, kept); }
      assert AreMerged([built], runs + [[built]]);
      assert Add(out, m).messages == [built];
    } else {
      LastOfRuns(runs, kept);
      var run := runs[|runs| - 1];
      assert IsRun(run) by { RunsAreRuns(runs, kept); }
      MergedJoins(run, built);
      assert Merged(run).content == None <==> kept[|kept| - 1].content == None && |run| == 1;
      if Joins(kept[|kept| - 1], built) {
        ContentInRun(run, kept);
        if Merged(run).content != None {
          ExtendLastRun(runs, kept, built);
          MergedOneMore(run, built);
          assert AreMerged(Add(out, m).messages, runs[..|runs| - 1] + [run + [built]]);
        }
      } else {
        StartRun(runs, kept, built);
        assert AreMerged(out + [built], runs + [[built]]);
        assert Add(out, m).messages == out + [built];
      }
    }
  }

  lemma NoRuns(runs: seq<seq<Message>>, kept: seq<Message>)
    requires AreRuns(runs, kept) && runs == []
    ensures kept == []
  {
  }

  lemma RunsAreRuns(runs: seq<seq<Message>>, kept: seq<Message>)
    requires AreRuns(runs, kept) && runs != []
    ensures IsRun(runs[|runs| - 1])
  {
  }

  /** Only the first message of a run can lack content. */
  lemma ContentInRun(run: seq<Message>, kept: seq<Message>)
    requires IsRun(run) && AllBuilt(kept) && |run| <= |kept| && run == kept[|kept| - |run|..]
    ensures |run| > 1 ==> kept[|kept| - 1].content != None
  {
    if |run| > 1 {
      assert Joins(run[|run| - 2], run[|run| - 1]);
      assert run[|run| - 1] == kept[|kept| - 1];
    }
  }

  /** Cleaning, for every history: it fails exactly when a message with only a tool id is
      followed, empty messages aside, by one that would be joined onto it; otherwise the
      result is the maximal runs of joinable messages, each joined in order. */
  lemma {:induction false} CleanIsMergedRuns(ms: seq<Message>)
    ensures if SomeFails(Kept(ms)) then Clean(ms) == KeyError
            else Clean(ms).Cleaned? && Describes(Clean(ms).messages, Kept(ms))
  {
    hide SomeFails, Describes, Empty, Add;
    if ms == [] {
      NothingDescribed();
    } else {
      var before, m := ms[..|ms| - 1], ms[|ms| - 1];
      CleanIsMergedRuns(before);
      if Empty(m) {
        EmptyAdds(m);
        assert Kept(ms) == Kept(before);
      } else if SomeFails(Kept(before)) {
        FailsMore(Kept(before), Built(m));
      } else {
        AddDescribes(Clean(before).messages, Kept(before), m);
      }
    }
  }

  /** However the history is cut into maximal runs, the result is those runs, joined. */
  lemma {:induction false} CleanJoinsRuns(ms: seq<Message>, runs: seq<seq<Message>>)
    requires Clean(ms).Cleaned? && AreRuns(runs, Kept(ms))
    ensures AreMerged(Clean(ms).messages, runs)
  {
    hide Clean, AreRuns, AreMerged, SomeFails;
    CleanIsMergedRuns(ms);
    var found :| AreRuns(found, Kept(ms)) && AreMerged(Clean(ms).messages, found);
    RunsUnique(runs, found, Kept(ms));
  }

  lemma EmptyAdds(m: Message)
    requires Empty(m)
    ensures forall out :: Add(out, m) == Cleaned(out)
  {
  }

  lemma NothingDescribed()
    ensures !SomeFails([]) && Describes([], [])
  {
    var none: seq<Message> := [];
    assert AreRuns([], none) && AreMerged(none, []);
  }

  /** The exact inputs on which cleaning raises. */
  lemma {:induction false} KeyErrorIff(ms: seq<Message>)
    ensures Clean(ms) == KeyError <==> SomeFails(Kept(ms))
  {
    hide Clean, Kept, SomeFails, Describes;
    CleanIsMergedRuns(ms);
  }

  /** Two messages of a user become one, with an empty line between their texts. */
  lemma TwoBecomeOne(a: string, b: string)
    requires a != "" && b != ""
    ensures Clean([Message("user", Some(a), None, [], None), Message("user", Some(b), None, [], None)]) ==
      Cleaned([Message("user", Some(a + "\n\n" + b), None, [], None)])
  {
    var first, second := Message("user", Some(a), None, [], None), Message("user", Some(b), None, [], None);
    var ms := [first, second];
    assert ms[..1] == [first] && [first][..0] == [];
    assert Clean([first]) == Cleaned([first]);
    assert Add([first], second) == Cleaned([Message("user", Some(a + "\n\n" + b), None, [], None)]);
  }

  /** Such an input: a user message with nothing but a tool id, then an ordinary one. */
  lemma KeyErrorHappens()
    ensures Clean([Message("user", None, None, [], Some("c1")), Message("user", Some("hi"), None, [], None)]) ==
      KeyError
  {
    var first, second := Message("user", None, None, [], Some("c1")), Message("user", Some("hi"), None, [], None);
    var ms := [first, second];
    assert ms[..1] == [first] && [first][..0] == [];
    assert Clean([first]) == Cleaned([first]);
    assert Add([first], second) == KeyError;
  }

  predicate NoToolFields(m: Message) {
    m.role == "user" || m.role == "system" ==> m.calls == [] && !HasText(m.callId)
  }

  lemma {:induction false} KeptFrom(ms: seq<Message>)
    requires forall m :: m in ms ==> NoToolFields(m)
    ensures forall i :: 0 <= i < |Kept(ms)| ==> NoToolFields(Kept(ms)[i])
  {
    if ms != [] {
      var m := ms[|ms| - 1];
      assert m in ms;
      KeptFrom(ms[..|ms| - 1]);
    }
  }

  /** In particular it never raises when user and system messages carry no tool fields. */
  lemma {:induction false} OrdinaryNeverRaises(ms: seq<Message>)
    requires forall m :: m in ms ==> NoToolFields(m)
    ensures Clean(ms).Cleaned?
  {
    hide Kept, Clean, Built;
    KeyErrorIff(ms);
    KeptFrom(ms);
    KeptBuilt(ms);
    var kept := Kept(ms);
    forall j ensures !Fails(kept, j) {
      if 0 < j < |kept| { assert !Empty(kept[j - 1]) && NoToolFields(kept[j - 1]); }
    }
  }

  // ---------- nothing is left to join, and cleaning again changes nothing ----------

  ghost predicate Settled(out: seq<Message>) {
    && AllBuilt(out)
    && forall i :: 0 < i < |out| ==> !Joins(out[i - 1], out[i])
  }

  lemma MergedBuilt(run: seq<Message>)
    requires IsRun(run) && AllBuilt(run)
    ensures !Empty(Merged(run)) && Built(Merged(run)) == Merged(run)
  {
    RunAlike(run, 0);
    if |run| > 1 {
      assert Joins(run[|run| - 2], run[|run| - 1]);
      assert HasText(run[|run| - 1].content);
      assert |JoinedText(run)| > 0;
    }
  }

  lemma {:induction false} RunsBuilt(runs: seq<seq<Message>>, kept: seq<Message>, i: nat)
    requires Flatten(runs) == kept && AllBuilt(kept) && i < |runs|
    ensures AllBuilt(runs[i])
  {
    var n := |runs| - 1;
    var front := Flatten(runs[..n]);
    assert kept == front + runs[n];
    if i < n {
      assert forall k :: 0 <= k < |front| ==> front[k] == kept[k];
      RunsBuilt(runs[..n], front, i);
    } else {
      assert forall k :: 0 <= k < |runs[n]| ==> runs[n][k] == kept[|front| + k];
    }
  }

  lemma DescribedSettles(out: seq<Message>, kept: seq<Message>)
    requires Describes(out, kept)
    ensures Settled(out)
  {
    hide Joins, Empty, Built, Merged;
    var runs :| AreRuns(runs, kept) && AreMerged(out, runs);
    forall i | 0 <= i < |out| ensures !Empty(out[i]) && Built(out[i]) == out[i] {
      RunsBuilt(runs, kept, i);
      MergedBuilt(runs[i]);
    }
    forall i | 0 < i < |out| ensures !Joins(out[i - 1], out[i]) {
      MergedJoins(runs[i - 1], out[i]);
      MergedJoins(runs[i], runs[i - 1][|runs[i - 1]| - 1]);
    }
  }

  lemma {:induction false} SettledStays(out: seq<Message>)
    requires Settled(out)
    ensures Clean(out) == Cleaned(out)
  {
    hide Joins, Empty, Built;
    if out != [] {
      var n := |out| - 1;
      SettledStays(out[..n]);
      assert out[..n] + [out[n]] == out;
      assert n > 0 ==> !Joins(out[n - 1], out[n]);
    }
  }

  /** No two neighbours of the result could still be joined, and cleaning is idempotent. */
  lemma {:induction false} CleanIdempotent(ms: seq<Message>)
    requires Clean(ms).Cleaned?
    ensures var out := Clean(ms).messages;
      && Clean(out) == Cleaned(out)
      && forall i :: 0 < i < |out| ==> !Joins(out[i - 1], out[i])
  {
    hide Joins, Describes, Clean, SomeFails, AllBuilt;
    CleanIsMergedRuns(ms);
    DescribedSettles(Clean(ms).messages, Kept(ms));
    SettledStays(Clean(ms).messages);
  }

  // ---------- nothing is lost ----------

  /** The message has a text, a tool call or a tool id. */
  predicate Says(m: Message) {
    || (m.content != None && m.content.value != "")
    || m.calls != []
    || (m.callId != None && m.callId.value != "")
  }

  /** A kept message is the one it came from; a tool call without a text gets an empty one. */
  predicate SameMessage(kept: Message, m: Message) {
    kept == m || (m.calls != [] && TextOf(m) == "" && kept == m.(content := Some("")))
  }

  /** kept is, in order, exactly the messages at these positions, and those are the ones that
      say something. */
  ghost predicate Picked(ms: seq<Message>, at: seq<nat>, kept: seq<Message>) {
    && |at| == |kept|
    && (forall j, k :: 0 <= j < k < |at| ==> at[j] < at[k])
    && (forall j :: 0 <= j < |at| ==> at[j] < |ms| && SameMessage(kept[j], ms[at[j]]) && Says(ms[at[j]]))
    && (forall i: nat :: i < |ms| && Says(ms[i]) ==> i in at)
  }

  lemma PickedOne(ms: seq<Message>, m: Message, at: seq<nat>, kept: seq<Message>, new_: Message)
    requires Picked(ms, at, kept) && Says(m) && SameMessage(new_, m)
    ensures Picked(ms + [m], at + [|ms|], kept + [new_])
  {
    hide Says, SameMessage;
    var at' := at + [|ms|];
    forall i: nat | i < |ms| + 1 && Says((ms + [m])[i]) ensures i in at' {
      if i < |ms| { assert Says(ms[i]) && i in at; } else { assert at'[|at|] == i; }
    }
  }

  lemma PickedNone(ms: seq<Message>, m: Message, at: seq<nat>, kept: seq<Message>)
    requires Picked(ms, at, kept) && !Says(m)
    ensures Picked(ms + [m], at, kept)
  {
    hide Says, SameMessage;
    forall i: nat | i < |ms| + 1 && Says((ms + [m])[i]) ensures i in at {
      assert i < |ms| ==> Says(ms[i]);
    }
  }

  lemma SaysIsKept(m: Message)
    ensures Says(m) <==> !Empty(m)
    ensures SameMessage(Built(m), m)
  {
  }

  /** Kept picks exactly the messages that say something. */
  lemma {:induction false} KeptIsWhatSays(ms: seq<Message>) returns (at: seq<nat>)
    ensures Picked(ms, at, Kept(ms))
  {
    hide Picked, Says, SameMessage, Empty, Built;
    if ms == [] {
      at := [];
      NothingPicked();
    } else {
      var front, m := ms[..|ms| - 1], ms[|ms| - 1];
      at := KeptIsWhatSays(front);
      assert ms == front + [m];
      SaysIsKept(m);
      if Says(m) {
        PickedOne(front, m, at, Kept(front), Built(m));
        at := at + [|front|];
      } else {
        PickedNone(front, m, at, Kept(front));
        assert Kept(ms) == Kept(front);
      }
    }
  }

  lemma NothingPicked()
    ensures Picked([], [], [])
  {
  }

  ghost predicate Within(x: string, s: string) {
    exists a, b :: s == a + x + b
  }

  lemma WithinMore(x: string, s: string, more: string)
    requires Within(x, s)
    ensures Within(x, s + more)
  {
    var a, b :| s == a + x + b;
    assert s + more == a + x + (b + more);
  }

  lemma {:induction false} JoinedHas(run: seq<Message>, k: nat)
    requires k < |run|
    ensures Within(TextOf(run[k]), JoinedText(run))
  {
    var n := |run| - 1;
    if k < n {
      JoinedHas(run[..n], k);
      WithinMore(TextOf(run[k]), JoinedText(run[..n]), SEPARATOR + TextOf(run[n]));
      assert JoinedText(run) == JoinedText(run[..n]) + (SEPARATOR + TextOf(run[n]));
    } else {
      var before := if n == 0 then "" else JoinedText(run[..n]) + SEPARATOR;
      assert JoinedText(run) == before + TextOf(run[k]) + "";
    }
  }

  /** out carries m: its role, its calls, its tool id and its whole text. */
  ghost predicate Carries(out: Message, m: Message) {
    && out.role == m.role && out.calls == m.calls
    && (HasText(m.callId) ==> out.callId == m.callId)
    && Within(TextOf(m), TextOf(out))
  }

  lemma MergedCarries(run: seq<Message>, k: nat)
    requires IsRun(run) && k < |run|
    ensures Carries(Merged(run), run[k])
    ensures |run| > 1 ==> (run[k].role == "user" || run[k].role == "system") && run[k].calls == []
  {
    hide JoinedText;
    RunAlike(run, k);
    JoinedHas(run, k);
    if |run| == 1 { assert TextOf(run[0]) == "" + TextOf(run[0]) + ""; } else { assert Joins(run[0], run[1]); }
    assert k > 0 ==> Joins(run[k - 1], run[k]);
  }

  lemma {:induction false} FlattenHas(runs: seq<seq<Message>>, j: nat) returns (r: nat, k: nat)
    requires j < |Flatten(runs)|
    ensures r < |runs| && k < |runs[r]| && runs[r][k] == Flatten(runs)[j]
  {
    var n := |runs| - 1;
    var front := Flatten(runs[..n]);
    if j < |front| { r, k := FlattenHas(runs[..n], j); } else { r, k := n, j - |front|; }
  }

  /** Every message that says something is carried by one of the results, with its role, its
      calls, its tool id and its whole text; one that is neither a user's nor a system's, or
      that has calls, is there as it was. */
  lemma NothingLost(ms: seq<Message>, i: nat) returns (o: nat)
    requires i < |ms| && Says(ms[i]) && Clean(ms).Cleaned?
    ensures var out := Clean(ms).messages;
      && o < |out| && Carries(out[o], ms[i])
      && ((ms[i].role != "user" && ms[i].role != "system") || ms[i].calls != [] ==> SameMessage(out[o], ms[i]))
  {
    hide Joins, SomeFails, AllBuilt, Carries, Clean, Kept;
    var out, kept := Clean(ms).messages, Kept(ms);
    CleanIsMergedRuns(ms);
    var runs :| AreRuns(runs, kept) && AreMerged(out, runs);
    var at := KeptIsWhatSays(ms);
    var j :| 0 <= j < |at| && at[j] == i;
    var r, k := FlattenHas(runs, j);
    assert IsRun(runs[r]);
    MergedCarries(runs[r], k);
    SameCarried(out[r], kept[j], ms[i]);
    o := r;
  }

  lemma SameCarried(out: Message, kept: Message, m: Message)
    requires Carries(out, kept) && SameMessage(kept, m)
    ensures Carries(out, m)
  {
  }

  /** What cleaning is for: no two neighbours are left that are both a user's or both a
      system's and carry neither calls nor a tool id. */
  lemma NoNeighboursAlike(ms: seq<Message>, i: nat)
    requires Clean(ms).Cleaned? && 0 < i < |Clean(ms).messages|
    ensures var a, b := Clean(ms).messages[i - 1], Clean(ms).messages[i];
      !(a.role == b.role && a.role in {"user", "system"} && a.calls == [] && b.calls == [] && !HasText(b.callId))
  {
    hide Clean;
    CleanIdempotent(ms);
  }
}
