/** Context pruning: keep the system messages, the first other message and as much of the
    recent history as fits the token budget. */
module Pruning {
  import opened Options

  /** calls are the ids of an assistant's tool calls, callId the call a tool message answers. */
  datatype Message = Message(role: string, content: Option<string>, calls: seq<string>, callId: Option<string>)

  datatype Budget = Budget(maxContext: int, tools: int, reserve: int)

  const DEFAULT_BUDGET := Budget(12000, 3000, 2000)
  const SYSTEM: string := "system"

  /** max(1, int(length / 3.5)) */
  function EstimateTokens(length: nat): (t: nat)
    ensures t >= 1
    ensures length < 4 ==> t == 1
    ensures length >= 4 ==> 7 * t <= 2 * length < 7 * (t + 1)
  {
    if 2 * length / 7 < 1 then 1 else 2 * length / 7
  }

  function Tokens(m: Message): nat {
    EstimateTokens(if m.content == None then 0 else |m.content.value|)
  }

  function TotalTokens(ms: seq<Message>): nat {
    if ms == [] then 0 else Tokens(ms[0]) + TotalTokens(ms[1..])
  }

  function Select(ms: seq<Message>, system: bool): seq<Message> {
    if ms == [] then []
    else
      var m := ms[|ms| - 1];
      Select(ms[..|ms| - 1], system) + if (m.role == SYSTEM) == system then [m] else []
  }

  function Available(b: Budget): int {
    b.maxContext - b.tools - b.reserve
  }

  /** The system messages and the first other message leave this much. */
  function Left(system: seq<Message>, others: seq<Message>, b: Budget): int
    requires others != []
  {
    Available(b) - TotalTokens(system) - Tokens(others[0])
  }

  /** kept is the longest suffix of rest that fits, or the last message if none does. */
  ghost predicate IsRecent(kept: seq<Message>, rest: seq<Message>, left: int) {
    && |kept| <= |rest|
    && kept == rest[|rest| - |kept|..]
    && (TotalTokens(kept) <= left || |kept| <= 1)
    && (rest != [] ==> kept != [])
    && forall i :: 0 <= i < |rest| - |kept| ==> TotalTokens(rest[i..]) > left
  }

  /** What pruning must return. */
  ghost predicate IsPruned(messages: seq<Message>, b: Budget, r: seq<Message>) {
    var system, others := Select(messages, true), Select(messages, false);
    if others == [] then r == system
    else exists kept :: IsRecent(kept, others[1..], Left(system, others, b)) && r == system + [others[0]] + kept
  }

  // ---------- the specification determines the result ----------

  lemma RecentLongest(a: seq<Message>, b: seq<Message>, rest: seq<Message>, left: int)
    requires IsRecent(a, rest, left) && IsRecent(b, rest, left)
    ensures |b| <= |a|
  {
    var k := |rest| - |b|;
    assert TotalTokens(rest[k..]) == TotalTokens(b);
  }

  lemma SameSuffix(a: seq<Message>, b: seq<Message>, rest: seq<Message>, left: int)
    requires IsRecent(a, rest, left) && IsRecent(b, rest, left) && |a| == |b|
    ensures a == b
  {
  }

  lemma PrunedUnique(messages: seq<Message>, b: Budget, r: seq<Message>, r': seq<Message>)
    requires IsPruned(messages, b, r) && IsPruned(messages, b, r')
    ensures r == r'
  {
    hide IsRecent, Select;
    var system, others := Select(messages, true), Select(messages, false);
    if others != [] {
      var rest, left := others[1..], Left(system, others, b);
      var kept :| IsRecent(kept, rest, left) && r == system + [others[0]] + kept;
      var kept' :| IsRecent(kept', rest, left) && r' == system + [others[0]] + kept';
      RecentLongest(kept, kept', rest, left);
      RecentLongest(kept', kept, rest, left);
      assert |kept| == |kept'|;
      assert kept == kept' by { SameSuffix(kept, kept', rest, left); }
    }
  }

  // ---------- pruning again changes nothing ----------

  lemma {:induction false} SelectAppend(a: seq<Message>, b: seq<Message>, system: bool)
    ensures Select(a + b, system) == Select(a, system) + Select(b, system)
  {
    if b == [] {
      assert a + b == a;
    } else {
      assert (a + b)[..|a + b| - 1] == a + b[..|b| - 1];
      SelectAppend(a, b[..|b| - 1], system);
    }
  }

  predicate AllSystem(ms: seq<Message>, system: bool) {
    forall i :: 0 <= i < |ms| ==> (ms[i].role == SYSTEM) == system
  }

  lemma {:induction false} SelectAll(ms: seq<Message>, system: bool)
    requires AllSystem(ms, system)
    ensures Select(ms, system) == ms && Select(ms, !system) == []
  {
    hide Select;
    if ms == [] {
      SelectNone(system);
      SelectNone(!system);
    } else {
      var front, last := ms[..|ms| - 1], ms[|ms| - 1];
      SelectAll(front, system);
      SelectLast(ms, system);
      SelectLast(ms, !system);
      assert (last.role == SYSTEM) == system && ms == front + [last];
    }
  }

  lemma SelectNone(system: bool)
    ensures Select([], system) == []
  {
  }

  lemma SelectLast(ms: seq<Message>, system: bool)
    requires ms != []
    ensures var front, last := ms[..|ms| - 1], ms[|ms| - 1];
      Select(ms, system) == Select(front, system) + (if (last.role == SYSTEM) == system then [last] else [])
  {
  }

  lemma {:induction false} SelectKind(ms: seq<Message>, system: bool)
    ensures AllSystem(Select(ms, system), system)
  {
    if ms != [] { SelectKind(ms[..|ms| - 1], system); }
  }

  lemma {:induction false} SelectBoth(system: seq<Message>, others: seq<Message>)
    requires AllSystem(system, true) && AllSystem(others, false)
    ensures Select(system + others, true) == system && Select(system + others, false) == others
  {
    SelectAppend(system, others, true);
    SelectAppend(system, others, false);
    SelectAll(system, true);
    SelectAll(others, false);
  }

  lemma RecentAgain(kept: seq<Message>, rest: seq<Message>, left: int)
    requires IsRecent(kept, rest, left)
    ensures IsRecent(kept, kept, left)
  {
    assert kept[0..] == kept;
  }

  lemma PrunedIsPruned(messages: seq<Message>, b: Budget, r: seq<Message>)
    requires IsPruned(messages, b, r)
    ensures IsPruned(r, b, r)
  {
    hide IsRecent, Select, AllSystem;
    var system, others := Select(messages, true), Select(messages, false);
    SelectKind(messages, true);
    SelectKind(messages, false);
    if others == [] {
      SelectAll(system, true);
    } else {
      var rest, left := others[1..], Left(system, others, b);
      var kept :| IsRecent(kept, rest, left) && r == system + [others[0]] + kept;
      RecentAgain(kept, rest, left);
      var others' := [others[0]] + kept;
      assert AllSystem(others', false) by { KeptKind(others, kept, left); }
      SelectBoth(system, others');
      assert system + others' == r;
      assert others'[1..] == kept;
      assert Left(system, others', b) == left;
      assert IsRecent(kept, others'[1..], Left(system, others', b)) && r == system + [others'[0]] + kept;
    }
  }

  /** Whatever pruning the result returns, it is the result. */
  lemma PruneIdempotent(messages: seq<Message>, b: Budget, r: seq<Message>, again: seq<Message>)
    requires IsPruned(messages, b, r) && IsPruned(r, b, again)
    ensures again == r
  {
    PrunedIsPruned(messages, b, r);
    PrunedUnique(r, b, r, again);
  }

  lemma KeptKind(others: seq<Message>, kept: seq<Message>, left: int)
    requires others != [] && AllSystem(others, false) && IsRecent(kept, others[1..], left)
    ensures AllSystem([others[0]] + kept, false)
  {
    forall i | 0 <= i < |kept| ensures kept[i].role != SYSTEM {
      assert kept[i] == others[1..][|others| - 1 - |kept| + i];
    }
  }

  // ---------- the budget is met, but for what is always kept ----------

  lemma {:induction false} TotalAppend(a: seq<Message>, b: seq<Message>)
    ensures TotalTokens(a + b) == TotalTokens(a) + TotalTokens(b)
  {
    if a == [] {
      assert a + b == b;
    } else {
      assert (a + b)[1..] == a[1..] + b;
      TotalAppend(a[1..], b);
    }
  }

  lemma LastKept(kept: seq<Message>, rest: seq<Message>, left: int)
    requires rest != [] && IsRecent(kept, rest, left)
    ensures kept != [] && kept[|kept| - 1] == rest[|rest| - 1] && (TotalTokens(kept) <= left || |kept| == 1)
  {
    hide TotalTokens;
  }

  lemma {:induction false} TotalLast(ms: seq<Message>)
    requires ms != []
    ensures TotalTokens(ms) == TotalTokens(ms[..|ms| - 1]) + Tokens(ms[|ms| - 1])
    ensures |ms| == 1 ==> TotalTokens(ms) == Tokens(ms[0])
  {
    var n := |ms| - 1;
    assert ms == ms[..n] + [ms[n]];
    TotalAppend(ms[..n], [ms[n]]);
    TotalOne(ms[n]);
  }

  /** The result is within the budget exactly when the messages that are always kept are:
      the system ones, the first other one and the last one. */
  lemma {:induction false} FitsIff(messages: seq<Message>, b: Budget, r: seq<Message>)
    requires IsPruned(messages, b, r) && |Select(messages, false)| >= 2
    ensures var system, others := Select(messages, true), Select(messages, false);
      TotalTokens(r) <= Available(b) <==>
      TotalTokens(system) + Tokens(others[0]) + Tokens(others[|others| - 1]) <= Available(b)
  {
    hide Select, TotalTokens, IsRecent, Tokens;
    var system, others := Select(messages, true), Select(messages, false);
    var rest, left := others[1..], Left(system, others, b);
    var kept :| IsRecent(kept, rest, left) && r == system + [others[0]] + kept;
    LastKept(kept, rest, left);
    TotalAppend(system + [others[0]], kept);
    TotalAppend(system, [others[0]]);
    TotalOne(others[0]);
    TotalLast(kept);
  }

  lemma TotalOne(m: Message)
    ensures TotalTokens([m]) == Tokens(m)
  {
  }

  // ---------- tool results whose call was cut off ----------

  const ASSISTANT: string := "assistant"
  const TOOL: string := "tool"

  predicate AnswersAll(ms: seq<Message>, calls: seq<string>) {
    |calls| <= |ms| && forall i :: 0 <= i < |calls| ==> ms[i].role == TOOL && ms[i].callId == Some(calls[i])
  }

  function CallsOf(m: Message): seq<string> {
    if m.role == ASSISTANT then m.calls else []
  }

  /** A message and the results of its calls. */
  predicate IsBlock(ms: seq<Message>) {
    ms != [] && |ms| == 1 + |CallsOf(ms[0])| && ms[0].role != TOOL && AnswersAll(ms[1..], CallsOf(ms[0]))
  }

  /** Every assistant message with tool calls is followed by exactly its results, in order,
      and no tool message stands anywhere else. */
  predicate Paired(ms: seq<Message>)
    decreases |ms|
  {
    ms == [] ||
    (var n := 1 + |CallsOf(ms[0])|; n <= |ms| && IsBlock(ms[..n]) && Paired(ms[n..]))
  }

  predicate StartsWithTool(ms: seq<Message>) {
    ms != [] && ms[0].role == TOOL
  }

  /** Only the first message of a block is not a tool message. */
  lemma InsideBlock(block: seq<Message>, i: nat)
    requires IsBlock(block) && i < |block|
    ensures block[i].role == TOOL <==> i > 0
  {
    if i > 0 { assert block[i] == block[1..][i - 1]; }
  }

  lemma BlockPaired(block: seq<Message>, rest: seq<Message>)
    requires IsBlock(block)
    ensures Paired(block + rest) <==> Paired(rest)
  {
    hide IsBlock, CallsOf, AnswersAll;
    BlockSize(block);
    var all := block + rest;
    assert all[..|block|] == block && all[|block|..] == rest && all[0] == block[0];
  }

  lemma BlockSize(block: seq<Message>)
    requires IsBlock(block)
    ensures block != [] && |block| == 1 + |CallsOf(block[0])|
  {
  }

  /** Cutting a paired history anywhere but before a tool message leaves it paired. */
  lemma {:induction false} PairedSuffix(ms: seq<Message>, c: nat)
    requires Paired(ms) && c <= |ms|
    ensures Paired(ms[c..]) <==> !StartsWithTool(ms[c..])
    decreases |ms|
  {
    hide IsBlock, CallsOf, AnswersAll;
    if ms == [] {
    } else {
      var n := 1 + |CallsOf(ms[0])|;
      if c >= n {
        PairedSuffix(ms[n..], c - n);
        assert ms[n..][c - n..] == ms[c..];
      } else {
        InsideBlock(ms[..n], c);
        assert ms[c..][0] == ms[..n][c];
        if c == 0 { assert ms[c..] == ms; } else { ToolUnpaired(ms[c..]); }
      }
    }
  }

  lemma ToolUnpaired(ms: seq<Message>)
    requires StartsWithTool(ms)
    ensures !Paired(ms)
  {
  }

  lemma {:induction false} SelectBlock(block: seq<Message>)
    requires IsBlock(block)
    ensures Select(block, false) == if block[0].role == SYSTEM then [] else block
  {
    hide Select;
    forall i | 0 < i < |block| ensures block[i].role == TOOL { InsideBlock(block, i); }
    SelectAll(block, block[0].role == SYSTEM);
  }

  /** The system messages stand between the blocks. */
  lemma {:induction false} PairedSelect(ms: seq<Message>)
    requires Paired(ms)
    ensures Paired(Select(ms, false))
    decreases |ms|
  {
    hide Select, IsBlock, CallsOf, AnswersAll;
    if ms == [] {
      SelectAll(ms, true);
    } else {
      var n := 1 + |CallsOf(ms[0])|;
      var block, rest := ms[..n], ms[n..];
      assert ms == block + rest;
      SelectAppend(block, rest, false);
      SelectBlock(block);
      PairedSelect(rest);
      BlockPaired(block, Select(rest, false));
      assert [] + Select(rest, false) == Select(rest, false);
    }
  }

  lemma {:induction false} PairedAfterSystem(system: seq<Message>, ms: seq<Message>)
    requires AllSystem(system, true)
    ensures Paired(system + ms) <==> Paired(ms)
  {
    hide Paired;
    if system == [] {
      assert system + ms == ms;
    } else {
      assert system + ms == [system[0]] + (system[1..] + ms);
      PairedAfterSystem(system[1..], ms);
      assert [system[0]][1..] == [];
      BlockPaired([system[0]], system[1..] + ms);
    }
  }

  /** What follows the first message answers its calls, and nothing else is cut in two. */
  predicate CutsBetween(first: Message, kept: seq<Message>) {
    var calls := CallsOf(first);
    AnswersAll(kept, calls) && !StartsWithTool(kept[|calls|..])
  }

  lemma FirstBlock(ms: seq<Message>)
    requires ms != []
    ensures var n := 1 + |CallsOf(ms[0])|; Paired(ms) <==> n <= |ms| && IsBlock(ms[..n]) && Paired(ms[n..])
  {
    hide IsBlock, CallsOf;
  }

  lemma AnsweredBlock(first: Message, answers: seq<Message>)
    requires first.role != TOOL && |answers| == |CallsOf(first)|
    ensures IsBlock([first] + answers) <==> AnswersAll(answers, CallsOf(first))
  {
    assert ([first] + answers)[1..] == answers;
  }

  lemma FirstPaired(first: Message, kept: seq<Message>)
    requires first.role != TOOL
    ensures Paired([first] + kept) <==> AnswersAll(kept, CallsOf(first)) && Paired(kept[|CallsOf(first)|..])
  {
    hide Paired, IsBlock, CallsOf;
    var all, n := [first] + kept, |CallsOf(first)|;
    FirstBlock(all);
    if n <= |kept| {
      assert all[..1 + n] == [first] + kept[..n] && all[1 + n..] == kept[n..];
      AnsweredBlock(first, kept[..n]);
    }
  }

  lemma {:induction false} KeptPairedIff(messages: seq<Message>, b: Budget, system: seq<Message>, first: Message,
                                         kept: seq<Message>)
    requires Paired(messages) && system == Select(messages, true)
    requires Select(messages, false) != [] && first == Select(messages, false)[0]
    requires IsRecent(kept, Select(messages, false)[1..], Left(system, Select(messages, false), b))
    ensures Paired(system + [first] + kept) <==> CutsBetween(first, kept)
  {
    hide Select, TotalTokens, CallsOf, IsRecent, Paired, AllSystem;
    var others := Select(messages, false);
    PairedSelect(messages);
    SelectKind(messages, true);
    assert system + [first] + kept == system + ([first] + kept);
    PairedAfterSystem(system, [first] + kept);
    FirstNotTool(others);
    FirstPaired(first, kept);
    if AnswersAll(kept, CallsOf(first)) {
      var n := |CallsOf(first)|;
      KeptIsSuffix(others, kept, Left(system, others, b), n);
      PairedSuffix(others, |others| - |kept| + n);
    }
  }

  /** Where the recent part begins, read off the history and the budget: as far back as the
      messages from there on fit, but never after the last one and never before the second. */
  predicate IsCut(others: seq<Message>, left: int, c: nat) {
    && 1 <= c <= |others|
    && (c == |others| ==> |others| == 1)
    && (TotalTokens(others[c..]) <= left || c >= |others| - 1)
    && (c == 1 || TotalTokens(others[c - 1..]) > left)
  }

  /** Everything further left in rest costs more than what is left over. */
  lemma {:induction false} LongerCostsMore(rest: seq<Message>, k: nat, left: int)
    requires k <= |rest| && TotalTokens(rest[k..]) > left
    ensures forall i :: 0 <= i <= k ==> TotalTokens(rest[i..]) > left
  {
    if k > 0 {
      assert rest[k - 1..][1..] == rest[k..];
      LongerCostsMore(rest, k - 1, left);
    }
  }

  lemma CutIsRecent(others: seq<Message>, left: int, c: nat)
    requires IsCut(others, left, c)
    ensures IsRecent(others[c..], others[1..], left)
  {
    hide TotalTokens;
    var rest := others[1..];
    assert others[c..] == rest[c - 1..];
    if c > 1 {
      assert others[c - 1..] == rest[c - 2..];
      LongerCostsMore(rest, c - 2, left);
    }
  }

  /** There is always such a cut. */
  lemma {:induction false} CutExists(others: seq<Message>, left: int, c: nat) returns (cut: nat)
    requires 1 <= c <= |others| && (c == |others| ==> |others| == 1)
    requires TotalTokens(others[c..]) <= left || c >= |others| - 1
    ensures IsCut(others, left, cut)
    decreases c
  {
    if c == 1 || TotalTokens(others[c - 1..]) > left { cut := c; } else { cut := CutExists(others, left, c - 1); }
  }

  /** A paired history is paired after pruning if and only if the message the cut falls on
      is not a tool message, or what is kept happens to answer the first message's calls. */
  lemma PairedIff(messages: seq<Message>, b: Budget, r: seq<Message>, c: nat)
    requires Paired(messages) && IsPruned(messages, b, r)
    requires Select(messages, false) != []
    requires IsCut(Select(messages, false), Left(Select(messages, true), Select(messages, false), b), c)
    ensures var others := Select(messages, false); Paired(r) <==> CutsBetween(others[0], others[c..])
  {
    hide Select, TotalTokens, Paired, IsCut, IsRecent, CutsBetween;
    var system, others := Select(messages, true), Select(messages, false);
    CutInRange(others, Left(system, others, b), c);
    CutIsRecent(others, Left(system, others, b), c);
    PrunedUnique(messages, b, r, system + [others[0]] + others[c..]);
    KeptPairedIff(messages, b, system, others[0], others[c..]);
  }

  lemma CutInRange(others: seq<Message>, left: int, c: nat)
    requires IsCut(others, left, c)
    ensures c <= |others|
  {
  }

  /** Only system messages: they stay paired. */
  lemma SystemPaired(messages: seq<Message>, b: Budget, r: seq<Message>)
    requires IsPruned(messages, b, r) && Select(messages, false) == []
    ensures Paired(r)
  {
    hide Select, Paired;
    SelectKind(messages, true);
    PairedAfterSystem(r, []);
    assert r + [] == r;
    NothingPaired();
  }

  lemma FirstNotTool(ms: seq<Message>)
    requires Paired(ms) && ms != []
    ensures ms[0].role != TOOL
  {
  }

  lemma KeptIsSuffix(others: seq<Message>, kept: seq<Message>, left: int, n: nat)
    requires others != [] && IsRecent(kept, others[1..], left) && n <= |kept|
    ensures |kept| < |others| && kept[n..] == others[|others| - |kept| + n..]
  {
  }

  lemma NothingPaired()
    ensures Paired([])
  {
  }

  lemma OrphanUnpaired(user: Message, asked: Message, answer: Message)
    requires IsBlock([user]) && IsBlock([asked, answer]) && answer.role == TOOL
    ensures Paired([user, asked, answer]) && !Paired([user, answer])
  {
    hide Paired, IsBlock;
    NothingPaired();
    BlockPaired([asked, answer], []);
    assert [asked, answer] + [] == [asked, answer];
    BlockPaired([user], [asked, answer]);
    assert [user] + [asked, answer] == [user, asked, answer];
    BlockPaired([user], [answer]);
    assert [user] + [answer] == [user, answer];
    ToolUnpaired([answer]);
  }

  lemma OrphanKept(user: Message, asked: Message, answer: Message, b: Budget)
    requires AllSystem([user, asked, answer], false)
    requires Tokens(asked) + Tokens(answer) > Available(b) - Tokens(user) >= Tokens(answer)
    ensures IsPruned([user, asked, answer], b, [user, answer])
  {
    hide Select, Tokens, Available, IsRecent;
    var ms, rest := [user, asked, answer], [asked, answer];
    SelectAll(ms, false);
    assert ms[1..] == rest && rest[1..] == [answer] && ms[2..] == [answer] && [answer][1..] == [];
    assert TotalTokens([]) == 0 && TotalTokens(rest) == Tokens(asked) + Tokens(answer);
    CutIsRecent(ms, Left([], ms, b), 2);
    assert [] + [user] + [answer] == [user, answer];
  }

  /** It does happen, with the default budget: a long request for a tool, 24500 characters or
      7000 tokens, does not fit any more, and its result is kept without it. */
  lemma OrphanHappens()
    ensures var user := Message("user", Some("go"), [], None);
      var asked := Message(ASSISTANT, Some(seq(24500, i => 'x')), ["c1"], None);
      var answer := Message(TOOL, Some("done"), [], Some("c1"));
      && Paired([user, asked, answer])
      && IsPruned([user, asked, answer], DEFAULT_BUDGET, [user, answer])
      && !Paired([user, answer])
  {
    hide Paired, IsPruned;
    var user := Message("user", Some("go"), [], None);
    var asked := Message(ASSISTANT, Some(seq(24500, i => 'x')), ["c1"], None);
    var answer := Message(TOOL, Some("done"), [], Some("c1"));
    assert [user][1..] == [] && [asked, answer][1..] == [answer];
    OrphanUnpaired(user, asked, answer);
    assert Tokens(user) == 1 && Tokens(asked) == 7000 && Tokens(answer) == 1 && Available(DEFAULT_BUDGET) == 7000;
    OrphanKept(user, asked, answer, DEFAULT_BUDGET);
  }

  // ---------- the loop ----------

  method SystemAndOthers(messages: seq<Message>) returns (system: seq<Message>, others: seq<Message>)
    ensures system == Select(messages, true) && others == Select(messages, false)
  {
    system, others := [], [];
    for i := 0 to |messages|
      invariant system == Select(messages[..i], true) && others == Select(messages[..i], false)
    {
      assert messages[..i + 1][..i] == messages[..i];
      if messages[i].role == SYSTEM { system := system + [messages[i]]; } else { others := others + [messages[i]]; }
    }
    assert messages[..|messages|] == messages;
  }

  method Sum(messages: seq<Message>) returns (total: nat)
    ensures total == TotalTokens(messages)
  {
    total := 0;
    for i := 0 to |messages|
      invariant total == TotalTokens(messages[..i])
    {
      assert messages[..i + 1] == messages[..i] + [messages[i]];
      TotalAppend(messages[..i], [messages[i]]);
      TotalOne(messages[i]);
      total := total + Tokens(messages[i]);
    }
    assert messages[..|messages|] == messages;
  }

  method PruneMessages(messages: seq<Message>, b: Budget) returns (r: seq<Message>)
    ensures IsPruned(messages, b, r)
  {
    hide Select, Tokens;
    if messages == [] {
      assert Select(messages, true) == [] && Select(messages, false) == [] by { SelectAll(messages, true); }
      return messages;
    }
    var system, others := SystemAndOthers(messages);
    if others == [] { return system; }
    var systemTokens := Sum(system);
    var current := systemTokens + Tokens(others[0]);
    ghost var rest, left := others[1..], Left(system, others, b);
    var kept: seq<Message> := [];
    var i := |others|;
    while i > 1
      invariant 1 <= i <= |others| && kept == others[i..]
      invariant current == systemTokens + Tokens(others[0]) + TotalTokens(kept)
      invariant TotalTokens(kept) <= left || |kept| <= 1
    {
      assert others[i - 1..][1..] == others[i..];
      assert TotalTokens(others[i - 1..]) == Tokens(others[i - 1]) + TotalTokens(others[i..]);
      if current + Tokens(others[i - 1]) > Available(b) && kept != [] {
        assert rest[i - 2..] == others[i - 1..];
        LongerCostsMore(rest, i - 2, left);
        break;
      }
      i := i - 1;
      kept := [others[i]] + kept;
      current := current + Tokens(others[i]);
    }
    assert kept == rest[i - 1..];
    assert IsRecent(kept, rest, left);
    return system + [others[0]] + kept;
  }
}
