/** Consensus penalties: each feedback call adds an entry to a record's history and
    recomputes the penalty from the latest opinion of every named role. */
module Feedback {
  import opened Options

  datatype Entry = Entry(role: string, penalty: real)

  /** What a record's metadata holds about feedback. */
  datatype Stored = Stored(history: seq<Entry>, score: real, quorum: nat)

  const NO_FEEDBACK := Stored([], 0.0, 0)
  const UNKNOWN: string := "UNKNOWN"
  const HISTORY_LIMIT: nat := 20

  function Upper(s: string): string {
    seq(|s|, i requires 0 <= i < |s| => if 'a' <= s[i] <= 'z' then s[i] - 'a' + 'A' else s[i])
  }

  function RoleName(role: Option<string>): string {
    if role == None || role.value == "" then UNKNOWN else Upper(role.value)
  }

  /** The last n elements, or all of them. */
  function Last<T>(s: seq<T>, n: nat): seq<T> {
    if |s| <= n then s else s[|s| - n..]
  }

  // ---------- opinions ----------

  /** A dictionary in insertion order. */
  datatype Opinions = Opinions(roles: seq<string>, latest: map<string, real>)

  function Hear(o: Opinions, e: Entry): Opinions {
    if e.role == UNKNOWN then o
    else Opinions(if e.role in o.latest then o.roles else o.roles + [e.role], o.latest[e.role := e.penalty])
  }

  function HearAll(entries: seq<Entry>): Opinions {
    if entries == [] then Opinions([], map[]) else Hear(HearAll(entries[..|entries| - 1]), entries[|entries| - 1])
  }

  ghost function NamedRoles(entries: seq<Entry>): set<string> {
    set e | e in entries && e.role != UNKNOWN :: e.role
  }

  /** The entry at i is the last one of its role, and says v. */
  ghost predicate SpokeLast(entries: seq<Entry>, role: string, v: real, i: int) {
    0 <= i < |entries| && entries[i] == Entry(role, v) && forall j :: i < j < |entries| ==> entries[j].role != role
  }

  ghost predicate IsLatest(entries: seq<Entry>, role: string, v: real) {
    exists i :: SpokeLast(entries, role, v, i)
  }

  ghost predicate Distinct(roles: seq<string>) {
    forall i, j :: 0 <= i < j < |roles| ==> roles[i] != roles[j]
  }

  /** The opinions are those of exactly the named roles, each its latest. */
  ghost predicate Hears(o: Opinions, entries: seq<Entry>) {
    && Distinct(o.roles)
    && (forall r :: r in o.roles <==> r in o.latest)
    && o.latest.Keys == NamedRoles(entries)
    && (forall r :: r in o.latest ==> IsLatest(entries, r, o.latest[r]))
  }

  lemma LatestGrows(before: seq<Entry>, e: Entry, role: string, v: real)
    requires if e.role == role then v == e.penalty else IsLatest(before, role, v)
    ensures IsLatest(before + [e], role, v)
  {
    if e.role == role {
      assert SpokeLast(before + [e], role, v, |before|);
    } else {
      var i :| SpokeLast(before, role, v, i);
      assert SpokeLast(before + [e], role, v, i);
    }
  }

  lemma HearsMore(o: Opinions, before: seq<Entry>, e: Entry)
    requires Hears(o, before)
    ensures Hears(Hear(o, e), before + [e])
  {
    hide IsLatest;
    var o' := Hear(o, e);
    forall r | r in o'.latest ensures IsLatest(before + [e], r, o'.latest[r]) {
      LatestGrows(before, e, r, o'.latest[r]);
    }
    assert NamedRoles(before + [e]) == NamedRoles(before) + (if e.role == UNKNOWN then {} else {e.role}) by {
      assert forall x :: x in before + [e] <==> x in before || x == e;
    }
  }

  lemma {:induction false} HearAllHears(entries: seq<Entry>)
    ensures Hears(HearAll(entries), entries)
  {
    hide Hears;
    if entries == [] {
      NothingHeard();
    } else {
      var before := entries[..|entries| - 1];
      HearAllHears(before);
      HearsMore(HearAll(before), before, entries[|entries| - 1]);
      assert before + [entries[|entries| - 1]] == entries;
    }
  }

  lemma NothingHeard()
    ensures Hears(Opinions([], map[]), [])
  {
  }

  lemma LatestIsUnique(entries: seq<Entry>, role: string, v: real, w: real)
    requires IsLatest(entries, role, v) && IsLatest(entries, role, w)
    ensures v == w
  {
    var i :| SpokeLast(entries, role, v, i);
    var j :| SpokeLast(entries, role, w, j);
    assert i == j;
  }

  // ---------- the mean does not depend on the order of the dictionary ----------

  function Sum(roles: seq<string>, opinion: map<string, real>): real
    requires forall r :: r in roles ==> r in opinion
  {
    if roles == [] then 0.0 else Sum(roles[..|roles| - 1], opinion) + opinion[roles[|roles| - 1]]
  }

  lemma {:induction false} SumWithout(roles: seq<string>, opinion: map<string, real>, k: nat)
    requires k < |roles| && forall r :: r in roles ==> r in opinion
    ensures Sum(roles, opinion) == Sum(roles[..k] + roles[k + 1..], opinion) + opinion[roles[k]]
  {
    var last := |roles| - 1;
    if k == last {
      assert roles[..k] + roles[k + 1..] == roles[..k];
    } else {
      SumWithout(roles[..last], opinion, k);
      var without := roles[..k] + roles[k + 1..];
      assert without[..|without| - 1] == roles[..last][..k] + roles[..last][k + 1..];
      assert without[|without| - 1] == roles[last];
    }
  }

  lemma {:induction false} SumOrderIndependent(a: seq<string>, b: seq<string>, opinion: map<string, real>)
    requires Distinct(a) && Distinct(b) && (forall r :: r in a <==> r in b)
    requires forall r :: r in a ==> r in opinion
    ensures |a| == |b| && Sum(a, opinion) == Sum(b, opinion)
    decreases |a|
  {
    assert b == [] || b[0] in b;
    if a == [] {
    } else {
      var x := a[|a| - 1];
      assert x in b;
      var k :| 0 <= k < |b| && b[k] == x;
      var a', b' := a[..|a| - 1], b[..k] + b[k + 1..];
      forall r ensures r in a' <==> r in b' {
        assert r in a' <==> r in a && r != x;
        if r in b && r != x {
          var j :| 0 <= j < |b| && b[j] == r;
          assert r == b'[if j < k then j else j - 1];
        }
      }
      SumOrderIndependent(a', b', opinion);
      SumWithout(b, opinion, k);
    }
  }

  lemma {:induction false} SumAgrees(roles: seq<string>, m: map<string, real>, m': map<string, real>)
    requires forall r :: r in roles ==> r in m && r in m' && m[r] == m'[r]
    ensures Sum(roles, m) == Sum(roles, m')
  {
    if roles != [] { SumAgrees(roles[..|roles| - 1], m, m'); }
  }

  // ---------- the penalty ----------

  function Cap(quorum: nat): real {
    if quorum <= 1 then 0.4 else if quorum == 2 then 0.7 else 1.0
  }

  function Clamp(x: real, cap: real): real {
    var low := if x < cap then x else cap;
    if 0.0 < low then low else 0.0
  }

  /** The penalty for a non-empty history whose last entry is the new one. */
  function Consensus(entries: seq<Entry>): real
    requires entries != []
  {
    HearAllHears(entries);
    var o := HearAll(entries);
    if o.roles == [] then Clamp(entries[|entries| - 1].penalty, 0.2)
    else Clamp(Sum(o.roles, o.latest) / |o.roles| as real, Cap(|o.roles|))
  }

  function RoundHalfEven(x: real): int {
    var f := x.Floor;
    var d := x - f as real;
    if d < 0.5 then f else if d > 0.5 then f + 1 else if f % 2 == 0 then f else f + 1
  }

  /** round(x, 4) */
  function Round4(x: real): real {
    RoundHalfEven(x * 10000.0) as real / 10000.0
  }

  lemma RoundHalfEvenIsNearest(x: real, k: int)
    ensures var r := RoundHalfEven(x); r as real - x <= 0.5 && x - r as real <= 0.5
    ensures var d := x - RoundHalfEven(x) as real; d == 0.5 || d == -0.5 ==> RoundHalfEven(x) % 2 == 0
    ensures k as real <= x ==> k <= RoundHalfEven(x)
    ensures x <= k as real ==> RoundHalfEven(x) <= k
  {
    if k as real <= x {
      assert k <= x.Floor;
    } else {
      assert x.Floor < k;
    }
    if x <= k as real && x.Floor == k { assert x == k as real; }
  }

  /** Rounding to four digits never leaves an interval whose ends have four digits. */
  lemma Round4Within(x: real, low: int, high: int)
    requires low as real / 10000.0 <= x <= high as real / 10000.0
    ensures low as real / 10000.0 <= Round4(x) <= high as real / 10000.0
  {
    RoundHalfEvenIsNearest(x * 10000.0, low);
    RoundHalfEvenIsNearest(x * 10000.0, high);
  }

  // ---------- calls in sequence ----------

  function Receive(st: Stored, e: Entry): Stored {
    var history := st.history + [e];
    Stored(Last(history, HISTORY_LIMIT), Round4(Consensus(history)), |HearAll(history).roles|)
  }

  /** The metadata after a sequence of calls on a new record. */
  function After(entries: seq<Entry>): Stored {
    if entries == [] then NO_FEEDBACK else Receive(After(entries[..|entries| - 1]), entries[|entries| - 1])
  }

  /** What the last call looked at: the stored twenty and itself. */
  function Window(entries: seq<Entry>): seq<Entry> {
    Last(entries, HISTORY_LIMIT + 1)
  }

  lemma WindowStep(before: seq<Entry>, e: Entry)
    ensures Last(before, HISTORY_LIMIT) + [e] == Window(before + [e])
    ensures Last(Window(before + [e]), HISTORY_LIMIT) == Last(before + [e], HISTORY_LIMIT)
  {
  }

  lemma AfterStep(before: seq<Entry>, e: Entry)
    ensures After(before + [e]) == Receive(After(before), e)
    ensures After([]) == NO_FEEDBACK
  {
    hide Receive;
    assert (before + [e])[..|before|] == before;
  }

  /** Whatever was called before, only the last twenty-one entries count. */
  lemma {:induction false} StoredIsWindow(entries: seq<Entry>)
    ensures After(entries).history == Last(entries, 20) && Window(entries) == Last(entries, 21)
    ensures entries != [] ==>
      && After(entries).score == Round4(Consensus(Window(entries)))
      && After(entries).quorum == |HearAll(Window(entries)).roles|
  {
    hide Consensus, HearAll, Round4, After, Last;
    if entries == [] {
      AfterStep([], Entry("", 0.0));
      NoEntries();
    } else {
      var before, e := entries[..|entries| - 1], entries[|entries| - 1];
      StoredIsWindow(before);
      assert entries == before + [e];
      AfterStep(before, e);
      WindowStep(before, e);
    }
  }

  lemma NoEntries()
    ensures Last([], 20) == NO_FEEDBACK.history
  {
  }

  /** The number of distinct named roles in the window. */
  ghost function Quorum(entries: seq<Entry>): nat {
    |NamedRoles(Window(entries))|
  }

  lemma {:induction false} DistinctCount(roles: seq<string>, s: set<string>)
    requires Distinct(roles) && forall r :: r in roles <==> r in s
    ensures |roles| == |s|
  {
    if roles == [] {
      assert s == {};
    } else {
      var n := |roles| - 1;
      assert forall r :: r in roles[..n] <==> r in roles && r != roles[n];
      DistinctCount(roles[..n], s - {roles[n]});
    }
  }

  lemma QuorumIsStored(entries: seq<Entry>)
    requires entries != []
    ensures After(entries).quorum == Quorum(entries)
  {
    hide Consensus, After, HearAll, NamedRoles, IsLatest;
    StoredIsWindow(entries);
    HearAllHears(Window(entries));
    var o := HearAll(Window(entries));
    DistinctCount(o.roles, NamedRoles(Window(entries)));
  }

  lemma {:induction false} SumIsListing(o: Opinions, entries: seq<Entry>, listing: seq<string>,
      opinion: map<string, real>)
    requires Hears(o, entries)
    requires Distinct(listing) && (forall r :: r in listing <==> r in NamedRoles(entries))
    requires forall r :: r in listing ==> r in opinion && IsLatest(entries, r, opinion[r])
    ensures (forall r :: r in o.roles ==> r in o.latest) && |o.roles| == |listing|
    ensures Sum(o.roles, o.latest) == Sum(listing, opinion)
  {
    hide NamedRoles, IsLatest, Sum;
    forall r | r in listing ensures o.latest[r] == opinion[r] {
      LatestIsUnique(entries, r, o.latest[r], opinion[r]);
    }
    SumAgrees(listing, o.latest, opinion);
    SumOrderIndependent(listing, o.roles, o.latest);
  }

  lemma {:induction false} ConsensusIsMean(entries: seq<Entry>, listing: seq<string>, opinion: map<string, real>)
    requires entries != []
    requires Distinct(listing) && (forall r :: r in listing <==> r in NamedRoles(entries))
    requires forall r :: r in listing ==> r in opinion && IsLatest(entries, r, opinion[r])
    ensures Consensus(entries) ==
            if listing == [] then Clamp(entries[|entries| - 1].penalty, 0.2)
            else Clamp(Sum(listing, opinion) / |listing| as real, Cap(|listing|))
  {
    hide HearAll, NamedRoles, IsLatest, Clamp, Cap, Sum, Hears, Distinct;
    HearAllHears(entries);
    SumIsListing(HearAll(entries), entries, listing, opinion);
  }

  /** The penalty, without the fold: however the named roles of the window are listed, and
      with each role's latest opinion in it, it is the rounded and clamped mean; without any
      named role it is the clamped penalty of the last call. */
  lemma {:induction false} PenaltyIsMeanOfLatest(entries: seq<Entry>, listing: seq<string>, opinion: map<string, real>)
    requires entries != []
    requires Distinct(listing) && (forall r :: r in listing <==> r in NamedRoles(Window(entries)))
    requires forall r :: r in listing ==> r in opinion && IsLatest(Window(entries), r, opinion[r])
    ensures After(entries).score == Round4(
              if listing == [] then Clamp(entries[|entries| - 1].penalty, 0.2)
              else Clamp(Sum(listing, opinion) / |listing| as real, Cap(|listing|)))
  {
    hide After, HearAll, NamedRoles, IsLatest, Round4, Clamp, Cap, Sum, Consensus, Distinct;
    StoredIsWindow(entries);
    ConsensusIsMean(Window(entries), listing, opinion);
    var w := Window(entries);
    assert w[|w| - 1] == entries[|entries| - 1];
  }

  /** v is x, or the nearer end of [0, cap] if x lies outside. */
  ghost predicate IsNearestIn(v: real, x: real, cap: real) {
    if x < 0.0 then v == 0.0 else if x > cap then v == cap else v == x
  }

  lemma ClampIsNearest(x: real, cap: real)
    requires cap >= 0.0
    ensures IsNearestIn(Clamp(x, cap), x, cap)
  {
  }

  /** The same in plain terms: of one, two and three or more named roles the mean counts up to
      0.4, 0.7 and 1, and without any the call itself up to 0.2. */
  lemma {:induction false} PenaltyIsNearestMean(entries: seq<Entry>, listing: seq<string>, opinion: map<string, real>)
    returns (v: real)
    requires entries != []
    requires Distinct(listing) && (forall r :: r in listing <==> r in NamedRoles(Window(entries)))
    requires forall r :: r in listing ==> r in opinion && IsLatest(Window(entries), r, opinion[r])
    ensures After(entries).score == Round4(v)
    ensures |listing| == 0 ==> IsNearestIn(v, entries[|entries| - 1].penalty, 0.2)
    ensures |listing| == 1 ==> IsNearestIn(v, opinion[listing[0]], 0.4)
    ensures |listing| == 2 ==> IsNearestIn(v, (opinion[listing[0]] + opinion[listing[1]]) / 2.0, 0.7)
    ensures |listing| > 2 ==> IsNearestIn(v, Sum(listing, opinion) / |listing| as real, 1.0)
  {
    hide After, HearAll, NamedRoles, IsLatest, Round4, Clamp, Consensus, Distinct, IsNearestIn;
    PenaltyIsMeanOfLatest(entries, listing, opinion);
    if listing == [] {
      v := Clamp(entries[|entries| - 1].penalty, 0.2);
      ClampIsNearest(entries[|entries| - 1].penalty, 0.2);
    } else {
      var mean := Sum(listing, opinion) / |listing| as real;
      v := Clamp(mean, Cap(|listing|));
      ClampIsNearest(mean, Cap(|listing|));
      MeanOfFew(listing, opinion);
    }
  }

  lemma MeanOfFew(roles: seq<string>, opinion: map<string, real>)
    requires roles != [] && forall r :: r in roles ==> r in opinion
    ensures |roles| == 1 ==> Sum(roles, opinion) / |roles| as real == opinion[roles[0]]
    ensures |roles| == 2 ==> Sum(roles, opinion) / |roles| as real == (opinion[roles[0]] + opinion[roles[1]]) / 2.0
  {
    hide Sum;
    SumOfFew(roles, opinion);
    if |roles| == 1 {
      assert |roles| as real == 1.0;
    } else if |roles| == 2 {
      assert |roles| as real == 2.0;
    }
  }

  lemma SumOfFew(roles: seq<string>, opinion: map<string, real>)
    requires forall r :: r in roles ==> r in opinion
    ensures |roles| == 1 ==> Sum(roles, opinion) == opinion[roles[0]]
    ensures |roles| == 2 ==> Sum(roles, opinion) == opinion[roles[0]] + opinion[roles[1]]
  {
    hide Sum;
    if |roles| == 1 {
      SumMore([], roles[0], opinion);
      assert roles == [] + [roles[0]];
    } else if |roles| == 2 {
      SumMore([], roles[0], opinion);
      SumMore([roles[0]], roles[1], opinion);
      assert [roles[0]] == [] + [roles[0]] && roles == [roles[0]] + [roles[1]];
    }
  }

  lemma SumMore(roles: seq<string>, role: string, opinion: map<string, real>)
    requires role in opinion && forall r :: r in roles ==> r in opinion
    ensures Sum(roles + [role], opinion) == Sum(roles, opinion) + opinion[role]
    ensures Sum([], opinion) == 0.0
  {
    assert (roles + [role])[..|roles|] == roles;
  }

  /** The mean of two roles is stored as it is up to 0.7: so much takes two roles, and two
      can reach it. */
  lemma TwoRolesReach(a: string, b: string)
    requires a != b && a != UNKNOWN && b != UNKNOWN
    ensures After([Entry(a, 0.7), Entry(b, 0.7)]).score == 0.7
  {
    hide After, HearAll, Round4, Clamp;
    var entries, opinion := [Entry(a, 0.7), Entry(b, 0.7)], map[a := 0.7, b := 0.7];
    assert Window(entries) == entries;
    assert SpokeLast(entries, a, 0.7, 0) && SpokeLast(entries, b, 0.7, 1);
    assert entries[0] in entries && entries[1] in entries;
    assert NamedRoles(entries) == {a, b};
    var v := PenaltyIsNearestMean(entries, [a, b], opinion);
    Round4Within(v, 7000, 7000);
  }

  /** The stored penalty never leaves [0, cap], rounding included. */
  lemma {:induction false} PenaltyWithinCap(entries: seq<Entry>)
    requires entries != []
    ensures 0.0 <= After(entries).score <= Cap(Quorum(entries))
    ensures Quorum(entries) == 0 ==> After(entries).score <= 0.2
    ensures |After(entries).history| <= 20
  {
    hide After, HearAll, NamedRoles, IsLatest, Round4, Sum;
    StoredIsWindow(entries);
    QuorumIsStored(entries);
    var q := Quorum(entries);
    var high := if q == 0 then 2000 else if q == 1 then 4000 else if q == 2 then 7000 else 10000;
    Round4Within(Consensus(Window(entries)), 0, high);
  }

  /** Strong penalties need agreement of distinct roles among the last twenty-one calls. */
  lemma StrongPenaltyNeedsQuorum(entries: seq<Entry>)
    requires entries != []
    ensures After(entries).score > 0.2 ==> Quorum(entries) >= 1
    ensures After(entries).score > 0.4 ==> Quorum(entries) >= 2
    ensures After(entries).score > 0.7 ==> Quorum(entries) >= 3
  {
    hide After, Quorum;
    PenaltyWithinCap(entries);
  }

  /** One role, repeated: the penalty is its last word, and at most 0.4, and the opinions of
      all other roles are gone once it has spoken twenty-one times. */
  lemma {:induction false} OneRoleRepeated(entries: seq<Entry>, role: string)
    requires entries != [] && role != UNKNOWN
    requires forall i :: 0 <= i < |Window(entries)| ==> Window(entries)[i].role == role
    ensures After(entries).score == Round4(Clamp(entries[|entries| - 1].penalty, 0.4))
    ensures After(entries).quorum == 1 && After(entries).score <= 0.4
  {
    hide After, HearAll, Round4, Clamp;
    var w := Window(entries);
    var last := w[|w| - 1];
    assert last == entries[|entries| - 1];
    assert SpokeLast(w, role, last.penalty, |w| - 1);
    assert last in w;
    assert NamedRoles(w) == {role};
    var opinion := map[role := last.penalty];
    assert [role][..0] == [];
    assert Sum([role], opinion) == last.penalty;
    PenaltyIsMeanOfLatest(entries, [role], opinion);
    QuorumIsStored(entries);
    PenaltyWithinCap(entries);
  }

  lemma {:induction false} KeysHeard(entries: seq<Entry>)
    ensures var o := HearAll(entries); forall r :: r in o.roles ==> r in o.latest
  {
    hide HearAll, NamedRoles, IsLatest, Distinct;
    HearAllHears(entries);
  }

  // ---------- role names ----------

  /** Equal up to the case of ASCII letters. */
  ghost predicate SameLetters(a: string, b: string) {
    |a| == |b| && forall i :: 0 <= i < |a| ==>
      (a[i] == b[i] || ('a' <= a[i] <= 'z' && b[i] as int == a[i] as int - 32) ||
        ('a' <= b[i] <= 'z' && a[i] as int == b[i] as int - 32))
  }

  /** Names count as one role exactly when they are equal up to case; a missing or empty name,
      or one that spells "unknown", is heard as no role. */
  lemma RolesFoldCase(a: string, b: string)
    requires a != "" && b != ""
    ensures RoleName(Some(a)) == RoleName(Some(b)) <==> SameLetters(a, b)
    ensures RoleName(Some(a)) == UNKNOWN <==> SameLetters(a, "unknown")
    ensures RoleName(None) == UNKNOWN && RoleName(Some("")) == UNKNOWN
  {
    UpperEqualIff(a, b);
    UpperEqualIff(a, "unknown");
    assert Upper("unknown") == UNKNOWN;
  }

  lemma UpperEqualIff(a: string, b: string)
    ensures Upper(a) == Upper(b) <==> SameLetters(a, b)
  {
    if Upper(a) == Upper(b) {
      forall i | 0 <= i < |a|
        ensures a[i] == b[i] || ('a' <= a[i] <= 'z' && b[i] as int == a[i] as int - 32) ||
          ('a' <= b[i] <= 'z' && a[i] as int == b[i] as int - 32)
      {
        assert Upper(a)[i] == Upper(b)[i];
      }
    }
  }

  // ---------- the call as the code runs it ----------

  class Record {
    var history: seq<Entry>
    var penaltyScore: real
    var quorumCount: nat

    constructor ()
      ensures Contents() == NO_FEEDBACK
    {
      history, penaltyScore, quorumCount := [], 0.0, 0;
    }

    ghost function Contents(): Stored
      reads this
    {
      Stored(history, penaltyScore, quorumCount)
    }

    method MemoryFeedback(penalty: real, role: Option<string>) returns (finalPenalty: real)
      modifies this
      ensures Contents() == Receive(old(Contents()), Entry(RoleName(role), penalty))
      ensures finalPenalty == Consensus(old(history) + [Entry(RoleName(role), penalty)])
    {
      hide Round4, Clamp, Cap, RoleName, Hears;
      history := history + [Entry(RoleName(role), penalty)];
      var roles: seq<string>, opinions: map<string, real> := [], map[];
      var i := 0;
      while i < |history|
        invariant i <= |history| && history == old(history) + [Entry(RoleName(role), penalty)]
        invariant Opinions(roles, opinions) == HearAll(history[..i])
      {
        var entry := history[i];
        assert history[..i + 1][..i] == history[..i];
        if entry.role != UNKNOWN {
          if entry.role !in opinions { roles := roles + [entry.role]; }
          opinions := opinions[entry.role := entry.penalty];
        }
        i := i + 1;
      }
      assert history[..i] == history;
      quorumCount := |roles|;
      if roles != [] {
        KeysHeard(history);
        var sum := Total(roles, opinions);
        finalPenalty := Clamp(sum / |roles| as real, Cap(|roles|));
      } else {
        finalPenalty := Clamp(penalty, 0.2);
      }
      penaltyScore := Round4(finalPenalty);
      history := Last(history, HISTORY_LIMIT);
    }

    static method Total(roles: seq<string>, opinions: map<string, real>) returns (sum: real)
      requires forall r :: r in roles ==> r in opinions
      ensures sum == Sum(roles, opinions)
    {
      sum := 0.0;
      var i := 0;
      while i < |roles|
        invariant i <= |roles| && sum == Sum(roles[..i], opinions)
      {
        assert roles[..i + 1][..i] == roles[..i];
        sum := sum + opinions[roles[i]];
        i := i + 1;
      }
      assert roles[..i] == roles;
    }
  }
}
