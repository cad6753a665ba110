/** When the over-fetching search is right: judged from one answer, judged from the
    stored documents before any query, and what it means for the documents returned. */
module MemoryGuarantees {
  import opened Options
  import opened Sequences
  import opened AgentMemory

  // ---------- judged from an answer ----------

  /** Another memory that gives the same answers on the fetched neighbours. */
  ghost predicate Agrees(live: Metadata, live': Metadata, raw: seq<Neighbour>) {
    forall n :: n in raw ==> (n.id in live <==> n.id in live') && (n.id in live ==> live[n.id] == live'[n.id])
  }

  lemma {:induction false} AgreesScore(live: Metadata, live': Metadata, raw: seq<Neighbour>)
    requires Agrees(live, live', raw)
    ensures Score(live, raw) == Score(live', raw)
  {
    if raw != [] {
      assert raw[0] in raw;
      AgreesScore(live, live', raw[1..]);
    }
  }

  lemma AgreesTopHits(live: Metadata, live': Metadata, raw: seq<Neighbour>, k: nat)
    requires Agrees(live, live', raw)
    ensures TopHits(live, raw, k) == TopHits(live', raw, k)
  {
    AgreesScore(live, live', raw);
  }

  lemma {:induction false} FreshId(raw: seq<Neighbour>) returns (id: nat)
    ensures forall n :: n in raw ==> n.id < id
  {
    id := 0;
    if raw != [] {
      id := FreshId(raw[1..]);
      id := if raw[0].id < id then id else raw[0].id + 1;
    }
  }

  /** The result is the true top k for every memory with non-negative penalties and every
      exact index that would have given this answer. */
  ghost predicate Guaranteed(live: Metadata, raw: seq<Neighbour>, k: nat) {
    forall live', rest ::
      Agrees(live, live', raw) && NonNegative(live') && IsNearest(raw + rest, 5 * k, raw, rest) ==>
        IsTopK(TopHits(live, raw, k), multiset(Score(live', raw + rest)), k)
  }

  /** The fetched documents as they are, and one more with no penalty. */
  ghost function WithExtra(live: Metadata, raw: seq<Neighbour>, id: nat): Metadata {
    (map n | n in live && exists m :: m in raw && m.id == n :: live[n])[id := Entry("", Text(""))]
  }

  lemma ExtraAgrees(live: Metadata, raw: seq<Neighbour>, id: nat)
    requires NonNegative(live) && forall n :: n in raw ==> n.id < id
    ensures Agrees(live, WithExtra(live, raw, id), raw) && NonNegative(WithExtra(live, raw, id))
  {
  }

  /** A document that is missed if the check fails on a full answer. */
  lemma Missed(live: Metadata, raw: seq<Neighbour>, k: nat)
    requires NonNegative(live) && AscendingRaw(raw) && |raw| == 5 * k
    requires !Sufficient(raw, TopHits(live, raw, k), k)
    ensures !Guaranteed(live, raw, k)
  {
    hide TopHits, NonNegative, Agrees, IsTopK;
    var id := FreshId(raw);
    var live' := WithExtra(live, raw, id);
    var rest := [Neighbour(id, raw[|raw| - 1].dist)];
    var h := Hit(id, raw[|raw| - 1].dist, "", Text(""));
    assert Score(live', rest) == [h] by { assert rest[1..] == []; }
    ExtraAgrees(live, raw, id);
    AgreesScore(live, live', raw);
    ScoreAppend(live', raw, rest);
    MissedHit(live, raw, k, h);
    assert IsNearest(raw + rest, 5 * k, raw, rest);
  }

  lemma NotScored(live: Metadata, raw: seq<Neighbour>, h: Hit)
    requires forall n :: n in raw ==> n.id != h.id
    ensures !IsScored(live, raw, h)
  {
  }

  lemma {:induction false} TopWithinScored(live: Metadata, raw: seq<Neighbour>, k: nat)
    ensures multiset(TopHits(live, raw, k)) <= multiset(Score(live, raw))
  {
    hide Score, Sort;
    SortCorrect(Score(live, raw));
    TakeMembers(Sort(Score(live, raw)), k);
  }

  lemma MissedHit(live: Metadata, raw: seq<Neighbour>, k: nat, h: Hit)
    requires raw != [] && !Sufficient(raw, TopHits(live, raw, k), k)
    requires h.dist == raw[|raw| - 1].dist && forall n :: n in raw ==> n.id != h.id
    ensures !IsTopK(TopHits(live, raw, k), multiset(Score(live, raw) + [h]), k)
  {
    hide TopHits, Score, IsScored;
    var r, near := TopHits(live, raw, k), Score(live, raw);
    SearchShape(live, raw, k);
    NotScored(live, raw, h);
    assert h !in r;
    if |r| == k {
      assert r[k - 1] in r;
      TopWithinScored(live, raw, k);
      NotFirst(r, near, [h], k, r[k - 1], h);
    } else {
      TooShort(r, near, [h], k);
    }
  }

  /** Something left out is nearer than something taken. */
  lemma NotFirst(r: seq<Hit>, near: seq<Hit>, far: seq<Hit>, k: nat, x: Hit, y: Hit)
    requires x in r && y in far && y.dist < x.dist && multiset(r) <= multiset(near)
    ensures !IsTopK(r, multiset(near + far), k)
  {
    assert multiset(near + far) == multiset(near) + multiset(far);
    assert (multiset(near + far) - multiset(r))[y] >= multiset(far)[y] > 0;
  }

  /** There is more to take, and it was not taken. */
  lemma TooShort(r: seq<Hit>, near: seq<Hit>, far: seq<Hit>, k: nat)
    requires |r| < k && multiset(r) == multiset(near) && far != []
    ensures !IsTopK(r, multiset(near + far), k)
  {
    assert multiset(near + far) == multiset(near) + multiset(far);
    assert |multiset(near + far)| == |multiset(r)| + |far| && |multiset(r)| == |r|;
  }

  /** Exactness: an answer of the index guarantees the true top k, for every memory it
      could have come from, if and only if it was not full, so that nothing is left, or the
      check passes. */
  lemma GuaranteedIff(live: Metadata, raw: seq<Neighbour>, k: nat)
    requires NonNegative(live) && AscendingRaw(raw) && |raw| <= 5 * k
    ensures Guaranteed(live, raw, k) <==> |raw| < 5 * k || Sufficient(raw, TopHits(live, raw, k), k)
  {
    hide TopHits, Score, Sufficient, NonNegative, Agrees, Beyond, AscendingRaw, IsTopK;
    if |raw| < 5 * k || Sufficient(raw, TopHits(live, raw, k), k) {
      forall live', rest | Agrees(live, live', raw) && NonNegative(live') && IsNearest(raw + rest, 5 * k, raw, rest)
        ensures IsTopK(TopHits(live, raw, k), multiset(Score(live', raw + rest)), k)
      {
        AgreesTopHits(live, live', raw, k);
        SearchIsTopK(live', raw + rest, raw, rest, k);
      }
    } else {
      Missed(live, raw, k);
    }
  }

  // ---------- judged from the stored documents, before any query ----------

  function IdsOf(raw: seq<Neighbour>): (ids: seq<nat>) {
    seq(|raw|, i requires 0 <= i < |raw| => raw[i].id)
  }

  /** Live, with exactly this penalty. */
  function AtPenalty(live: Metadata, low: real): nat -> bool {
    id => id in live && Penalty(live[id].meta) == low
  }

  function Lower(a: Option<real>, b: real): Option<real> {
    if a == None || b < a.value then Some(b) else a
  }

  /** The least penalty of a live document with one of these ids. */
  function Least(live: Metadata, ids: seq<nat>): Option<real> {
    if ids == [] then None
    else
      var rest := Least(live, ids[1..]);
      if ids[0] in live then Lower(rest, Penalty(live[ids[0]].meta)) else rest
  }

  ghost predicate IsLeast(live: Metadata, ids: seq<nat>, low: real) {
    && (exists id :: id in ids && id in live && Penalty(live[id].meta) == low)
    && forall id :: id in ids && id in live ==> low <= Penalty(live[id].meta)
  }

  lemma {:induction false} LeastIsLeast(live: Metadata, ids: seq<nat>)
    ensures Least(live, ids) == None ==> forall id :: id in ids ==> id !in live
    ensures Least(live, ids) != None ==> IsLeast(live, ids, Least(live, ids).value)
  {
    if ids != [] {
      LeastIsLeast(live, ids[1..]);
      assert forall id :: id in ids <==> id == ids[0] || id in ids[1..];
    }
  }

  /** What a caller can check before searching: at most 5k points, or at most 4k points
      that are removed or penalised more than the least penalised document. */
  predicate Reliable(live: Metadata, ids: seq<nat>, k: nat) {
    var low := Least(live, ids);
    k == 0 || |ids| <= 5 * k || low == None || |Filter(ids, Not(AtPenalty(live, low.value)))| <= 4 * k
  }

  /** The index's points at some distances, the nearest 5k fetched and the rest not. */
  ghost predicate Fetched(ids: seq<nat>, raw: seq<Neighbour>, rest: seq<Neighbour>, k: nat) {
    multiset(IdsOf(raw + rest)) == multiset(ids) && IsNearest(raw + rest, 5 * k, raw, rest)
  }

  /** Whatever the distances are, the search finds the true top k. */
  ghost predicate AlwaysTopK(live: Metadata, ids: seq<nat>, k: nat) {
    forall raw, rest :: Fetched(ids, raw, rest, k) ==>
      IsTopK(TopHits(live, raw, k), multiset(Score(live, raw + rest)), k)
  }

  function Within(d: real): Hit -> bool {
    (h: Hit) => h.dist <= d
  }

  /** In an ascending list the k-th is within d exactly when k are. */
  lemma {:induction false} KthWithin(s: seq<Hit>, k: nat, d: real)
    requires Ascending(s) && k > 0
    ensures |Filter(s, Within(d))| >= k <==> |s| >= k && s[k - 1].dist <= d
  {
    hide Filter;
    FilterMembers(s, Within(d));
    if |s| >= k {
      var m := if s[k - 1].dist <= d then k else k - 1;
      assert s == s[..m] + s[m..];
      FilterAppend(s[..m], s[m..], Within(d));
      FilterMembers(s[..m], Within(d));
      if s[k - 1].dist <= d {
        AllKept(s[..k], Within(d));
      } else {
        NoneKept(s[m..], Within(d));
      }
    }
  }

  /** Each fetched document of the least penalty is within that of the last distance. */
  lemma {:induction false} LightWithin(live: Metadata, raw: seq<Neighbour>, low: real, d: real)
    requires forall i :: 0 <= i < |raw| ==> raw[i].dist <= d
    ensures |Filter(IdsOf(raw), AtPenalty(live, low))| <= |Filter(Score(live, raw), Within(d + low))|
  {
    if raw != [] {
      LightWithin(live, raw[1..], low, d);
      assert IdsOf(raw)[1..] == IdsOf(raw[1..]);
      FilterAppend(ScoreOne(live, raw[0]), Score(live, raw[1..]), Within(d + low));
      OneWithin(live, raw[0], d + low);
    }
  }

  lemma OneWithin(live: Metadata, n: Neighbour, d: real)
    ensures |Filter(ScoreOne(live, n), Within(d))| ==
      if n.id in live && n.dist + Penalty(live[n.id].meta) <= d then 1 else 0
  {
    var hits := ScoreOne(live, n);
    if n.id in live { assert hits[1..] == []; }
  }

  /** ... and none but these, when all are at the same distance and the others' penalties
      are more than e above the least. */
  lemma {:induction false} OnlyLightWithin(live: Metadata, raw: seq<Neighbour>, low: real, e: real)
    requires forall i :: 0 <= i < |raw| ==> raw[i].dist == 0.0
    requires forall i :: 0 <= i < |raw| && raw[i].id in live ==>
      Penalty(live[raw[i].id].meta) == low || low + e < Penalty(live[raw[i].id].meta)
    ensures |Filter(Score(live, raw), Within(low + e))| <= |Filter(IdsOf(raw), AtPenalty(live, low))|
  {
    if raw != [] {
      OnlyLightWithin(live, raw[1..], low, e);
      assert IdsOf(raw)[1..] == IdsOf(raw[1..]);
      FilterAppend(ScoreOne(live, raw[0]), Score(live, raw[1..]), Within(low + e));
      OneWithin(live, raw[0], low + e);
    }
  }

  lemma {:induction false} TopWithin(live: Metadata, raw: seq<Neighbour>, k: nat, d: real)
    requires k > 0
    ensures |Filter(Score(live, raw), Within(d))| >= k <==>
            |TopHits(live, raw, k)| == k && TopHits(live, raw, k)[k - 1].dist <= d
  {
    hide Filter, Score, Sort;
    SortCorrect(Score(live, raw));
    FilterPermutes(Sort(Score(live, raw)), Score(live, raw), Within(d));
    KthWithin(Sort(Score(live, raw)), k, d);
  }

  lemma IdsAppend(a: seq<Neighbour>, b: seq<Neighbour>)
    ensures IdsOf(a + b) == IdsOf(a) + IdsOf(b)
  {
  }

  /** Of 5k fetched points at least k have the least penalty. */
  lemma {:induction false} EnoughLight(live: Metadata, ids: seq<nat>, raw: seq<Neighbour>, rest: seq<Neighbour>, k: nat,
      low: real)
    requires multiset(IdsOf(raw + rest)) == multiset(ids) && |raw| == 5 * k
    requires |Filter(ids, Not(AtPenalty(live, low)))| <= 4 * k
    ensures |Filter(IdsOf(raw), AtPenalty(live, low))| >= k
  {
    hide Filter, IdsOf;
    var heavy := Not(AtPenalty(live, low));
    FilterPermutes(IdsOf(raw + rest), ids, heavy);
    IdsAppend(raw, rest);
    FilterAppend(IdsOf(raw), IdsOf(rest), heavy);
    FilterSplits(IdsOf(raw), AtPenalty(live, low));
    IdsLength(raw);
  }

  lemma IdsLength(raw: seq<Neighbour>)
    ensures |IdsOf(raw)| == |raw|
  {
  }

  lemma IdsMember(ids: seq<nat>, raw: seq<Neighbour>, rest: seq<Neighbour>, n: Neighbour)
    requires multiset(IdsOf(raw + rest)) == multiset(ids) && n in rest
    ensures n.id in ids
  {
    var i :| 0 <= i < |rest| && rest[i] == n;
    var all := IdsOf(raw + rest);
    assert all[|raw| + i] == n.id;
    assert n.id in multiset(all);
  }

  lemma {:induction false} RestIsHeavier(live: Metadata, ids: seq<nat>, raw: seq<Neighbour>, rest: seq<Neighbour>,
      low: real, y: Hit)
    requires multiset(IdsOf(raw + rest)) == multiset(ids) && IsLeast(live, ids, low)
    requires raw != [] && Beyond(raw, rest) && y in Score(live, rest)
    ensures raw[|raw| - 1].dist + low <= y.dist
  {
    hide IdsOf, Score;
    ScoreMembers(live, rest, y);
    var n :| n in rest && n.id == y.id && y.dist == n.dist + Penalty(y.meta);
    IdsMember(ids, raw, rest, n);
  }

  lemma {:induction false} NothingLive(live: Metadata, ids: seq<nat>, raw: seq<Neighbour>, rest: seq<Neighbour>)
    requires multiset(IdsOf(raw + rest)) == multiset(ids) && forall id :: id in ids ==> id !in live
    ensures Score(live, rest) == []
  {
    hide IdsOf, Score;
    var far := Score(live, rest);
    assert far == [] || far[0] in far;
    forall y ensures y !in Score(live, rest) {
      if y in Score(live, rest) {
        ScoreMembers(live, rest, y);
        var n :| n in rest && n.id == y.id;
        IdsMember(ids, raw, rest, n);
      }
    }
  }

  lemma {:induction false} ReliableFinds(live: Metadata, ids: seq<nat>, k: nat, raw: seq<Neighbour>,
      rest: seq<Neighbour>)
    requires Reliable(live, ids, k) && Fetched(ids, raw, rest, k)
    ensures IsTopK(TopHits(live, raw, k), multiset(Score(live, raw + rest)), k)
  {
    hide TopHits, Score, IdsOf, Filter, IsTopK, Least, Ascending;
    LeastIsLeast(live, ids);
    SearchShape(live, raw, k);
    var low := Least(live, ids);
    if k == 0 {
    } else if rest == [] {
      NoneScored(live);
    } else if low == None {
      NothingLive(live, ids, raw, rest);
    } else {
      SameSize(ids, raw, rest);
      EnoughLight(live, ids, raw, rest, k, low.value);
      var d := raw[|raw| - 1].dist;
      LightWithin(live, raw, low.value, d);
      TopWithin(live, raw, k, d + low.value);
      forall x, y | x in TopHits(live, raw, k) && y in Score(live, rest) ensures x.dist <= y.dist {
        AtMostLast(TopHits(live, raw, k), x);
        RestIsHeavier(live, ids, raw, rest, low.value, y);
      }
    }
    TopKOfParts(live, raw, rest, k);
  }

  lemma SameSize(ids: seq<nat>, raw: seq<Neighbour>, rest: seq<Neighbour>)
    requires multiset(IdsOf(raw + rest)) == multiset(ids)
    ensures |ids| == |raw| + |rest|
  {
    assert |multiset(IdsOf(raw + rest))| == |raw + rest| && |multiset(ids)| == |ids|;
  }

  // ---------- the distances that defeat it ----------

  function At(ids: seq<nat>, d: real): seq<Neighbour> {
    seq(|ids|, i requires 0 <= i < |ids| => Neighbour(ids[i], d))
  }

  /** A positive gap between the least penalty and all others. */
  lemma {:induction false} Gap(live: Metadata, ids: seq<nat>, low: real) returns (e: real)
    requires forall id :: id in ids && id in live ==> low <= Penalty(live[id].meta)
    ensures e > 0.0
    ensures forall id :: id in ids && id in live ==> Penalty(live[id].meta) == low || low + e < Penalty(live[id].meta)
  {
    e := 1.0;
    if ids != [] {
      e := Gap(live, ids[1..], low);
      assert forall id :: id in ids <==> id == ids[0] || id in ids[1..];
      if ids[0] in live && low < Penalty(live[ids[0]].meta) && Penalty(live[ids[0]].meta) - low <= e {
        e := (Penalty(live[ids[0]].meta) - low) / 2.0;
      }
    }
  }

  /** Fewer than k of those fetched have the least penalty, and one that has it was left. */
  lemma {:induction false} DefeatedBy(live: Metadata, near: seq<nat>, far: seq<nat>, k: nat, low: real, e: real,
      id: nat)
    requires k > 0 && |Filter(near, AtPenalty(live, low))| < k && e > 0.0
    requires forall id :: id in near && id in live ==> Penalty(live[id].meta) == low || low + e < Penalty(live[id].meta)
    requires id in far && AtPenalty(live, low)(id)
    ensures !IsTopK(TopHits(live, At(near, 0.0), k), multiset(Score(live, At(near, 0.0) + At(far, e))), k)
  {
    hide TopHits, Score, Filter, IsTopK;
    var raw, rest := At(near, 0.0), At(far, e);
    assert IdsOf(raw) == near;
    OnlyLightWithin(live, raw, low, e);
    TopWithin(live, raw, k, low + e);
    SearchShape(live, raw, k);
    TopWithinScored(live, raw, k);
    ScoreAppend(live, raw, rest);
    var i :| 0 <= i < |far| && far[i] == id;
    assert rest[i] in rest;
    var y := Hit(id, e + low, live[id].text, live[id].meta);
    ScoreHas(live, rest, Neighbour(id, e));
    var r := TopHits(live, raw, k);
    if |r| == k {
      NotFirst(r, Score(live, raw), Score(live, rest), k, r[k - 1], y);
    } else {
      TooShort(r, Score(live, raw), Score(live, rest), k);
    }
  }

  lemma {:induction false} ScoreHas(live: Metadata, raw: seq<Neighbour>, n: Neighbour)
    requires n in raw && n.id in live
    ensures Hit(n.id, n.dist + Penalty(live[n.id].meta), live[n.id].text, live[n.id].meta) in Score(live, raw)
  {
    if n != raw[0] { ScoreHas(live, raw[1..], n); }
  }

  lemma AtParts(a: seq<nat>, b: seq<nat>, d: real)
    ensures IdsOf(At(a, 0.0) + At(b, d)) == a + b
  {
  }

  lemma FetchedAt(ids: seq<nat>, near: seq<nat>, far: seq<nat>, k: nat, e: real)
    requires multiset(near + far) == multiset(ids) && |near| == 5 * k && e > 0.0
    ensures Fetched(ids, At(near, 0.0), At(far, e), k)
  {
    AtParts(near, far, e);
  }

  /** The fetched: m heavy points and n light ones, at distance zero.  The rest: a little
      farther than that. */
  lemma DefeatedByCut(live: Metadata, ids: seq<nat>, heavy: seq<nat>, light: seq<nat>, k: nat, m: nat, n: nat,
      low: real)
    requires multiset(ids) == multiset(light + heavy) && IsLeast(live, ids, low)
    requires (forall id :: id in heavy ==> !AtPenalty(live, low)(id)) &&
      (forall id :: id in light ==> AtPenalty(live, low)(id))
    requires m <= |heavy| && n < |light| && m + n == 5 * k && n < k
    ensures !AlwaysTopK(live, ids, k)
  {
    hide Filter, TopHits, Score, IsTopK, AtPenalty, At, Fetched, Not;
    var near, far := heavy[..m] + light[..n], heavy[m..] + light[n..];
    Recut(heavy, light, m, n);
    FewLight(live, heavy, light, m, n, low);
    var e := Gap(live, ids, low);
    NearMembers(ids, near, far);
    assert far[|far| - 1] == light[|light| - 1];
    DefeatedBy(live, near, far, k, low, e, light[|light| - 1]);
    FetchedAt(ids, near, far, k, e);
  }

  lemma NearMembers(ids: seq<nat>, near: seq<nat>, far: seq<nat>)
    requires multiset(near + far) == multiset(ids)
    ensures forall id :: id in near ==> id in ids
  {
    forall id | id in near ensures id in ids {
      assert id in near + far;
      assert id in multiset(near + far);
    }
  }

  /** Fetch as many heavy points as there is room for. */
  lemma UnreliableMisses(live: Metadata, ids: seq<nat>, k: nat)
    requires !Reliable(live, ids, k)
    ensures !AlwaysTopK(live, ids, k)
  {
    hide Filter, Least, Reliable, AlwaysTopK;
    Unfold(live, ids, k);
    LeastIsLeast(live, ids);
    var low := Least(live, ids).value;
    var light, heavy := Filter(ids, AtPenalty(live, low)), Filter(ids, Not(AtPenalty(live, low)));
    FilterSplits(ids, AtPenalty(live, low));
    FilterMembers(ids, AtPenalty(live, low));
    FilterMembers(ids, Not(AtPenalty(live, low)));
    SomeLight(live, ids, low);
    var m := if |heavy| < 5 * k then |heavy| else 5 * k;
    DefeatedByCut(live, ids, heavy, light, k, m, 5 * k - m, low);
  }

  lemma Unfold(live: Metadata, ids: seq<nat>, k: nat)
    requires !Reliable(live, ids, k)
    ensures k > 0 && |ids| > 5 * k && Least(live, ids) != None
    ensures |Filter(ids, Not(AtPenalty(live, Least(live, ids).value)))| > 4 * k
  {
  }

  lemma {:induction false} SomeLight(live: Metadata, ids: seq<nat>, low: real)
    requires IsLeast(live, ids, low)
    ensures Filter(ids, AtPenalty(live, low)) != []
  {
    FilterMembers(ids, AtPenalty(live, low));
    var id :| id in ids && id in live && Penalty(live[id].meta) == low;
    assert id in Filter(ids, AtPenalty(live, low));
  }

  lemma Recut(a: seq<nat>, b: seq<nat>, m: nat, n: nat)
    requires m <= |a| && n <= |b|
    ensures multiset((a[..m] + b[..n]) + (a[m..] + b[n..])) == multiset(a + b) == multiset(b + a)
  {
    assert a == a[..m] + a[m..] && b == b[..n] + b[n..];
  }

  lemma FewLight(live: Metadata, heavy: seq<nat>, light: seq<nat>, h: nat, l: nat, low: real)
    requires h <= |heavy| && l <= |light| && forall id :: id in heavy ==> !AtPenalty(live, low)(id)
    ensures |Filter(heavy[..h] + light[..l], AtPenalty(live, low))| <= l
  {
    hide Filter;
    FilterAppend(heavy[..h], light[..l], AtPenalty(live, low));
    NoneKept(heavy[..h], AtPenalty(live, low));
    FilterMembers(light[..l], AtPenalty(live, low));
  }

  /** The search finds the true top k whatever the query and the distances, if and only if
      the stored documents pass the caller's check. */
  lemma AlwaysTopKIff(live: Metadata, ids: seq<nat>, k: nat)
    ensures AlwaysTopK(live, ids, k) <==> Reliable(live, ids, k)
  {
    hide Reliable, Fetched, IsTopK, TopHits, Score;
    if Reliable(live, ids, k) {
      forall raw, rest | Fetched(ids, raw, rest, k)
        ensures IsTopK(TopHits(live, raw, k), multiset(Score(live, raw + rest)), k)
      {
        ReliableFinds(live, ids, k, raw, rest);
      }
    } else {
      UnreliableMisses(live, ids, k);
    }
  }

  /** With non-negative penalties and one live document that has none: the search is right
      for all distances if and only if there are at most 5k points, or at most 4k that are
      removed or penalised. */
  lemma AlwaysTopKIffFewPenalised(live: Metadata, ids: seq<nat>, k: nat, clean: nat)
    requires NonNegative(live) && clean in ids && AtPenalty(live, 0.0)(clean)
    ensures AlwaysTopK(live, ids, k) <==>
            k == 0 || |ids| <= 5 * k || |Filter(ids, Not(AtPenalty(live, 0.0)))| <= 4 * k
  {
    hide AlwaysTopK, Filter, Least;
    AlwaysTopKIff(live, ids, k);
    LeastIsLeast(live, ids);
    assert Least(live, ids) == Some(0.0);
  }

  function SixDocuments(penalised: Entry): Metadata {
    map[0 := penalised, 1 := penalised, 2 := penalised, 3 := penalised, 4 := penalised, 5 := Entry("", Text(""))]
  }

  /** An input on which the search misses, for k = 1: five penalised documents are nearer
      than the only one without a penalty, which would have been the answer. */
  lemma SearchMisses()
    ensures var penalised := Entry("", Object(map[PENALTY := Number(1.0)]));
      var live := SixDocuments(penalised);
      var raw, rest := At([0, 1, 2, 3, 4], 0.0), At([5], 0.5);
      && Fetched([0, 1, 2, 3, 4, 5], raw, rest, 1)
      && !IsTopK(TopHits(live, raw, 1), multiset(Score(live, raw + rest)), 1)
  {
    hide TopHits, Score, IsTopK, Filter, Fetched;
    var penalised := Entry("", Object(map[PENALTY := Number(1.0)]));
    var live := SixDocuments(penalised);
    var near, far: seq<nat> := [0, 1, 2, 3, 4], [5];
    assert Penalty(penalised.meta) == 1.0;
    NoneKept(near, AtPenalty(live, 0.0));
    DefeatedBy(live, near, far, 1, 0.0, 0.5, 5);
    assert near + far == [0, 1, 2, 3, 4, 5];
    FetchedAt([0, 1, 2, 3, 4, 5], near, far, 1, 0.5);
  }

  // ---------- the memory's own points ----------

  function PointIds(index: seq<Point>): seq<nat> {
    seq(|index|, i requires 0 <= i < |index| => index[i].id)
  }

  lemma {:induction false} IdsPermute(a: seq<Neighbour>, b: seq<Neighbour>)
    requires multiset(a) == multiset(b)
    ensures multiset(IdsOf(a)) == multiset(IdsOf(b))
    decreases |a|
  {
    hide IdsOf, Without;
    if a == [] {
      NothingElse(b);
    } else {
      var i := SameWithoutFirst(a, b);
      IdsPermute(a[1..], Without(b, i));
      IdsWithout(b, i);
      IdsWithout(a, 0);
      FindsFirst(a);
    }
  }

  lemma IdsWithout(b: seq<Neighbour>, i: nat)
    requires i < |b|
    ensures multiset(IdsOf(b)) == multiset{b[i].id} + multiset(IdsOf(Without(b, i)))
  {
    WithoutParts(IdsOf(b), i);
    assert Without(IdsOf(b), i) == IdsOf(Without(b, i));
  }

  /** An exact index asked for the 5k nearest of its points. */
  ghost predicate IsAnswer(index: seq<Point>, query: Vector, distance: (Vector, Vector) -> real, k: nat,
                           raw: seq<Neighbour>, rest: seq<Neighbour>) {
    IsNearest(NeighboursOf(index, query, distance), 5 * k, raw, rest)
  }

  lemma NearestAreFetched(index: seq<Point>, query: Vector, distance: (Vector, Vector) -> real,
                          raw: seq<Neighbour>, rest: seq<Neighbour>, k: nat)
    requires IsAnswer(index, query, distance, k, raw, rest)
    ensures Fetched(PointIds(index), raw, rest, k)
  {
    IdsPermute(NeighboursOf(index, query, distance), raw + rest);
    assert IdsOf(NeighboursOf(index, query, distance)) == PointIds(index);
  }

  /** The search theorem: over an index that answers exactly, a memory that passes the
      caller's check gets the true top k of all candidates. */
  lemma SearchFindsTopK(index: seq<Point>, live: Metadata, query: Vector, distance: (Vector, Vector) -> real,
                        raw: seq<Neighbour>, rest: seq<Neighbour>, k: nat)
    requires Reliable(live, PointIds(index), k) && IsAnswer(index, query, distance, k, raw, rest)
    ensures IsTopK(TopHits(live, raw, k), multiset(Score(live, NeighboursOf(index, query, distance))), k)
  {
    hide Reliable, IsTopK, TopHits, Score, Fetched;
    NearestAreFetched(index, query, distance, raw, rest, k);
    ReliableFinds(live, PointIds(index), k, raw, rest);
    ScorePermutes(live, NeighboursOf(index, query, distance), raw + rest);
  }

  // ---------- documents instead of candidates ----------

  ghost predicate DistinctHits(hits: seq<Hit>) {
    forall i, j :: 0 <= i < j < |hits| ==> hits[i].id != hits[j].id
  }

  lemma OnceInDistinct(hits: seq<Hit>, i: nat)
    requires DistinctHits(hits) && i < |hits|
    ensures multiset(hits)[hits[i]] == 1
  {
    WithoutParts(hits, i);
    assert hits[i] !in Without(hits, i);
  }

  lemma TwiceInList(hits: seq<Hit>, i: nat, j: nat)
    requires i < j < |hits| && hits[i] == hits[j]
    ensures multiset(hits)[hits[i]] >= 2
  {
    WithoutParts(hits, i);
    assert Without(hits, i)[j - 1] == hits[j];
    assert hits[j] in Without(hits, i);
  }

  lemma SomeOfDistinct(hits: seq<Hit>, some: seq<Hit>)
    requires DistinctHits(hits) && multiset(some) <= multiset(hits)
    ensures DistinctHits(some)
  {
    forall i, j | 0 <= i < j < |some| ensures some[i].id != some[j].id {
      assert some[i] in multiset(some) && some[j] in multiset(some);
      assert some[i] in multiset(hits) && some[j] in multiset(hits);
      var p :| 0 <= p < |hits| && hits[p] == some[i];
      var q :| 0 <= q < |hits| && hits[q] == some[j];
      OnceInDistinct(hits, p);
      if some[i] == some[j] { TwiceInList(some, i, j); }
    }
  }

  ghost predicate OnceEach(live: Metadata, raw: seq<Neighbour>) {
    forall i, j :: 0 <= i < j < |raw| && raw[i].id == raw[j].id ==> raw[i].id !in live
  }

  /** Candidates have distinct ids exactly when no live document has two points. */
  lemma {:induction false} ScoreDistinctIff(live: Metadata, raw: seq<Neighbour>)
    ensures DistinctHits(Score(live, raw)) <==> OnceEach(live, raw)
  {
    if raw != [] {
      var rest := Score(live, raw[1..]);
      ScoreDistinctIff(live, raw[1..]);
      forall h | h in rest ensures exists n :: n in raw[1..] && n.id == h.id { ScoreMembers(live, raw[1..], h); }
      if raw[0].id in live {
        HeadDistinct(ScoreOne(live, raw[0])[0], rest);
        OnceEachHead(live, raw);
        if n :| n in raw[1..] && n.id == raw[0].id { ScoreHas(live, raw[1..], n); }
      } else {
        assert Score(live, raw) == rest;
        OnceEachHead(live, raw);
      }
    }
  }

  lemma HeadDistinct(h: Hit, rest: seq<Hit>)
    ensures DistinctHits([h] + rest) <==> DistinctHits(rest) && forall x :: x in rest ==> x.id != h.id
  {
    var all := [h] + rest;
    if DistinctHits(all) {
      forall i, j | 0 <= i < j < |rest| ensures rest[i].id != rest[j].id {
        assert all[i + 1] == rest[i] && all[j + 1] == rest[j];
      }
      forall x | x in rest ensures x.id != h.id {
        var i :| 0 <= i < |rest| && rest[i] == x;
        assert all[i + 1] == x && all[0] == h;
      }
    }
  }

  lemma OnceEachHead(live: Metadata, raw: seq<Neighbour>)
    requires raw != []
    ensures OnceEach(live, raw) <==>
            OnceEach(live, raw[1..]) && (raw[0].id in live ==> forall n :: n in raw[1..] ==> n.id != raw[0].id)
  {
    var rest := raw[1..];
    if OnceEach(live, raw) {
      forall i, j | 0 <= i < j < |rest| && rest[i].id == rest[j].id ensures rest[i].id !in live {
        assert raw[i + 1].id == raw[j + 1].id;
      }
      forall n | raw[0].id in live && n in rest ensures n.id != raw[0].id {
        var i :| 0 <= i < |rest| && rest[i] == n;
        assert raw[i + 1] == n;
      }
    }
  }

  lemma {:induction false} TopOfCandidates(live: Metadata, all: seq<Neighbour>, raw: seq<Neighbour>,
      rest: seq<Neighbour>, k: nat)
    requires multiset(all) == multiset(raw + rest)
    ensures multiset(TopHits(live, raw, k)) <= multiset(Score(live, all))
  {
    hide TopHits, Score;
    ScorePermutes(live, all, raw + rest);
    ScoreAppend(live, raw, rest);
    TopWithinScored(live, raw, k);
  }

  /** No search ever returns a document twice. */
  ghost predicate NeverTwice(live: Metadata, index: seq<Point>) {
    forall query, distance, k: nat, raw, rest ::
      IsAnswer(index, query, distance, k, raw, rest) ==> DistinctHits(TopHits(live, raw, k))
  }

  function Zero(): (Vector, Vector) -> real {
    (a, b) => 0.0
  }

  lemma OncePerPoint(live: Metadata, index: seq<Point>, query: Vector, distance: (Vector, Vector) -> real)
    ensures OnceEach(live, NeighboursOf(index, query, distance)) <==> LiveOnce(live, index)
  {
    var all := NeighboursOf(index, query, distance);
    assert forall i :: 0 <= i < |index| ==> all[i].id == index[i].id;
  }

  lemma {:induction false} ScoreLength(live: Metadata, raw: seq<Neighbour>)
    ensures |Score(live, raw)| <= |raw|
  {
    if raw != [] { ScoreLength(live, raw[1..]); }
  }

  /** Results never repeat a document if and only if no live document has two points:
      no id was inserted again, not even after its removal. */
  lemma NeverTwiceIff(live: Metadata, index: seq<Point>)
    ensures NeverTwice(live, index) <==> LiveOnce(live, index)
  {
    hide TopHits, Score, IsNearest, LiveOnce, OnceEach, DistinctHits;
    if LiveOnce(live, index) {
      forall query, distance, k: nat, raw, rest | IsAnswer(index, query, distance, k, raw, rest)
        ensures DistinctHits(TopHits(live, raw, k))
      {
        var all := NeighboursOf(index, query, distance);
        OncePerPoint(live, index, query, distance);
        ScoreDistinctIff(live, all);
        assert multiset(all) == multiset(raw + rest) by { NearestIsAll(all, 5 * k, raw, rest); }
        TopOfCandidates(live, all, raw, rest, k);
        SomeOfDistinct(Score(live, all), TopHits(live, raw, k));
      }
    } else {
      ReturnedTwice(live, index);
    }
  }

  lemma NearestIsAll(all: seq<Neighbour>, n: nat, raw: seq<Neighbour>, rest: seq<Neighbour>)
    requires IsNearest(all, n, raw, rest)
    ensures multiset(all) == multiset(raw + rest)
  {
  }

  /** With all points at one distance and room for all of them, both points of a document
      are returned. */
  lemma ReturnedTwice(live: Metadata, index: seq<Point>)
    requires !LiveOnce(live, index)
    ensures !NeverTwice(live, index)
  {
    hide Score, LiveOnce, OnceEach, DistinctHits, Sort;
    var all, k := NeighboursOf(index, [], Zero()), |index|;
    OncePerPoint(live, index, [], Zero());
    ScoreDistinctIff(live, all);
    ScoreLength(live, all);
    SortCorrect(Score(live, all));
    SortedLength(Score(live, all));
    assert TopHits(live, all, k) == Sort(Score(live, all));
    if DistinctHits(TopHits(live, all, k)) { SomeOfDistinct(TopHits(live, all, k), Score(live, all)); }
    assert all + [] == all;
    assert IsAnswer(index, [], Zero(), k, all, []);
  }

  /** A document removed and inserted again answers at its old embedding as well: every
      point of a live id is a candidate with the live document. */
  lemma EveryPointAnswers(live: Metadata, index: seq<Point>, query: Vector, distance: (Vector, Vector) -> real, i: nat)
    requires i < |index| && index[i].id in live
    ensures var entry := live[index[i].id];
      Hit(index[i].id, distance(query, index[i].embedding) + Penalty(entry.meta), entry.text, entry.meta)
        in Score(live, NeighboursOf(index, query, distance))
  {
    var all := NeighboursOf(index, query, distance);
    assert all[i] in all;
    ScoreHas(live, all, all[i]);
  }

  /** The k live documents nearest to the query by distance plus penalty: each once, with
      its own text, all of them if there are no more than k, and none left out is nearer. */
  ghost predicate IsTopDocuments(r: seq<Hit>, live: Metadata, index: seq<Point>, query: Vector,
                                 distance: (Vector, Vector) -> real, k: nat) {
    && DistinctHits(r) && Ascending(r)
    && |r| == (if |live| < k then |live| else k)
    && (forall h :: h in r ==> IsDocument(h, live, index, query, distance))
    && (forall h, x :: IsDocument(h, live, index, query, distance) && x in r && !Returned(r, h.id) ==> x.dist <= h.dist)
  }

  ghost predicate Returned(r: seq<Hit>, id: nat) {
    exists i :: 0 <= i < |r| && r[i].id == id
  }

  /** A live document at its effective distance. */
  ghost predicate IsDocument(h: Hit, live: Metadata, index: seq<Point>, query: Vector,
      distance: (Vector, Vector) -> real)
  {
    && h.id in live && h.text == live[h.id].text && h.meta == live[h.id].meta
    && exists i ::
         0 <= i < |index| && index[i].id == h.id && h.dist == distance(query, index[i].embedding) + Penalty(h.meta)
  }

  lemma CandidatesAreDocuments(live: Metadata, index: seq<Point>, query: Vector, distance: (Vector, Vector) -> real,
      h: Hit)
    ensures h in Score(live, NeighboursOf(index, query, distance)) <==> IsDocument(h, live, index, query, distance)
  {
    hide Score;
    var all := NeighboursOf(index, query, distance);
    if h in Score(live, all) {
      ScoreMembers(live, all, h);
      var n :| n in all && n.id == h.id && h.dist == n.dist + Penalty(h.meta);
      var i :| 0 <= i < |all| && all[i] == n;
      assert index[i].id == h.id;
    }
    if IsDocument(h, live, index, query, distance) {
      var i :| 0 <= i < |index| && index[i].id == h.id &&
        h.dist == distance(query, index[i].embedding) + Penalty(h.meta);
      EveryPointAnswers(live, index, query, distance, i);
    }
  }

  lemma {:induction false} CountDistinct(hits: seq<Hit>, ids: set<nat>)
    requires DistinctHits(hits) && forall id :: id in ids <==> Returned(hits, id)
    ensures |hits| == |ids|
  {
    if hits == [] {
      assert ids == {};
    } else {
      var n := |hits| - 1;
      var less := ids - {hits[n].id};
      assert Returned(hits, hits[n].id);
      forall id ensures id in less <==> Returned(hits[..n], id) {
        if id in less {
          var i :| 0 <= i < |hits| && hits[i].id == id;
          assert hits[..n][i].id == id;
        }
        if Returned(hits[..n], id) {
          var i :| 0 <= i < n && hits[..n][i].id == id;
          assert hits[i].id == id;
        }
      }
      CountDistinct(hits[..n], less);
    }
  }

  /** Every live document has a candidate, and with LiveOnce exactly one. */
  lemma {:induction false} OneCandidateEach(live: Metadata, index: seq<Point>, query: Vector,
      distance: (Vector, Vector) -> real)
    requires Covered(live, index) && LiveOnce(live, index)
    ensures var all := Score(live, NeighboursOf(index, query, distance));
      && DistinctHits(all)
      && (forall id :: id in live.Keys <==> Returned(all, id))
      && |all| == |live|
  {
    hide Score, OnceEach, LiveOnce, DistinctHits;
    var all := Score(live, NeighboursOf(index, query, distance));
    OncePerPoint(live, index, query, distance);
    ScoreDistinctIff(live, NeighboursOf(index, query, distance));
    forall id ensures id in live.Keys <==> Returned(all, id) {
      if id in live {
        assert HasPoint(index, id);
        var i :| 0 <= i < |index| && index[i].id == id;
        EveryPointAnswers(live, index, query, distance, i);
      }
      if Returned(all, id) {
        var i :| 0 <= i < |all| && all[i].id == id;
        CandidatesAreDocuments(live, index, query, distance, all[i]);
        assert all[i] in all;
      }
    }
    CountDistinct(all, live.Keys);
  }

  lemma TopKIsTopDocuments(live: Metadata, index: seq<Point>, query: Vector, distance: (Vector, Vector) -> real,
                           r: seq<Hit>, k: nat)
    requires Covered(live, index) && LiveOnce(live, index)
    requires IsTopK(r, multiset(Score(live, NeighboursOf(index, query, distance))), k)
    ensures IsTopDocuments(r, live, index, query, distance, k)
  {
    hide Score, Covered, LiveOnce, IsDocument, DistinctHits, Ascending;
    var all := Score(live, NeighboursOf(index, query, distance));
    OneCandidateEach(live, index, query, distance);
    SomeOfDistinct(all, r);
    assert |multiset(all)| == |all|;
    forall h | h in r ensures IsDocument(h, live, index, query, distance) {
      assert h in multiset(r) && h in multiset(all);
      CandidatesAreDocuments(live, index, query, distance, h);
    }
    forall h, x | IsDocument(h, live, index, query, distance) && x in r && !Returned(r, h.id) ensures x.dist <= h.dist {
      CandidatesAreDocuments(live, index, query, distance, h);
      assert h !in r;
      assert (multiset(all) - multiset(r))[h] == multiset(all)[h] > 0;
    }
  }

  /** The search theorem for documents: in a memory where every live document has one point
      and the caller's check passes, an exact index makes the search return exactly the k
      nearest live documents. */
  lemma SearchFindsDocuments(live: Metadata, index: seq<Point>, query: Vector, distance: (Vector, Vector) -> real,
                             raw: seq<Neighbour>, rest: seq<Neighbour>, k: nat)
    requires Covered(live, index) && LiveOnce(live, index) && Reliable(live, PointIds(index), k)
    requires IsAnswer(index, query, distance, k, raw, rest)
    ensures IsTopDocuments(TopHits(live, raw, k), live, index, query, distance, k)
  {
    hide Reliable, Covered, LiveOnce, IsTopK, IsNearest, IsTopDocuments;
    SearchFindsTopK(index, live, query, distance, raw, rest, k);
    TopKIsTopDocuments(live, index, query, distance, TopHits(live, raw, k), k);
  }

  /** ... which is what a memory's search returns, whatever was inserted, removed and
      updated before, as long as no id was inserted twice. */
  lemma MemoryFindsDocuments(m: Memory, query: Vector, distance: (Vector, Vector) -> real,
                             raw: seq<Neighbour>, rest: seq<Neighbour>, k: nat)
    requires m.Valid() && LiveOnce(m.metadata, m.index) && Reliable(m.metadata, PointIds(m.index), k)
    requires IsAnswer(m.index, query, distance, k, raw, rest)
    ensures IsTopDocuments(TopHits(m.metadata, raw, k), m.metadata, m.index, query, distance, k)
  {
    hide Reliable, Covered, LiveOnce, IsAnswer, IsTopDocuments;
    SearchFindsDocuments(m.metadata, m.index, query, distance, raw, rest, k);
  }
}
