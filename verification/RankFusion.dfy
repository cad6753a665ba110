/** Reciprocal rank fusion of several ranked lists, over exact reals.  Record ids are
    taken as already normalised; a record without one is skipped. */
module RankFusion {
  import opened Options
  import opened Sequences

  datatype Doc = Doc(id: Option<string>, text: string, graphHit: bool)

  datatype Fused = Fused(id: string, score: real, text: string, graphHit: bool)

  type RankList = seq<Doc>

  // ---------- scores ----------

  /** What rank i (from 0) is worth. */
  function Share(constant: nat, i: nat): real {
    1.0 / (constant + i + 1) as real
  }

  lemma ShareDecreases(constant: nat, i: nat, j: nat)
    requires i < j
    ensures 0.0 < Share(constant, j) < Share(constant, i)
  {
    var a, b := (constant + i + 1) as real, (constant + j + 1) as real;
    Reciprocals(a, b);
  }

  lemma Reciprocals(a: real, b: real)
    requires 0.0 < a < b
    ensures 0.0 < 1.0 / b < 1.0 / a
  {
    assert (1.0 / a) * a == 1.0 && (1.0 / b) * b == 1.0;
    if 1.0 / b >= 1.0 / a { MulGrows(1.0 / a, 1.0 / b, a, b); }
  }

  lemma MulGrows(x: real, y: real, a: real, b: real)
    requires 0.0 < x <= y && 0.0 < a < b
    ensures x * a < y * b
  {
    assert x * a < x * b;
    assert x * b <= y * b;
  }

  /** What one list gives to an id. */
  function ListScore(list: RankList, id: string, constant: nat): real {
    if list == [] then 0.0
    else
      var n := |list| - 1;
      ListScore(list[..n], id, constant) + (if list[n].id == Some(id) then Share(constant, n) else 0.0)
  }

  /** What all lists give to an id. */
  function Score(lists: seq<RankList>, id: string, constant: nat): real {
    if lists == [] then 0.0
    else Score(lists[..|lists| - 1], id, constant) + ListScore(lists[|lists| - 1], id, constant)
  }

  lemma {:induction false} ScoreAppend(a: seq<RankList>, b: seq<RankList>, id: string, constant: nat)
    ensures Score(a + b, id, constant) == Score(a, id, constant) + Score(b, id, constant)
  {
    if b == [] {
      assert a + b == a;
    } else {
      assert (a + b)[..|a + b| - 1] == a + b[..|b| - 1];
      ScoreAppend(a, b[..|b| - 1], id, constant);
    }
  }

  lemma {:induction false} SplitAt(b: seq<RankList>, i: nat, id: string, constant: nat)
    requires i < |b|
    ensures Score(b, id, constant) == ListScore(b[i], id, constant) + Score(Without(b, i), id, constant)
  {
    hide ListScore;
    WithoutParts(b, i);
    ScoreAppend(b[..i], [b[i]] + b[i + 1..], id, constant);
    ScoreAppend([b[i]], b[i + 1..], id, constant);
    ScoreAppend(b[..i], b[i + 1..], id, constant);
    assert [b[i]][..0] == [];
  }

  /** The score of an id does not depend on the order of the lists. */
  lemma {:induction false} ScoreOrderIndependent(a: seq<RankList>, b: seq<RankList>, id: string, constant: nat)
    requires multiset(a) == multiset(b)
    ensures Score(a, id, constant) == Score(b, id, constant)
    decreases |a|
  {
    hide Score, ListScore;
    if a == [] {
      NothingElse(b);
    } else {
      var i := SameWithoutFirst(a, b);
      SplitAt(a, 0, id, constant);
      SplitAt(b, i, id, constant);
      assert Without(a, 0) == a[1..];
      ScoreOrderIndependent(a[1..], Without(b, i), id, constant);
    }
  }

  // ---------- ids and merged records, in order of appearance ----------

  function Flat(lists: seq<RankList>): seq<Doc> {
    if lists == [] then [] else Flat(lists[..|lists| - 1]) + lists[|lists| - 1]
  }

  /** The ids seen, each once, in the order they first appear. */
  function Keys(docs: seq<Doc>): seq<string> {
    if docs == [] then []
    else
      var keys, id := Keys(docs[..|docs| - 1]), docs[|docs| - 1].id;
      if id == None || id.value in keys then keys else keys + [id.value]
  }

  ghost predicate Distinct(keys: seq<string>) {
    forall i, j :: 0 <= i < j < |keys| ==> keys[i] != keys[j]
  }

  lemma {:induction false} KeysCorrect(docs: seq<Doc>)
    ensures Distinct(Keys(docs))
    ensures forall id :: id in Keys(docs) <==> exists i :: 0 <= i < |docs| && docs[i].id == Some(id)
  {
    if docs != [] {
      var n := |docs| - 1;
      KeysCorrect(docs[..n]);
      forall id ensures id in Keys(docs) <==> exists i :: 0 <= i < |docs| && docs[i].id == Some(id) {
        if i :| 0 <= i < |docs| && docs[i].id == Some(id) {
          if i < n { assert docs[..n][i].id == Some(id); }
        }
        if id in Keys(docs[..n]) {
          var i :| 0 <= i < n && docs[..n][i].id == Some(id);
          assert docs[i].id == Some(id);
        }
      }
    }
  }

  /** The record kept for an id: the first of the longest texts, with the graph flag
      once any record of that id had it. */
  function Kept(docs: seq<Doc>, id: string): Option<Doc> {
    if docs == [] then None
    else
      var kept, doc := Kept(docs[..|docs| - 1], id), docs[|docs| - 1];
      if doc.id != Some(id) then kept
      else Some(Absorb(kept, doc))
  }

  function Absorb(kept: Option<Doc>, doc: Doc): Doc {
    if kept == None then doc
    else if |doc.text| > |kept.value.text| then doc.(graphHit := kept.value.graphHit || doc.graphHit)
    else kept.value.(graphHit := kept.value.graphHit || doc.graphHit)
  }

  ghost predicate IsOf(docs: seq<Doc>, i: nat, id: string) {
    i < |docs| && docs[i].id == Some(id)
  }

  /** No record of this id before it has as long a text, and none after it a longer one. */
  ghost predicate FirstLongest(docs: seq<Doc>, i: nat, id: string) {
    && IsOf(docs, i, id)
    && (forall j: nat :: j < i && IsOf(docs, j, id) ==> |docs[j].text| < |docs[i].text|)
    && (forall j: nat :: i < j && IsOf(docs, j, id) ==> |docs[j].text| <= |docs[i].text|)
  }

  /** The kept record has the first longest text among the records of its id, and its graph
      flag is set exactly when one of them has it. */
  lemma {:induction false} KeptIsRichest(docs: seq<Doc>, id: string)
    ensures Kept(docs, id) == None <==> forall i: nat :: !IsOf(docs, i, id)
    ensures Kept(docs, id) != None ==>
      && (forall i: nat :: IsOf(docs, i, id) ==> |docs[i].text| <= |Kept(docs, id).value.text|)
      && (exists i: nat :: FirstLongest(docs, i, id) && docs[i].text == Kept(docs, id).value.text)
      && (Kept(docs, id).value.graphHit <==> exists i: nat :: IsOf(docs, i, id) && docs[i].graphHit)
  {
    if docs != [] {
      var n := |docs| - 1;
      var init := docs[..n];
      KeptIsRichest(init, id);
      forall i: nat ensures IsOf(init, i, id) <==> IsOf(docs, i, id) && i < n {
      }
      if Kept(init, id) != None {
        var i: nat :| IsOf(init, i, id) && init[i].text == Kept(init, id).value.text;
        assert IsOf(docs, i, id);
      }
      if docs[n].id == Some(id) { assert IsOf(docs, n, id); }
      if j: nat :| IsOf(init, j, id) && init[j].graphHit { assert IsOf(docs, j, id) && docs[j].graphHit; }
      if j: nat :| IsOf(docs, j, id) && docs[j].graphHit && j < n { assert IsOf(init, j, id) && init[j].graphHit; }
    }
  }

  // ---------- sorting and cutting ----------

  /** Inserts an id after every id that scores at least as much. */
  function InsertKey(id: string, keys: seq<string>, score: string -> real): seq<string> {
    if keys == [] || score(keys[|keys| - 1]) >= score(id) then keys + [id]
    else InsertKey(id, keys[..|keys| - 1], score) + [keys[|keys| - 1]]
  }

  /** A stable sort, highest score first. */
  function SortKeys(keys: seq<string>, score: string -> real): seq<string> {
    if keys == [] then [] else InsertKey(keys[|keys| - 1], SortKeys(keys[..|keys| - 1], score), score)
  }

  ghost predicate Descending(keys: seq<string>, score: string -> real) {
    forall i, j :: 0 <= i < j < |keys| ==> score(keys[i]) >= score(keys[j])
  }

  ghost predicate SameIds(a: seq<string>, b: seq<string>) {
    |a| == |b| && forall id :: id in a <==> id in b
  }

  lemma {:induction false} InsertKeyCorrect(id: string, keys: seq<string>, score: string -> real)
    requires Descending(keys, score) && Distinct(keys) && id !in keys
    ensures var r := InsertKey(id, keys, score);
      Descending(r, score) && Distinct(r) && SameIds(r, keys + [id])
  {
    if keys != [] && score(keys[|keys| - 1]) < score(id) {
      var init, last := keys[..|keys| - 1], keys[|keys| - 1];
      assert keys == init + [last];
      InsertKeyCorrect(id, init, score);
      AppendLowest(id, init, last, InsertKey(id, init, score), score);
    }
  }

  lemma AppendLowest(id: string, init: seq<string>, last: string, r: seq<string>, score: string -> real)
    requires Descending(init + [last], score) && Distinct(init + [last]) && id !in init + [last]
    requires score(last) < score(id) && Descending(r, score) && Distinct(r) && SameIds(r, init + [id])
    ensures Descending(r + [last], score) && Distinct(r + [last]) && SameIds(r + [last], init + [last] + [id])
  {
    var keys := init + [last];
    forall x | x in r ensures score(x) >= score(last) && x != last {
      assert x in init + [id];
      if x != id {
        var i :| 0 <= i < |init| && init[i] == x;
        assert keys[i] == x && keys[|init|] == last;
      }
    }
    forall i | 0 <= i < |r| ensures r[i] != last && score(r[i]) >= score(last) { assert r[i] in r; }
    forall x ensures x in r + [last] <==> x in init + [last] + [id] {
      assert x in r <==> x in init + [id];
    }
  }

  lemma DistinctPrefix(keys: seq<string>, n: nat)
    requires Distinct(keys) && n < |keys|
    ensures Distinct(keys[..n]) && keys[n] !in keys[..n]
  {
  }

  lemma {:induction false} SortKeysCorrect(keys: seq<string>, score: string -> real)
    requires Distinct(keys)
    ensures var r := SortKeys(keys, score);
      Descending(r, score) && Distinct(r) && SameIds(r, keys)
  {
    if keys != [] {
      var n := |keys| - 1;
      DistinctPrefix(keys, n);
      SortKeysCorrect(keys[..n], score);
      InsertKeyCorrect(keys[n], SortKeys(keys[..n], score), score);
      Rejoin(keys, n, SortKeys(keys[..n], score), SortKeys(keys, score));
    }
  }

  lemma Rejoin(keys: seq<string>, n: nat, init: seq<string>, r: seq<string>)
    requires n + 1 == |keys| && SameIds(init, keys[..n]) && SameIds(r, init + [keys[n]])
    ensures SameIds(r, keys)
  {
    assert keys == keys[..n] + [keys[n]];
    forall id ensures id in r <==> id in keys {
      assert id in r <==> id in init + [keys[n]];
      assert id in init <==> id in keys[..n];
    }
  }

  /** keys[:k], with Python's reading of a negative k. */
  function Cut(keys: seq<string>, k: int): seq<string> {
    if k >= |keys| then keys else if k >= 0 then keys[..k] else if |keys| + k >= 0 then keys[..|keys| + k] else []
  }

  // ---------- fusion ----------

  function ScoreBy(lists: seq<RankList>, constant: nat): string -> real {
    id => Score(lists, id, constant)
  }

  function Ranking(lists: seq<RankList>, constant: nat): seq<string> {
    SortKeys(Keys(Flat(lists)), ScoreBy(lists, constant))
  }

  function Result(lists: seq<RankList>, constant: nat, id: string): Fused {
    var kept := Kept(Flat(lists), id);
    Fused(id, Score(lists, id, constant),
      if kept == None then "" else kept.value.text, if kept == None then false else kept.value.graphHit)
  }

  function Fuse(lists: seq<RankList>, k: int, constant: nat): seq<Fused> {
    var ids := Cut(Ranking(lists, constant), k);
    seq(|ids|, i requires 0 <= i < |ids| => Result(lists, constant, ids[i]))
  }

  lemma {:induction false} RankingCorrect(lists: seq<RankList>, constant: nat)
    ensures var r := Ranking(lists, constant);
      && Distinct(r)
      && (forall i, j :: 0 <= i < j < |r| ==> Score(lists, r[i], constant) >= Score(lists, r[j], constant))
      && (forall id :: id in r <==> exists i :: 0 <= i < |Flat(lists)| && Flat(lists)[i].id == Some(id))
  {
    hide Score, Keys, SortKeys;
    KeysCorrect(Flat(lists));
    var score := ScoreBy(lists, constant);
    SortKeysCorrect(Keys(Flat(lists)), score);
    var r := Ranking(lists, constant);
    forall i, j | 0 <= i < j < |r| ensures Score(lists, r[i], constant) >= Score(lists, r[j], constant) {
      assert score(r[i]) >= score(r[j]);
    }
  }

  lemma CutIsPrefix(keys: seq<string>, k: int)
    ensures Cut(keys, k) <= keys && |Cut(keys, k)| == Remaining(|keys|, k)
  {
  }

  /** The ids that occur in the lists. */
  ghost function IdsOf(lists: seq<RankList>): set<string> {
    set l, i | 0 <= l < |lists| && 0 <= i < |lists[l]| && lists[l][i].id != None :: lists[l][i].id.value
  }

  lemma {:induction false} DistinctCount(keys: seq<string>, ids: set<string>)
    requires Distinct(keys) && forall id :: id in keys <==> id in ids
    ensures |keys| == |ids|
  {
    if keys == [] {
      assert ids == {};
    } else {
      var n := |keys| - 1;
      assert forall id :: id in keys[..n] <==> id in keys && id != keys[n];
      DistinctCount(keys[..n], ids - {keys[n]});
    }
  }

  lemma RankingCount(lists: seq<RankList>, constant: nat)
    ensures |Ranking(lists, constant)| == |IdsOf(lists)|
    ensures forall id :: id in Ranking(lists, constant) <==> id in IdsOf(lists)
  {
    hide Score, Keys, Ranking, Flat;
    RankingCorrect(lists, constant);
    forall id ensures id in Ranking(lists, constant) <==> id in IdsOf(lists) {
      if id in IdsOf(lists) {
        var l, i :| 0 <= l < |lists| && 0 <= i < |lists[l]| && lists[l][i].id == Some(id);
        assert At(lists[l], i, id);
        AppearsFlat(lists, l, i, id);
      }
      if id in Ranking(lists, constant) {
        FlatAppears(lists, id);
        var l, j: nat :| 0 <= l < |lists| && At(lists[l], j, id);
        assert lists[l][j].id == Some(id);
      }
    }
    DistinctCount(Ranking(lists, constant), IdsOf(lists));
  }

  /** How many of n results remain, with Python's reading of a negative k. */
  function Remaining(n: nat, k: int): nat {
    if k >= n then n else if k >= 0 then k else if n + k >= 0 then n + k else 0
  }

  /** The fused result: as many distinct ids as were asked for and there are, each with its
      score, scores not increasing, and no record left out scores above one returned. */
  lemma FuseIsTopK(lists: seq<RankList>, k: int, constant: nat)
    ensures var r := Fuse(lists, k, constant);
      && |r| == Remaining(|IdsOf(lists)|, k)
      && (forall i, j :: 0 <= i < j < |r| ==> r[i].id != r[j].id && r[i].score >= r[j].score)
      && (forall i :: 0 <= i < |r| ==> r[i].id in IdsOf(lists) && r[i].score == Score(lists, r[i].id, constant))
      && (forall i, id :: 0 <= i < |r| && id in IdsOf(lists) && (forall j :: 0 <= j < |r| ==> r[j].id != id) ==>
           r[i].score >= Score(lists, id, constant))
  {
    hide Score, Keys, Ranking, Kept, IdsOf;
    var all, r := Ranking(lists, constant), Fuse(lists, k, constant);
    RankingCorrect(lists, constant);
    RankingCount(lists, constant);
    CutIsPrefix(all, k);
    forall i, id | 0 <= i < |r| && id in IdsOf(lists) && (forall j :: 0 <= j < |r| ==> r[j].id != id)
      ensures r[i].score >= Score(lists, id, constant)
    {
      var p :| 0 <= p < |all| && all[p] == id;
      assert forall j :: 0 <= j < |r| ==> r[j].id == all[j];
    }
    forall i | 0 <= i < |r| ensures r[i].id in IdsOf(lists) { assert r[i].id == all[i]; }
  }

  /** The first longest text of the id's records, and the graph flag exactly if one of them has it. */
  ghost predicate IsRichest(docs: seq<Doc>, id: string, text: string, graphHit: bool) {
    && (forall j: nat :: IsOf(docs, j, id) ==> |docs[j].text| <= |text|)
    && (exists j: nat :: FirstLongest(docs, j, id) && docs[j].text == text)
    && (graphHit <==> exists j: nat :: IsOf(docs, j, id) && docs[j].graphHit)
  }

  lemma KeptGives(docs: seq<Doc>, id: string, i: nat)
    requires IsOf(docs, i, id)
    ensures Kept(docs, id) != None && IsRichest(docs, id, Kept(docs, id).value.text, Kept(docs, id).value.graphHit)
  {
    hide Kept;
    KeptIsRichest(docs, id);
  }

  /** Every result carries the richest record of its id. */
  lemma FusedIsRichest(lists: seq<RankList>, k: int, constant: nat, i: nat)
    requires i < |Fuse(lists, k, constant)|
    ensures var x := Fuse(lists, k, constant)[i]; IsRichest(Flat(lists), x.id, x.text, x.graphHit)
  {
    hide Score, Keys, Ranking, Kept, Flat, IsRichest;
    var id, docs := Fuse(lists, k, constant)[i].id, Flat(lists);
    RankingCorrect(lists, constant);
    CutIsPrefix(Ranking(lists, constant), k);
    assert id in Ranking(lists, constant);
    var p :| 0 <= p < |docs| && docs[p].id == Some(id);
    KeptGives(docs, id, p);
  }

  // ---------- ties ----------

  ghost predicate FirstAt(docs: seq<Doc>, p: nat, id: string) {
    IsOf(docs, p, id) && forall q: nat :: q < p ==> !IsOf(docs, q, id)
  }

  /** a first appears before b does. */
  ghost predicate FirstBefore(docs: seq<Doc>, a: string, b: string) {
    exists p: nat, q: nat :: p < q && FirstAt(docs, p, a) && FirstAt(docs, q, b)
  }

  lemma FirstBeforeMore(docs: seq<Doc>, doc: Doc, a: string, b: string)
    requires FirstBefore(docs, a, b)
    ensures FirstBefore(docs + [doc], a, b)
  {
    var p: nat, q: nat :| p < q && FirstAt(docs, p, a) && FirstAt(docs, q, b);
    StillFirst(docs, doc, p, a);
    StillFirst(docs, doc, q, b);
  }

  lemma StillFirst(docs: seq<Doc>, doc: Doc, p: nat, id: string)
    requires FirstAt(docs, p, id)
    ensures FirstAt(docs + [doc], p, id)
  {
    forall q: nat | q < p ensures !IsOf(docs + [doc], q, id) { assert !IsOf(docs, q, id); }
  }

  lemma {:induction false} FirstOf(docs: seq<Doc>, id: string, i: nat) returns (p: nat)
    requires IsOf(docs, i, id)
    ensures p <= i && FirstAt(docs, p, id)
  {
    if q: nat :| q < i && IsOf(docs, q, id) { p := FirstOf(docs, id, q); } else { p := i; }
  }

  /** The keys are in the order in which they first appear. */
  lemma {:induction false} KeysInOrder(docs: seq<Doc>, i: nat, j: nat)
    requires i < j < |Keys(docs)|
    ensures FirstBefore(docs, Keys(docs)[i], Keys(docs)[j])
  {
    hide FirstBefore, FirstAt;
    var n := |docs| - 1;
    var before, doc := docs[..n], docs[n];
    assert docs == before + [doc];
    var keys := Keys(before);
    if j < |keys| {
      KeysInOrder(before, i, j);
      FirstBeforeMore(before, doc, keys[i], keys[j]);
    } else {
      NewKeyLast(before, doc, keys[i], Keys(docs)[j]);
    }
  }

  lemma NewKeyLast(docs: seq<Doc>, doc: Doc, a: string, b: string)
    requires a in Keys(docs) && b !in Keys(docs) && doc.id == Some(b)
    ensures FirstBefore(docs + [doc], a, b)
  {
    hide Keys;
    KeysCorrect(docs);
    var i :| 0 <= i < |docs| && docs[i].id == Some(a);
    var p := FirstOf(docs, a, i);
    StillFirst(docs, doc, p, a);
    forall q: nat | q < |docs| ensures !IsOf(docs + [doc], q, b) {
      assert docs[q].id == Some(b) ==> b in Keys(docs);
    }
    assert FirstAt(docs + [doc], |docs|, b);
  }

  /** Ids of equal score stand in this order. */
  ghost predicate Stable(r: seq<string>, score: string -> real, docs: seq<Doc>) {
    forall i, j :: 0 <= i < j < |r| && score(r[i]) == score(r[j]) ==> FirstBefore(docs, r[i], r[j])
  }

  /** An id is inserted behind all that score as much. */
  lemma {:induction false} InsertedAt(id: string, keys: seq<string>, score: string -> real) returns (p: nat)
    ensures p <= |keys| && InsertKey(id, keys, score) == keys[..p] + [id] + keys[p..]
    ensures forall q :: p <= q < |keys| ==> score(keys[q]) < score(id)
  {
    if keys == [] || score(keys[|keys| - 1]) >= score(id) {
      p := |keys|;
    } else {
      var n := |keys| - 1;
      p := InsertedAt(id, keys[..n], score);
      assert keys[..n][p..] + [keys[n]] == keys[p..];
    }
  }

  lemma InsertStable(id: string, keys: seq<string>, score: string -> real, docs: seq<Doc>)
    requires Stable(keys, score, docs) && forall x :: x in keys ==> FirstBefore(docs, x, id)
    ensures Stable(InsertKey(id, keys, score), score, docs)
  {
    hide FirstBefore, InsertKey;
    var p := InsertedAt(id, keys, score);
  }

  lemma {:induction false} SortStable(keys: seq<string>, score: string -> real, docs: seq<Doc>)
    requires Distinct(keys) && forall i, j :: 0 <= i < j < |keys| ==> FirstBefore(docs, keys[i], keys[j])
    ensures Stable(SortKeys(keys, score), score, docs)
  {
    hide FirstBefore, InsertKey;
    if keys != [] {
      var n := |keys| - 1;
      DistinctPrefix(keys, n);
      SortStable(keys[..n], score, docs);
      SortKeysCorrect(keys[..n], score);
      forall x | x in SortKeys(keys[..n], score) ensures FirstBefore(docs, x, keys[n]) {
        assert x in keys[..n];
        var i :| 0 <= i < n && keys[i] == x;
      }
      InsertStable(keys[n], SortKeys(keys[..n], score), score, docs);
    }
  }

  /** Of two results with equal scores the one whose id appeared first comes first. */
  lemma TiesKeepOrder(lists: seq<RankList>, k: int, constant: nat, i: nat, j: nat)
    requires i < j < |Fuse(lists, k, constant)|
    requires Fuse(lists, k, constant)[i].score == Fuse(lists, k, constant)[j].score
    ensures FirstBefore(Flat(lists), Fuse(lists, k, constant)[i].id, Fuse(lists, k, constant)[j].id)
  {
    hide Score, Keys, Kept, Flat, FirstBefore, SortKeys;
    var docs := Flat(lists);
    KeysCorrect(docs);
    forall a, b | 0 <= a < b < |Keys(docs)| ensures FirstBefore(docs, Keys(docs)[a], Keys(docs)[b]) {
      KeysInOrder(docs, a, b);
    }
    SortStable(Keys(docs), ScoreBy(lists, constant), docs);
    CutIsPrefix(Ranking(lists, constant), k);
  }

  // ---------- dominance ----------

  ghost predicate DistinctIds(list: RankList) {
    forall i, j :: 0 <= i < j < |list| && list[i].id != None ==> list[i].id != list[j].id
  }

  ghost predicate At(list: RankList, i: nat, id: string) {
    i < |list| && list[i].id == Some(id)
  }

  lemma {:induction false} ListScoreAbsent(list: RankList, id: string, constant: nat)
    requires forall i: nat :: !At(list, i, id)
    ensures ListScore(list, id, constant) == 0.0
  {
    if list != [] {
      var n := |list| - 1;
      assert !At(list, n, id);
      forall i: nat ensures !At(list[..n], i, id) { assert !At(list, i, id); }
      ListScoreAbsent(list[..n], id, constant);
    }
  }

  lemma ShareTimesRank(constant: nat, i: nat)
    ensures Share(constant, i) * (constant + i + 1) as real == 1.0
  {
  }

  /** In a list of distinct ids, an id gets the share of its one rank. */
  lemma {:induction false} ListScoreAt(list: RankList, i: nat, id: string, constant: nat)
    requires DistinctIds(list) && At(list, i, id)
    ensures ListScore(list, id, constant) == Share(constant, i)
    ensures ListScore(list, id, constant) * (constant + i + 1) as real == 1.0
  {
    ShareTimesRank(constant, i);
    hide Share;
    var n := |list| - 1;
    if i == n {
      forall j: nat ensures !At(list[..n], j, id) {
        if j < n { assert list[j].id != None ==> list[j].id != list[n].id; }
      }
      ListScoreAbsent(list[..n], id, constant);
    } else {
      assert DistinctIds(list[..n]) && At(list[..n], i, id);
      ListScoreAt(list[..n], i, id, constant);
      assert list[i].id != list[n].id;
    }
  }

  lemma {:induction false} ListScoreNonNegative(list: RankList, id: string, constant: nat)
    ensures ListScore(list, id, constant) >= 0.0
  {
    hide Share;
    if list != [] {
      var n := |list| - 1;
      ListScoreNonNegative(list[..n], id, constant);
      ShareDecreases(constant, n, n + 1);
    }
  }

  /** a is ranked ahead of b wherever b appears in the list. */
  ghost predicate Ahead(list: RankList, a: string, b: string) {
    forall j: nat :: At(list, j, b) ==> exists i: nat :: i < j && At(list, i, a)
  }

  lemma {:induction false} AheadScoresMore(list: RankList, a: string, b: string, constant: nat)
    requires DistinctIds(list) && Ahead(list, a, b)
    ensures ListScore(list, a, constant) >= ListScore(list, b, constant)
    ensures (exists j: nat :: At(list, j, b)) ==> ListScore(list, a, constant) > ListScore(list, b, constant)
  {
    hide ListScore, Share;
    if j: nat :| At(list, j, b) {
      var i: nat :| i < j && At(list, i, a);
      ListScoreAt(list, i, a, constant);
      ListScoreAt(list, j, b, constant);
      ShareDecreases(constant, i, j);
    } else {
      ListScoreAbsent(list, b, constant);
      ListScoreNonNegative(list, a, constant);
    }
  }

  ghost predicate Appears(lists: seq<RankList>, id: string) {
    exists l, j: nat :: 0 <= l < |lists| && At(lists[l], j, id)
  }

  lemma {:induction false} AheadEverywhere(lists: seq<RankList>, a: string, b: string, constant: nat)
    requires forall l :: 0 <= l < |lists| ==> DistinctIds(lists[l]) && Ahead(lists[l], a, b)
    ensures Score(lists, a, constant) >= Score(lists, b, constant)
    ensures Appears(lists, b) ==> Score(lists, a, constant) > Score(lists, b, constant)
  {
    hide ListScore;
    if lists != [] {
      var n := |lists| - 1;
      AheadEverywhere(lists[..n], a, b, constant);
      AheadScoresMore(lists[n], a, b, constant);
      if Appears(lists, b) {
        var l, j: nat :| 0 <= l < |lists| && At(lists[l], j, b);
        if l < n { assert At(lists[..n][l], j, b); }
      }
    }
  }

  /** Dominance: with distinct ids in each list, a record ranked ahead of another
      wherever the other appears precedes it in the output. */
  lemma Dominance(lists: seq<RankList>, a: string, b: string, k: int, constant: nat, q: nat)
    requires forall l :: 0 <= l < |lists| ==> DistinctIds(lists[l]) && Ahead(lists[l], a, b)
    requires q < |Fuse(lists, k, constant)| && Fuse(lists, k, constant)[q].id == b
    ensures exists p :: 0 <= p < q && Fuse(lists, k, constant)[p].id == a
  {
    hide Score, Kept, Ranking;
    var all, r := Ranking(lists, constant), Fuse(lists, k, constant);
    RankingCorrect(lists, constant);
    CutIsPrefix(all, k);
    assert all[q] == b && b in all;
    FlatAppears(lists, b);
    AheadEverywhere(lists, a, b, constant);
    var l, j: nat :| 0 <= l < |lists| && At(lists[l], j, b);
    var i: nat :| i < j && At(lists[l], i, a);
    AppearsFlat(lists, l, i, a);
    assert a in all;
    var p :| 0 <= p < |all| && all[p] == a;
    assert p < q;
    assert r[p].id == a;
  }

  lemma {:induction false} FlatAppears(lists: seq<RankList>, id: string)
    requires exists i :: 0 <= i < |Flat(lists)| && Flat(lists)[i].id == Some(id)
    ensures Appears(lists, id)
  {
    var n := |lists| - 1;
    var init := Flat(lists[..n]);
    var i :| 0 <= i < |Flat(lists)| && Flat(lists)[i].id == Some(id);
    if i < |init| {
      assert init[i].id == Some(id);
      FlatAppears(lists[..n], id);
      var l, j: nat :| 0 <= l < n && At(lists[..n][l], j, id);
      assert At(lists[l], j, id);
    } else {
      assert At(lists[n], i - |init|, id);
    }
  }

  lemma {:induction false} AppearsFlat(lists: seq<RankList>, l: nat, i: nat, id: string)
    requires l < |lists| && At(lists[l], i, id)
    ensures exists p :: 0 <= p < |Flat(lists)| && Flat(lists)[p].id == Some(id)
  {
    var n := |lists| - 1;
    var init := Flat(lists[..n]);
    if l < n {
      AppearsFlat(lists[..n], l, i, id);
      var p :| 0 <= p < |init| && init[p].id == Some(id);
      assert Flat(lists)[p].id == Some(id);
    } else {
      assert Flat(lists)[|init| + i].id == Some(id);
    }
  }

  // ---------- the loops ----------

  /** The two dictionaries, with `keys` their insertion order, after some records. */
  ghost predicate Tables(keys: seq<string>, scores: map<string, real>, docs: map<string, Doc>,
                         seen: seq<Doc>, score: string -> real) {
    && keys == Keys(seen)
    && (forall id :: id in scores <==> id in keys)
    && (forall id :: id in docs <==> id in keys)
    && (forall id :: id in keys ==> scores[id] == score(id))
    && (forall id :: id in keys ==> Kept(seen, id) == Some(docs[id]))
    && (forall id :: id !in keys ==> score(id) == 0.0)
  }

  function ScoreSoFar(lists: seq<RankList>, l: nat, i: nat, constant: nat): string -> real
    requires l < |lists| && i <= |lists[l]|
  {
    id => Score(lists[..l], id, constant) + ListScore(lists[l][..i], id, constant)
  }

  lemma SeenStep(seen: seq<Doc>, doc: Doc)
    ensures (seen + [doc])[..|seen|] == seen
    ensures Keys(seen + [doc]) ==
      (if doc.id == None || doc.id.value in Keys(seen) then Keys(seen) else Keys(seen) + [doc.id.value])
    ensures forall id ::
      Kept(seen + [doc], id) == (if doc.id != Some(id) then Kept(seen, id) else Some(Absorb(Kept(seen, id), doc)))
  {
    assert (seen + [doc])[..|seen|] == seen;
  }

  lemma {:induction false} NotKept(seen: seq<Doc>, id: string)
    requires id !in Keys(seen)
    ensures Kept(seen, id) == None
  {
    KeysCorrect(seen);
    KeptIsRichest(seen, id);
  }

  lemma ScoreStep(lists: seq<RankList>, l: nat, i: nat, constant: nat, id: string)
    requires l < |lists| && i < |lists[l]|
    ensures ScoreSoFar(lists, l, i + 1, constant)(id) == ScoreSoFar(lists, l, i, constant)(id) +
      (if lists[l][i].id == Some(id) then Share(constant, i) else 0.0)
  {
    assert lists[l][..i + 1][..i] == lists[l][..i];
  }

  /** One record of one list: add its share, and merge it into the kept records. */
  method AddRecord(doc: Doc, i: nat, constant: nat, keys: seq<string>, scores: map<string, real>,
                   docs: map<string, Doc>, ghost seen: seq<Doc>, ghost before: string -> real,
                   ghost after: string -> real)
    returns (keys': seq<string>, scores': map<string, real>, docs': map<string, Doc>)
    requires Tables(keys, scores, docs, seen, before)
    requires forall id :: after(id) == before(id) + (if doc.id == Some(id) then Share(constant, i) else 0.0)
    ensures Tables(keys', scores', docs', seen + [doc], after)
  {
    hide Share, Kept, Keys;
    SeenStep(seen, doc);
    keys', scores', docs' := keys, scores, docs;
    if doc.id != None {
      var id := doc.id.value;
      if id !in scores {
        NotKept(seen, id);
        keys' := keys + [id];
      }
      scores' := scores[id := (if id in scores then scores[id] else 0.0) + Share(constant, i)];
      if id !in docs || |doc.text| > |docs[id].text| {
        var prevGraphHit := if id in docs then docs[id].graphHit else false;
        docs' := docs[id := doc];
        if prevGraphHit {
          docs' := docs'[id := docs'[id].(graphHit := true)];
        }
      }
      if doc.graphHit {
        docs' := docs'[id := docs'[id].(graphHit := true)];
      }
    }
  }

  /** Entering a list and leaving it are mere changes of view. */
  lemma EnterList(lists: seq<RankList>, l: nat, constant: nat, keys: seq<string>, scores: map<string, real>,
      docs: map<string, Doc>)
    requires l < |lists| && Tables(keys, scores, docs, Flat(lists[..l]), ScoreBy(lists[..l], constant))
    ensures Tables(keys, scores, docs, Flat(lists[..l]) + lists[l][..0], ScoreSoFar(lists, l, 0, constant))
  {
    hide Score, Keys, Kept, Flat;
    var flat := Flat(lists[..l]);
    assert flat + lists[l][..0] == flat;
  }

  lemma LeaveList(lists: seq<RankList>, l: nat, constant: nat, keys: seq<string>, scores: map<string, real>,
      docs: map<string, Doc>)
    requires l < |lists|
    requires Tables(keys, scores, docs, Flat(lists[..l]) + lists[l][..|lists[l]|],
      ScoreSoFar(lists, l, |lists[l]|, constant))
    ensures Tables(keys, scores, docs, Flat(lists[..l + 1]), ScoreBy(lists[..l + 1], constant))
  {
    hide ListScore, Keys, Kept;
    assert lists[l][..|lists[l]|] == lists[l];
    assert lists[..l + 1][..l] == lists[..l];
  }

  method FillTables(lists: seq<RankList>, constant: nat)
    returns (keys: seq<string>, scores: map<string, real>, docs: map<string, Doc>)
    ensures Tables(keys, scores, docs, Flat(lists), ScoreBy(lists, constant))
  {
    hide Tables, Score, ListScore, Flat, ScoreSoFar;
    keys, scores, docs := [], map[], map[];
    NoTables(lists, constant);
    for l := 0 to |lists|
      invariant Tables(keys, scores, docs, Flat(lists[..l]), ScoreBy(lists[..l], constant))
    {
      EnterList(lists, l, constant, keys, scores, docs);
      ghost var flat := Flat(lists[..l]);
      for i := 0 to |lists[l]|
        invariant Tables(keys, scores, docs, flat + lists[l][..i], ScoreSoFar(lists, l, i, constant))
      {
        forall id ensures ScoreSoFar(lists, l, i + 1, constant)(id) == ScoreSoFar(lists, l, i, constant)(id) +
          (if lists[l][i].id == Some(id) then Share(constant, i) else 0.0)
        {
          ScoreStep(lists, l, i, constant, id);
        }
        assert flat + lists[l][..i] + [lists[l][i]] == flat + lists[l][..i + 1];
        keys, scores, docs := AddRecord(lists[l][i], i, constant, keys, scores, docs, flat + lists[l][..i],
          ScoreSoFar(lists, l, i, constant), ScoreSoFar(lists, l, i + 1, constant));
      }
      LeaveList(lists, l, constant, keys, scores, docs);
    }
    assert lists[..|lists|] == lists;
  }

  lemma NoTables(lists: seq<RankList>, constant: nat)
    ensures Tables([], map[], map[], Flat(lists[..0]), ScoreBy(lists[..0], constant))
  {
  }

  lemma {:induction false} InsertKeySame(id: string, keys: seq<string>, f: string -> real, g: string -> real)
    requires f(id) == g(id) && forall x :: x in keys ==> f(x) == g(x)
    ensures InsertKey(id, keys, f) == InsertKey(id, keys, g)
  {
    if keys != [] { InsertKeySame(id, keys[..|keys| - 1], f, g); }
  }

  lemma {:induction false} SortKeysSame(keys: seq<string>, f: string -> real, g: string -> real)
    requires Distinct(keys) && forall x :: x in keys ==> f(x) == g(x)
    ensures SortKeys(keys, f) == SortKeys(keys, g)
  {
    if keys != [] {
      var n := |keys| - 1;
      DistinctPrefix(keys, n);
      SortKeysSame(keys[..n], f, g);
      SortKeysCorrect(keys[..n], f);
      InsertKeySame(keys[n], SortKeys(keys[..n], f), f, g);
    }
  }

  /** Reading the ranked ids off the two dictionaries. */
  method Emit(ids: seq<string>, scores: map<string, real>, docs: map<string, Doc>, ghost f: string -> Fused)
    returns (fused: seq<Fused>)
    requires forall id :: id in ids ==>
      id in scores && id in docs && f(id) == Fused(id, scores[id], docs[id].text, docs[id].graphHit)
    ensures fused == seq(|ids|, i requires 0 <= i < |ids| => f(ids[i]))
  {
    fused := [];
    for i := 0 to |ids|
      invariant |fused| == i && forall j :: 0 <= j < i ==> fused[j] == f(ids[j])
    {
      fused := fused + [Fused(ids[i], scores[ids[i]], docs[ids[i]].text, docs[ids[i]].graphHit)];
    }
  }

  lemma TablesGive(lists: seq<RankList>, constant: nat, keys: seq<string>, scores: map<string, real>,
      docs: map<string, Doc>, id: string)
    requires Tables(keys, scores, docs, Flat(lists), ScoreBy(lists, constant)) && id in keys
    ensures id in scores && id in docs
    ensures Result(lists, constant, id) == Fused(id, scores[id], docs[id].text, docs[id].graphHit)
  {
    hide Score, Kept, Keys, Flat;
  }

  lemma {:induction false} TablesRank(lists: seq<RankList>, constant: nat, keys: seq<string>, scores: map<string, real>,
      docs: map<string, Doc>, score: string -> real)
    requires Tables(keys, scores, docs, Flat(lists), ScoreBy(lists, constant))
    requires forall id :: id in keys ==> id in scores && score(id) == scores[id]
    ensures SortKeys(keys, score) == Ranking(lists, constant)
    ensures forall id :: id in Ranking(lists, constant) ==> id in keys
  {
    hide Score, Kept, Keys, Flat, SortKeys;
    var spec := ScoreBy(lists, constant);
    KeysCorrect(Flat(lists));
    forall id | id in keys ensures score(id) == spec(id) {}
    SortKeysSame(keys, score, spec);
    SortKeysCorrect(keys, spec);
  }

  method RrfFuse(lists: seq<RankList>, k: int, constant: nat) returns (fused: seq<Fused>)
    ensures fused == Fuse(lists, k, constant)
  {
    hide Tables, Score, Kept, Keys, Flat, SortKeys, Ranking, Result;
    var keys, scores, docs := FillTables(lists, constant);
    forall id | id in keys
      ensures id in scores && id in docs &&
        Result(lists, constant, id) == Fused(id, scores[id], docs[id].text, docs[id].graphHit)
    {
      TablesGive(lists, constant, keys, scores, docs, id);
    }
    var score := (id: string) => if id in scores then scores[id] else 0.0;
    TablesRank(lists, constant, keys, scores, docs, score);
    var ids := Cut(SortKeys(keys, score), k);
    CutIsPrefix(Ranking(lists, constant), k);
    fused := Emit(ids, scores, docs, id => Result(lists, constant, id));
  }
}
