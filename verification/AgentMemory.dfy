/** The vector memory: an append-only nearest-neighbour index, a metadata map that
    decides which documents are live, and a search that over-fetches, adds each
    document's penalty to its distance, sorts and truncates.  Distances and
    penalties are exact reals; the index search itself is an input. */
module AgentMemory {
  import opened Options
  import opened Sequences

  type Vector = seq<real>

  datatype Value = Number(n: real) | Other(text: string)

  /** A metadata string: one that parses to a JSON object, or any other. */
  datatype Meta = Object(fields: map<string, Value>) | Text(text: string)

  datatype Entry = Entry(text: string, meta: Meta)

  datatype Neighbour = Neighbour(id: nat, dist: real)

  datatype Hit = Hit(id: nat, dist: real, text: string, meta: Meta)

  type Metadata = map<nat, Entry>

  const PENALTY := "penalty_score"

  /** The numeric penalty_score field, or 0. */
  function Penalty(meta: Meta): real {
    if meta.Object? && PENALTY in meta.fields && meta.fields[PENALTY].Number? then meta.fields[PENALTY].n else 0.0
  }

  /** update_metadata: fields of two objects are merged, the new ones winning;
      anything else is overwritten. */
  function Merge(old_: Meta, new_: Meta): Meta {
    if old_.Object? && new_.Object? then Object(old_.fields + new_.fields) else new_
  }

  /** After an update with an object a document has the fields of that object, and of its own
      those that the object does not name, if it had an object before. */
  lemma MergedFields(before: Meta, update: Meta, key: string)
    requires update.Object?
    ensures Merge(before, update).Object?
    ensures key in update.fields ==>
      key in Merge(before, update).fields && Merge(before, update).fields[key] == update.fields[key]
    ensures key !in update.fields ==>
      if before.Object? && key in before.fields
      then key in Merge(before, update).fields && Merge(before, update).fields[key] == before.fields[key]
      else key !in Merge(before, update).fields
  {
  }

  /** A stored penalty is the one that search adds, until another is stored; a document
      without a number there has none. */
  lemma StoredPenaltyCounts(before: Meta, update: Meta)
    requires update.Object?
    ensures forall p :: PENALTY in update.fields && update.fields[PENALTY] == Number(p) ==>
      Penalty(Merge(before, update)) == p
    ensures PENALTY !in update.fields && before.Object? ==> Penalty(Merge(before, update)) == Penalty(before)
    ensures PENALTY !in update.fields && before.Text? ==> Penalty(Merge(before, update)) == 0.0
    ensures PENALTY in update.fields && update.fields[PENALTY].Other? ==> Penalty(Merge(before, update)) == 0.0
  {
  }

  // ---------- search ----------

  function ScoreOne(live: Metadata, n: Neighbour): seq<Hit> {
    if n.id in live then [Hit(n.id, n.dist + Penalty(live[n.id].meta), live[n.id].text, live[n.id].meta)] else []
  }

  /** Phase 2: the live neighbours with their effective distances, in order. */
  function Score(live: Metadata, raw: seq<Neighbour>): seq<Hit> {
    if raw == [] then [] else ScoreOne(live, raw[0]) + Score(live, raw[1..])
  }

  function InsertSorted(h: Hit, hits: seq<Hit>): seq<Hit> {
    if hits == [] || hits[|hits| - 1].dist <= h.dist then hits + [h]
    else InsertSorted(h, hits[..|hits| - 1]) + [hits[|hits| - 1]]
  }

  /** Phase 3: a stable sort by effective distance, ascending. */
  function Sort(hits: seq<Hit>): seq<Hit> {
    if hits == [] then [] else InsertSorted(hits[|hits| - 1], Sort(hits[..|hits| - 1]))
  }

  function Take(hits: seq<Hit>, k: nat): seq<Hit> {
    if |hits| <= k then hits else hits[..k]
  }

  /** Phases 2 to 4 on what the index returned. */
  function TopHits(live: Metadata, raw: seq<Neighbour>, k: nat): seq<Hit> {
    Take(Sort(Score(live, raw)), k)
  }

  ghost predicate Ascending(hits: seq<Hit>) {
    forall i, j :: 0 <= i < j < |hits| ==> hits[i].dist <= hits[j].dist
  }

  ghost predicate AscendingRaw(raw: seq<Neighbour>) {
    forall i, j :: 0 <= i < j < |raw| ==> raw[i].dist <= raw[j].dist
  }

  /** Every distance in the list is at most d. */
  ghost predicate AllAtMost(hits: seq<Hit>, d: real) {
    forall x :: x in hits ==> x.dist <= d
  }

  lemma AscendingAppend(hits: seq<Hit>, last: Hit)
    requires Ascending(hits) && AllAtMost(hits, last.dist)
    ensures Ascending(hits + [last])
  {
  }

  lemma InsertBelow(h: Hit, init: seq<Hit>, last: Hit, r: seq<Hit>)
    requires Ascending(init + [last]) && h.dist < last.dist
    requires Ascending(r) && multiset(r) == multiset(init) + multiset{h}
    ensures Ascending(r + [last]) && multiset(r + [last]) == multiset(init + [last]) + multiset{h}
  {
    var hits := init + [last];
    forall x | x in r ensures x.dist <= last.dist {
      assert x in multiset(init) + multiset{h};
      if x != h {
        var i :| 0 <= i < |init| && init[i] == x;
        assert hits[i] == x && hits[|init|] == last;
      }
    }
    AscendingAppend(r, last);
  }

  lemma {:induction false} InsertSortedCorrect(h: Hit, hits: seq<Hit>)
    requires Ascending(hits)
    ensures Ascending(InsertSorted(h, hits))
    ensures multiset(InsertSorted(h, hits)) == multiset(hits) + multiset{h}
  {
    if hits == [] {
    } else if hits[|hits| - 1].dist <= h.dist {
      AscendingAppend(hits, h);
    } else {
      var init, last := hits[..|hits| - 1], hits[|hits| - 1];
      assert hits == init + [last];
      InsertSortedCorrect(h, init);
      InsertBelow(h, init, last, InsertSorted(h, init));
    }
  }

  lemma {:induction false} SortCorrect(hits: seq<Hit>)
    ensures Ascending(Sort(hits)) && multiset(Sort(hits)) == multiset(hits)
  {
    hide InsertSorted;
    if hits != [] {
      SortCorrect(hits[..|hits| - 1]);
      InsertSortedCorrect(hits[|hits| - 1], Sort(hits[..|hits| - 1]));
      assert hits == hits[..|hits| - 1] + [hits[|hits| - 1]];
    }
  }

  // ---------- what search returns, whatever the index returned ----------

  /** h is the live document of some fetched neighbour, at distance plus penalty. */
  ghost predicate IsScored(live: Metadata, raw: seq<Neighbour>, h: Hit) {
    && h.id in live
    && h.text == live[h.id].text && h.meta == live[h.id].meta
    && exists n :: n in raw && n.id == h.id && h.dist == n.dist + Penalty(h.meta)
  }

  lemma {:induction false} ScoreMembers(live: Metadata, raw: seq<Neighbour>, h: Hit)
    requires h in Score(live, raw)
    ensures IsScored(live, raw, h)
  {
    if h in ScoreOne(live, raw[0]) {
      assert raw[0] in raw;
    } else {
      ScoreMembers(live, raw[1..], h);
    }
  }

  lemma TakeMembers(hits: seq<Hit>, k: nat)
    requires Ascending(hits)
    ensures Ascending(Take(hits, k))
    ensures hits == Take(hits, k) + hits[|Take(hits, k)|..]
    ensures multiset(hits) == multiset(Take(hits, k)) + multiset(hits[|Take(hits, k)|..])
    ensures forall x, y :: x in Take(hits, k) && y in hits[|Take(hits, k)|..] ==> x.dist <= y.dist
  {
    var r := Take(hits, k);
    assert hits == r + hits[|r|..];
  }

  /** The result is ascending, at most k long, and holds only live documents, each at
      its own raw distance plus its own penalty. */
  lemma {:induction false} SearchShape(live: Metadata, raw: seq<Neighbour>, k: nat)
    ensures Ascending(TopHits(live, raw, k)) && |TopHits(live, raw, k)| <= k
    ensures |TopHits(live, raw, k)| < k ==> multiset(TopHits(live, raw, k)) == multiset(Score(live, raw))
    ensures forall h :: h in TopHits(live, raw, k) ==> IsScored(live, raw, h)
  {
    hide Sort, Score, IsScored;
    var sorted := Sort(Score(live, raw));
    SortCorrect(Score(live, raw));
    TakeMembers(sorted, k);
    forall h | h in TopHits(live, raw, k) ensures IsScored(live, raw, h) {
      assert h in multiset(sorted);
      assert h in multiset(Score(live, raw));
      ScoreMembers(live, raw, h);
    }
  }

  // ---------- the true top k ----------

  /** r is a top k of `all`: ascending, as long as possible, and nothing left out is
      nearer than anything taken. */
  ghost predicate IsTopK(r: seq<Hit>, all: multiset<Hit>, k: nat) {
    && Ascending(r)
    && multiset(r) <= all
    && |r| == (if |all| < k then |all| else k)
    && forall x, y :: x in r && y in all - multiset(r) ==> x.dist <= y.dist
  }

  ghost predicate NonNegative(live: Metadata) {
    forall id :: id in live ==> Penalty(live[id].meta) >= 0.0
  }

  /** No neighbour of `rest` is nearer than the last one fetched. */
  ghost predicate Beyond(raw: seq<Neighbour>, rest: seq<Neighbour>) {
    forall n :: n in rest && raw != [] ==> raw[|raw| - 1].dist <= n.dist
  }

  /** An exact index: the fetched neighbours are the nearest n of all indexed points,
      ascending; `rest` are the others. */
  ghost predicate IsNearest(all: seq<Neighbour>, n: nat, raw: seq<Neighbour>, rest: seq<Neighbour>) {
    && AscendingRaw(raw) && Beyond(raw, rest)
    && multiset(all) == multiset(raw + rest)
    && (|raw| == n || rest == [])
  }

  /** A check on an answer: k hits were found, and the last one is no farther than the
      last raw distance fetched. */
  predicate Sufficient(raw: seq<Neighbour>, r: seq<Hit>, k: nat) {
    k == 0 || (|r| == k && raw != [] && r[k - 1].dist <= raw[|raw| - 1].dist)
  }

  lemma {:induction false} ScoreAppend(live: Metadata, a: seq<Neighbour>, b: seq<Neighbour>)
    ensures Score(live, a + b) == Score(live, a) + Score(live, b)
  {
    if a == [] {
      assert a + b == b;
    } else {
      assert (a + b)[1..] == a[1..] + b;
      ScoreAppend(live, a[1..], b);
    }
  }

  lemma ScoreLast(live: Metadata, raw: seq<Neighbour>, i: nat)
    requires i < |raw|
    ensures Score(live, raw[..i + 1]) == Score(live, raw[..i]) + ScoreOne(live, raw[i])
  {
    assert raw[..i + 1] == raw[..i] + [raw[i]];
    ScoreAppend(live, raw[..i], [raw[i]]);
    assert [raw[i]][1..] == [];
  }

  lemma {:induction false} ScoreWithout(live: Metadata, b: seq<Neighbour>, i: nat)
    requires i < |b|
    ensures multiset(Score(live, b)) == multiset(ScoreOne(live, b[i])) + multiset(Score(live, Without(b, i)))
  {
    hide ScoreOne;
    WithoutParts(b, i);
    ScoreAppend(live, b[..i], [b[i]] + b[i + 1..]);
    ScoreAppend(live, b[..i], b[i + 1..]);
    assert ([b[i]] + b[i + 1..])[1..] == b[i + 1..];
  }

  /** The scored documents depend only on which neighbours there are, not on their order. */
  lemma {:induction false} ScorePermutes(live: Metadata, a: seq<Neighbour>, b: seq<Neighbour>)
    requires multiset(a) == multiset(b)
    ensures multiset(Score(live, a)) == multiset(Score(live, b))
    decreases |a|
  {
    hide ScoreOne, Without;
    if a == [] {
      NothingElse(b);
    } else {
      var i := SameWithoutFirst(a, b);
      ScorePermutes(live, a[1..], Without(b, i));
      ScoreWithout(live, b, i);
    }
  }

  lemma {:induction false} FarHits(live: Metadata, raw: seq<Neighbour>, rest: seq<Neighbour>, y: Hit)
    requires NonNegative(live) && Beyond(raw, rest) && raw != [] && y in Score(live, rest)
    ensures raw[|raw| - 1].dist <= y.dist
  {
    ScoreMembers(live, rest, y);
  }

  /** Nothing left unfetched is nearer than what is returned, and k were found or nothing
      was left: then the result is a top k of everything. */
  lemma TopKOfParts(live: Metadata, raw: seq<Neighbour>, rest: seq<Neighbour>, k: nat)
    requires forall x, y :: x in TopHits(live, raw, k) && y in Score(live, rest) ==> x.dist <= y.dist
    requires |TopHits(live, raw, k)| == k || Score(live, rest) == []
    ensures IsTopK(TopHits(live, raw, k), multiset(Score(live, raw + rest)), k)
  {
    hide Score, Sort, IsTopK, Ascending;
    ScoreAppend(live, raw, rest);
    SortCorrect(Score(live, raw));
    SortedLength(Score(live, raw));
    TakenIsTopK(Sort(Score(live, raw)), Score(live, raw), Score(live, rest), k);
  }

  /** The check is enough: with it, or with everything fetched, the result is the true
      top k of all candidates. */
  lemma {:induction false} SearchIsTopK(live: Metadata, all: seq<Neighbour>, raw: seq<Neighbour>, rest: seq<Neighbour>,
      k: nat)
    requires NonNegative(live) && IsNearest(all, 5 * k, raw, rest)
    requires rest == [] || Sufficient(raw, TopHits(live, raw, k), k)
    ensures IsTopK(TopHits(live, raw, k), multiset(Score(live, all)), k)
  {
    hide Score, TopHits, IsTopK, NonNegative, Ascending;
    ScorePermutes(live, all, raw + rest);
    SearchShape(live, raw, k);
    if rest == [] {
      NoneScored(live);
    } else {
      forall x, y | x in TopHits(live, raw, k) && y in Score(live, rest) ensures x.dist <= y.dist {
        FarHits(live, raw, rest, y);
        AtMostLast(TopHits(live, raw, k), x);
      }
    }
    TopKOfParts(live, raw, rest, k);
  }

  lemma AtMostLast(r: seq<Hit>, x: Hit)
    requires Ascending(r) && x in r
    ensures x.dist <= r[|r| - 1].dist
  {
  }

  lemma NoneScored(live: Metadata)
    ensures Score(live, []) == []
  {
  }

  lemma TakenIsTopK(sorted: seq<Hit>, near: seq<Hit>, far: seq<Hit>, k: nat)
    requires Ascending(sorted) && multiset(sorted) == multiset(near) && |sorted| == |near|
    requires forall x, y :: x in Take(sorted, k) && y in far ==> x.dist <= y.dist
    requires |Take(sorted, k)| >= k || far == []
    ensures IsTopK(Take(sorted, k), multiset(near + far), k)
  {
    var r := Take(sorted, k);
    TakeMembers(sorted, k);
    var tail := sorted[|r|..];
    var all := multiset(near + far);
    assert all == multiset(near) + multiset(far);
    assert all - multiset(r) == multiset(tail) + multiset(far);
    assert |all| == |near| + |far|;
    forall x, y | x in r && y in all - multiset(r) ensures x.dist <= y.dist {
      assert y in multiset(tail) || y in multiset(far);
    }
  }

  lemma SortedLength(hits: seq<Hit>)
    ensures |Sort(hits)| == |hits|
  {
    SortCorrect(hits);
    assert |multiset(Sort(hits))| == |multiset(hits)|;
  }

  // ---------- the memory ----------

  datatype Point = Point(id: nat, embedding: Vector)

  datatype Error = DimMismatch(expected: nat, got: nat)

  datatype Outcome<T> = Ok(value: T) | Err(error: Error)

  /** Every live document has a point. */
  ghost predicate Covered(live: Metadata, index: seq<Point>) {
    forall id :: id in live ==> HasPoint(index, id)
  }

  ghost predicate HasPoint(index: seq<Point>, id: nat) {
    exists i :: 0 <= i < |index| && index[i].id == id
  }

  /** No live document has two points. */
  ghost predicate LiveOnce(live: Metadata, index: seq<Point>) {
    forall i, j :: 0 <= i < j < |index| && index[i].id == index[j].id ==> index[i].id !in live
  }

  lemma InsertPoint(live: Metadata, index: seq<Point>, p: Point, entry: Entry)
    ensures forall id :: HasPoint(index + [p], id) <==> HasPoint(index, id) || id == p.id
    ensures LiveOnce(live[p.id := entry], index + [p]) <==> LiveOnce(live, index) && !HasPoint(index, p.id)
  {
    var all, live' := index + [p], live[p.id := entry];
    assert all[|index|] == p;
    forall id ensures HasPoint(all, id) <==> HasPoint(index, id) || id == p.id {
      if HasPoint(index, id) {
        var i :| 0 <= i < |index| && index[i].id == id;
        assert all[i].id == id;
      }
    }
    if HasPoint(index, p.id) {
      var i :| 0 <= i < |index| && index[i].id == p.id;
      assert all[i].id == all[|index|].id && all[i].id in live';
    } else {
      assert forall i :: 0 <= i < |index| ==> index[i].id != p.id && all[i] == index[i];
      if LiveOnce(live', all) {
        forall i, j | 0 <= i < j < |index| && index[i].id == index[j].id ensures index[i].id !in live {
          assert all[i].id == all[j].id;
        }
      }
    }
  }

  class Memory {
    const dim: nat
    var index: seq<Point>
    var metadata: Metadata

    constructor (dim: nat)
      ensures this.dim == dim && index == [] && metadata == map[]
    {
      this.dim := dim;
      index, metadata := [], map[];
    }

    /** Every live document has a point in the index, and all points have the right
        dimension. */
    ghost predicate Valid()
      reads this
    {
      && Covered(metadata, index)
      && (forall i :: 0 <= i < |index| ==> |index[i].embedding| == dim)
    }

    method Insert(id: nat, embedding: Vector, text: string, meta: Meta) returns (r: Outcome<()>)
      requires Valid()
      modifies this
      ensures Valid()
      ensures |embedding| != dim ==>
        r == Err(DimMismatch(dim, |embedding|)) && index == old(index) && metadata == old(metadata)
      ensures |embedding| == dim ==>
        r == Ok(()) && index == old(index) + [Point(id, embedding)] &&
          metadata == old(metadata)[id := Entry(text, meta)]
      ensures |embedding| == dim ==>
        (LiveOnce(metadata, index) <==> old(LiveOnce(metadata, index)) && !old(HasPoint(index, id)))
    {
      hide HasPoint, LiveOnce;
      if |embedding| != dim {
        return Err(DimMismatch(dim, |embedding|));
      }
      InsertPoint(metadata, index, Point(id, embedding), Entry(text, meta));
      index := index + [Point(id, embedding)];
      metadata := metadata[id := Entry(text, meta)];
      r := Ok(());
    }

    /** Soft delete: the point stays in the index, the document is no longer live. */
    method Remove(id: nat) returns (r: Option<Entry>)
      requires Valid()
      modifies this`metadata
      ensures Valid()
      ensures metadata == old(metadata) - {id}
      ensures old(LiveOnce(metadata, index)) ==> LiveOnce(metadata, index)
      ensures r == if id in old(metadata) then Some(old(metadata)[id]) else None
    {
      r := if id in metadata then Some(metadata[id]) else None;
      metadata := metadata - {id};
    }

    method UpdateMetadata(id: nat, meta: Meta) returns (found: bool)
      requires Valid()
      modifies this`metadata
      ensures Valid()
      ensures found <==> id in old(metadata)
      ensures !found ==> metadata == old(metadata)
      ensures found ==>
        metadata == old(metadata)[id := Entry(old(metadata)[id].text, Merge(old(metadata)[id].meta, meta))]
    {
      if id !in metadata {
        return false;
      }
      metadata := metadata[id := Entry(metadata[id].text, Merge(metadata[id].meta, meta))];
      found := true;
    }

    /** `raw` is what the index returns for the query and 5k. */
    method Search(query: Vector, k: nat, raw: seq<Neighbour>) returns (r: Outcome<seq<Hit>>)
      ensures |query| != dim ==> r == Err(DimMismatch(dim, |query|))
      ensures |query| == dim ==> r == Ok(TopHits(metadata, raw, k))
    {
      if |query| != dim {
        return Err(DimMismatch(dim, |query|));
      }
      var scored: seq<Hit> := [];
      for i := 0 to |raw|
        invariant scored == Score(metadata, raw[..i])
      {
        ScoreLast(metadata, raw, i);
        scored := scored + ScoreOne(metadata, raw[i]);
      }
      assert raw[..|raw|] == raw;
      scored := Sort(scored);
      if |scored| > k {
        scored := scored[..k];
      }
      r := Ok(scored);
    }
  }

  /** All indexed points as neighbours of a query. */
  function NeighboursOf(index: seq<Point>, query: Vector, distance: (Vector, Vector) -> real): seq<Neighbour> {
    seq(|index|, i requires 0 <= i < |index| => Neighbour(index[i].id, distance(query, index[i].embedding)))
  }
}
