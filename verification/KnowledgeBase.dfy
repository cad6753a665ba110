/** The knowledge-base loader: streaming a text file into paragraphs, and cutting
    long paragraphs into chunks on sentence boundaries. */
module KnowledgeBase {
  import opened Text

  // ---------- _chunk: what it yields ----------

  /** A sentence longer than max is cut every max characters; the last piece is kept open. */
  function Pieces(s: string, max: nat): (r: seq<string>)
    requires max > 0
    ensures r != []
  {
    if |s| <= max then [s] else [s[..max]] + Pieces(s[max..], max)
  }

  function Flush(open: string): seq<string> {
    if open == "" then [] else [open]
  }

  /** The chunks before stripping, with `open` the text of the chunk being filled. */
  function Groups(sentences: seq<string>, open: string, max: nat): seq<string>
    requires max > 0
  {
    if sentences == [] then Flush(open)
    else
      var s := sentences[0] + ". ";
      if |open| + |s| <= max then Groups(sentences[1..], open + s, max)
      else if |s| > max then
        Flush(open) + (Front(Pieces(s, max)) + Groups(sentences[1..], Last(Pieces(s, max)), max))
      else
        Flush(open) + Groups(sentences[1..], s, max)
  }

  function StripAll(parts: seq<string>): seq<string> {
    seq(|parts|, i requires 0 <= i < |parts| => Strip(parts[i]))
  }

  function Sentences(text: string): seq<string> {
    Split(Replace(text, "\n", " "), ". ")
  }

  function Chunks(text: string, max: nat): seq<string>
    requires max > 0
  {
    if |text| <= max then [text] else StripAll(Groups(Sentences(text), "", max))
  }

  // ---------- _chunk: the loops ----------

  lemma StripAllAppend(a: seq<string>, b: seq<string>)
    ensures StripAll(a + b) == StripAll(a) + StripAll(b)
  {
  }

  /** Cuts one over-long sentence, yielding all its pieces but the last. */
  method CutSentence(sentence: string, max: nat) returns (yielded: seq<string>, rest: string)
    requires max > 0
    ensures yielded == StripAll(Front(Pieces(sentence, max))) && rest == Last(Pieces(sentence, max))
    ensures sentence != "" ==> rest != ""
  {
    yielded, rest := [], sentence;
    while |rest| > max
      invariant yielded + StripAll(Front(Pieces(rest, max))) == StripAll(Front(Pieces(sentence, max)))
      invariant Last(Pieces(rest, max)) == Last(Pieces(sentence, max))
      invariant sentence != "" ==> rest != ""
      decreases |rest|
    {
      CutStep(yielded, rest, max);
      yielded := yielded + [Strip(rest[..max])];
      rest := rest[max..];
    }
  }

  lemma PiecesStep(s: string, max: nat)
    requires 0 < max < |s|
    ensures Front(Pieces(s, max)) == [s[..max]] + Front(Pieces(s[max..], max))
    ensures Last(Pieces(s, max)) == Last(Pieces(s[max..], max))
  {
    FrontLast(s[..max], Pieces(s[max..], max));
  }

  lemma {:induction false} CutStep(yielded: seq<string>, s: string, max: nat)
    requires 0 < max < |s|
    ensures yielded + StripAll(Front(Pieces(s, max))) ==
      yielded + [Strip(s[..max])] + StripAll(Front(Pieces(s[max..], max)))
    ensures Last(Pieces(s, max)) == Last(Pieces(s[max..], max))
  {
    PiecesStep(s, max);
    StripAllAppend([s[..max]], Front(Pieces(s[max..], max)));
    assert StripAll([s[..max]]) == [Strip(s[..max])];
  }

  /** `current` is the list of texts being joined into the open chunk. */
  ghost predicate Holds(current: seq<string>, currentLen: nat) {
    && currentLen == |Concat(current)|
    && (current == [] <==> Concat(current) == "")
  }

  lemma HoldsOne(s: string)
    requires s != ""
    ensures Concat([s]) == s && Holds([s], |s|)
  {
    assert Concat([s]) == s + Concat([]);
  }

  lemma HoldsMore(current: seq<string>, currentLen: nat, s: string)
    requires Holds(current, currentLen) && s != ""
    ensures Concat(current + [s]) == Concat(current) + s && Holds(current + [s], currentLen + |s|)
  {
    ConcatAppend(current, [s]);
    HoldsOne(s);
  }

  /** One sentence of the loop: what it yields and how the open chunk changes. */
  method AddSentence(sent: string, current: seq<string>, currentLen: nat, max: nat, ghost rest: seq<string>)
    returns (yielded: seq<string>, current': seq<string>, currentLen': nat)
    requires max > 0 && Holds(current, currentLen)
    ensures Holds(current', currentLen')
    ensures StripAll(Groups([sent] + rest, Concat(current), max)) ==
      yielded + StripAll(Groups(rest, Concat(current'), max))
  {
    assert ([sent] + rest)[1..] == rest;
    yielded, current', currentLen' := [], current, currentLen;
    var sentWithSep := sent + ". ";
    ghost var open := Concat(current);
    if currentLen + |sentWithSep| <= max {
      HoldsMore(current, currentLen, sentWithSep);
      current', currentLen' := current + [sentWithSep], currentLen + |sentWithSep|;
    } else {
      if current != [] {
        yielded := [Strip(Concat(current))];
      }
      assert yielded == StripAll(Flush(open));
      if |sentWithSep| > max {
        var pieces, inner := CutSentence(sentWithSep, max);
        HoldsOne(inner);
        ghost var after := Groups(rest, inner, max);
        StripAllAppend(Front(Pieces(sentWithSep, max)), after);
        StripAllAppend(Flush(open), Front(Pieces(sentWithSep, max)) + after);
        yielded := yielded + pieces;
        current', currentLen' := [inner], |inner|;
      } else {
        HoldsOne(sentWithSep);
        StripAllAppend(Flush(open), Groups(rest, sentWithSep, max));
        current', currentLen' := [sentWithSep], |sentWithSep|;
      }
    }
  }

  method Chunk(text: string, max: nat) returns (yielded: seq<string>)
    requires max > 0
    ensures yielded == Chunks(text, max)
  {
    if |text| <= max {
      return [text];
    }
    var sentences := Split(Replace(text, "\n", " "), ". ");
    var current, currentLen := [], 0;
    yielded := [];
    for k := 0 to |sentences|
      invariant Holds(current, currentLen)
      invariant Chunks(text, max) == yielded + StripAll(Groups(sentences[k..], Concat(current), max))
    {
      assert sentences[k..] == [sentences[k]] + sentences[k + 1..];
      var more;
      more, current, currentLen := AddSentence(sentences[k], current, currentLen, max, sentences[k + 1..]);
      yielded := yielded + more;
    }
    if current != [] {
      yielded := yielded + [Strip(Concat(current))];
    }
  }

  // ---------- _chunk: what it guarantees ----------

  function WithSeparators(sentences: seq<string>): string {
    if sentences == [] then "" else sentences[0] + ". " + WithSeparators(sentences[1..])
  }

  lemma {:induction false} JoinWithSeparators(sentences: seq<string>)
    requires sentences != []
    ensures WithSeparators(sentences) == Join(sentences, ". ") + ". "
  {
    if |sentences| > 1 { JoinWithSeparators(sentences[1..]); }
  }

  lemma {:induction false} PiecesConcat(s: string, max: nat)
    requires max > 0
    ensures Concat(Front(Pieces(s, max))) + Last(Pieces(s, max)) == s
    ensures forall k :: 0 <= k < |Pieces(s, max)| ==> |Pieces(s, max)[k]| <= max
    decreases |s|
  {
    if |s| > max {
      PiecesConcat(s[max..], max);
      PiecesStep(s, max);
      assert s == s[..max] + s[max..];
    }
  }

  lemma FlushConcat(open: string, more: seq<string>)
    ensures Concat(Flush(open) + more) == open + Concat(more)
  {
    if open == "" {
      assert Flush(open) + more == more;
    }
  }

  /** Concatenating after cutting a long sentence. */
  lemma CutConcat(open: string, s: string, rest: seq<string>, more: string, max: nat)
    requires max > 0 && Concat(rest) == Last(Pieces(s, max)) + more
    ensures Concat(Flush(open) + (Front(Pieces(s, max)) + rest)) == open + (s + more)
  {
    var p := Pieces(s, max);
    FlushConcat(open, Front(p) + rest);
    ConcatAppend(Front(p), rest);
    PiecesConcat(s, max);
    assert Concat(Front(p)) + (Last(p) + more) == (Concat(Front(p)) + Last(p)) + more;
  }

  /** No text is lost or reordered before stripping. */
  lemma {:induction false} GroupsConcat(sentences: seq<string>, open: string, max: nat)
    requires max > 0
    ensures Concat(Groups(sentences, open, max)) == open + WithSeparators(sentences)
  {
    if sentences == [] {
      FlushConcat(open, []);
      assert Flush(open) + [] == Flush(open);
    } else {
      var s, more := sentences[0] + ". ", WithSeparators(sentences[1..]);
      assert open + WithSeparators(sentences) == open + (s + more);
      if |open| + |s| <= max {
        GroupsConcat(sentences[1..], open + s, max);
        assert open + (s + more) == (open + s) + more;
      } else if |s| > max {
        var rest := Groups(sentences[1..], Last(Pieces(s, max)), max);
        GroupsConcat(sentences[1..], Last(Pieces(s, max)), max);
        CutConcat(open, s, rest, more, max);
      } else {
        GroupsConcat(sentences[1..], s, max);
        FlushConcat(open, Groups(sentences[1..], s, max));
      }
    }
  }

  ghost predicate AllWithin(parts: seq<string>, max: nat) {
    forall k :: 0 <= k < |parts| ==> |parts[k]| <= max
  }

  lemma {:induction false} GroupsBounded(sentences: seq<string>, open: string, max: nat)
    requires max > 0 && |open| <= max
    ensures AllWithin(Groups(sentences, open, max), max)
  {
    if sentences != [] {
      var s := sentences[0] + ". ";
      if |open| + |s| <= max {
        GroupsBounded(sentences[1..], open + s, max);
      } else if |s| > max {
        PiecesConcat(s, max);
        GroupsBounded(sentences[1..], Last(Pieces(s, max)), max);
      } else {
        GroupsBounded(sentences[1..], s, max);
      }
    }
  }

  /** Every chunk has at most max characters. */
  lemma ChunksBounded(text: string, max: nat)
    requires max > 0
    ensures forall k :: 0 <= k < |Chunks(text, max)| ==> |Chunks(text, max)[k]| <= max
  {
    if |text| > max {
      var g := Groups(Sentences(text), "", max);
      GroupsBounded(Sentences(text), "", max);
      forall k | 0 <= k < |g| ensures |Strip(g[k])| <= max { StripKeeps(g[k]); }
    }
  }

  /** No two neighbours would fit together, and none is empty. */
  ghost predicate Packed(g: seq<string>, max: nat) {
    && (forall i :: 0 <= i < |g| ==> g[i] != "")
    && (forall i :: 0 < i < |g| ==> |g[i - 1]| + |g[i]| > max)
  }

  /** The cut pieces of a long sentence are as long as can be, and the last is not empty. */
  lemma {:induction false} PiecesFull(s: string, max: nat)
    requires 0 < max && s != ""
    ensures forall k :: 0 <= k < |Pieces(s, max)| - 1 ==> |Pieces(s, max)[k]| == max
    ensures Last(Pieces(s, max)) != ""
    decreases |s|
  {
    if |s| > max {
      PiecesFull(s[max..], max);
      PiecesStep(s, max);
    }
  }

  lemma PackedCut(open: string, p: seq<string>, rest: seq<string>, max: nat)
    requires max > 0 && p != [] && Last(p) != "" && Packed(rest, max) && rest != [] && Last(p) <= rest[0]
    requires forall k :: 0 <= k < |p| - 1 ==> |p[k]| == max
    requires |p| > 1
    ensures Packed(Flush(open) + (Front(p) + rest), max)
    ensures open != "" ==> open <= (Flush(open) + (Front(p) + rest))[0]
  {
  }

  /** What is open begins the first group, and no two neighbouring groups would fit together. */
  lemma {:induction false} GroupsPacked(sentences: seq<string>, open: string, max: nat)
    requires max > 0
    ensures Packed(Groups(sentences, open, max), max)
    ensures open != "" ==> Groups(sentences, open, max) != [] && open <= Groups(sentences, open, max)[0]
  {
    if sentences != [] {
      var s := sentences[0] + ". ";
      if |open| + |s| <= max {
        GroupsPacked(sentences[1..], open + s, max);
      } else if |s| > max {
        var p := Pieces(s, max);
        PiecesFull(s, max);
        GroupsPacked(sentences[1..], Last(p), max);
        PackedCut(open, p, Groups(sentences[1..], Last(p), max), max);
      } else {
        GroupsPacked(sentences[1..], s, max);
      }
    }
  }

  /** A text that has to be cut is cut as seldom as can be: its chunks are groups of whole
      text, stripped, of which no two neighbours would have fitted into one chunk. */
  lemma ChunksPacked(text: string, max: nat) returns (groups: seq<string>)
    requires 0 < max < |text|
    ensures Chunks(text, max) == StripAll(groups) && Concat(groups) == Replace(text, "\n", " ") + ". "
    ensures AllWithin(groups, max) && Packed(groups, max)
  {
    groups := Groups(Sentences(text), "", max);
    GroupsPacked(Sentences(text), "", max);
    GroupsBounded(Sentences(text), "", max);
    GroupsConcat(Sentences(text), "", max);
    SentencesRebuild(text);
  }

  lemma {:induction false} SolidStripAll(parts: seq<string>)
    ensures Solid(Concat(StripAll(parts))) == Solid(Concat(parts))
  {
    if parts != [] {
      SolidStripAll(parts[1..]);
      assert StripAll(parts)[1..] == StripAll(parts[1..]);
      StripKeeps(parts[0]);
      SolidConcat(Strip(parts[0]), Concat(StripAll(parts[1..])));
      SolidConcat(parts[0], Concat(parts[1..]));
    }
  }

  /** Newlines become spaces, one for one. */
  lemma {:induction false} NewlinesToSpaces(s: string)
    ensures Solid(Replace(s, "\n", " ")) == Solid(s) && |Replace(s, "\n", " ")| == |s|
    decreases |s|
  {
    if s != "" {
      NewlinesToSpaces(s[1..]);
      var rest := Split(s[1..], "\n");
      if s[..1] == "\n" {
        assert s[0] == '\n';
        assert ([""] + rest)[1..] == rest;
        assert Replace(s, "\n", " ") == "" + " " + Replace(s[1..], "\n", " ");
        SolidConcat(" ", Replace(s[1..], "\n", " "));
      } else {
        JoinHead(s[0], rest, " ");
        assert Replace(s, "\n", " ") == [s[0]] + Replace(s[1..], "\n", " ");
        SolidConcat([s[0]], Replace(s[1..], "\n", " "));
      }
    }
  }

  lemma SentencesRebuild(text: string)
    ensures WithSeparators(Sentences(text)) == Replace(text, "\n", " ") + ". "
  {
    SplitIsSplit(Replace(text, "\n", " "), ". ");
    JoinWithSeparators(Sentences(text));
  }

  lemma SolidFlat(text: string)
    ensures Solid(Replace(text, "\n", " ") + ". ") == Solid(text) + "."
  {
    SolidConcat(Replace(text, "\n", " "), ". ");
    NewlinesToSpaces(text);
    SolidSeparator();
  }

  lemma GroupsKeepText(text: string, max: nat)
    requires max > 0
    ensures Solid(Concat(StripAll(Groups(Sentences(text), "", max)))) == Solid(text) + "."
  {
    var sentences := Sentences(text);
    var g := Groups(sentences, "", max);
    GroupsConcat(sentences, "", max);
    SolidStripAll(g);
    SentencesRebuild(text);
    assert "" + WithSeparators(sentences) == WithSeparators(sentences);
    SolidFlat(text);
  }

  lemma ConcatOne(s: string)
    ensures Concat([s]) == s
  {
    assert Concat([s]) == s + Concat([]);
  }

  /** Chunking keeps every character that is not white space, in order, and adds one
      final full stop when it splits at all. */
  lemma {:induction false} ChunksKeepText(text: string, max: nat)
    requires max > 0
    ensures Solid(Concat(Chunks(text, max))) == Solid(text) + (if |text| > max then "." else "")
  {
    if |text| <= max { ConcatOne(text); } else { GroupsKeepText(text, max); }
  }

  lemma SolidSeparator()
    ensures Solid(". ") == "."
  {
    var dot, space := ['.'], [' '];
    assert ". " == dot + space;
    SolidConcat(dot, space);
    assert dot[1..] == "" && space[1..] == "";
  }

  ghost predicate InSome(x: string, parts: seq<string>) {
    exists k :: 0 <= k < |parts| && Infix(x, parts[k])
  }

  lemma InSomeLater(x: string, before: seq<string>, parts: seq<string>)
    requires InSome(x, parts)
    ensures InSome(x, before + parts)
  {
    var k :| 0 <= k < |parts| && Infix(x, parts[k]);
    assert (before + parts)[|before| + k] == parts[k];
  }

  /** What is open stays in one piece. */
  lemma {:induction false} OpenStaysWhole(sentences: seq<string>, a: string, x: string, b: string, max: nat)
    requires max > 0 && x != ""
    ensures InSome(x, Groups(sentences, a + x + b, max))
  {
    var open := a + x + b;
    if sentences != [] && |open| + |sentences[0] + ". "| <= max {
      var s := sentences[0] + ". ";
      OpenStaysWhole(sentences[1..], a, x, b + s, max);
      assert a + x + (b + s) == open + s;
    } else {
      var g := Groups(sentences, open, max);
      assert g[0] == open && Infix(x, open);
    }
  }

  lemma {:induction false} FittingSentenceInGroup(sentences: seq<string>, open: string, max: nat, j: nat)
    requires max > 0 && j < |sentences| && |sentences[j] + ". "| <= max
    ensures InSome(sentences[j] + ". ", Groups(sentences, open, max))
  {
    var s := sentences[0] + ". ";
    var x := sentences[j] + ". ";
    if j > 0 {
      if |open| + |s| <= max {
        FittingSentenceInGroup(sentences[1..], open + s, max, j - 1);
      } else if |s| > max {
        var p := Pieces(s, max);
        FittingSentenceInGroup(sentences[1..], Last(p), max, j - 1);
        InSomeLater(x, Front(p), Groups(sentences[1..], Last(p), max));
        InSomeLater(x, Flush(open), Front(p) + Groups(sentences[1..], Last(p), max));
      } else {
        FittingSentenceInGroup(sentences[1..], s, max, j - 1);
        InSomeLater(x, Flush(open), Groups(sentences[1..], s, max));
      }
    } else if |open| + |s| <= max {
      OpenStaysWhole(sentences[1..], open, x, "", max);
      assert open + x + "" == open + s;
    } else {
      OpenStaysWhole(sentences[1..], "", x, "", max);
      assert "" + x + "" == s;
      InSomeLater(x, Flush(open), Groups(sentences[1..], s, max));
    }
  }

  lemma {:induction false} SolidNonBlank(s: string)
    requires Solid(s) != ""
    ensures Strip(s) != ""
  {
    StripKeeps(s);
  }

  /** A sentence that fits in a chunk with its separator is never cut: apart from
      white space at its ends, some chunk contains all of it. */
  lemma FittingSentenceUncut(text: string, max: nat, j: nat)
    requires 0 < max < |text| && j < |Sentences(text)| && |Sentences(text)[j] + ". "| <= max
    ensures InSome(Strip(Sentences(text)[j] + ". "), Chunks(text, max))
  {
    var x := Sentences(text)[j] + ". ";
    var g := Groups(Sentences(text), "", max);
    FittingSentenceInGroup(Sentences(text), "", max, j);
    var k :| 0 <= k < |g| && Infix(x, g[k]);
    var a, b :| g[k] == a + x + b;
    SolidConcat(Sentences(text)[j], ". ");
    SolidSeparator();
    SolidNonBlank(x);
    StripInfix(a, x, b);
    assert Chunks(text, max)[k] == Strip(g[k]);
  }

  // ---------- _stream_text ----------

  /** A blank paragraph yields nothing, any other its chunks once stripped. */
  function ChunksOf(para: string, max: nat): seq<string>
    requires max > 0
  {
    if Strip(para) == "" then [] else Chunks(Strip(para), max)
  }

  /** A paragraph that fits into one chunk is one chunk, without the white space at its ends;
      one of white space only is none. */
  lemma ShortParagraph(para: string, max: nat)
    requires max > 0 && |Strip(para)| <= max
    ensures ChunksOf(para, max) == if Blank(para) then [] else [Strip(para)]
  {
    StripEmptyIff(para);
  }

  function Chunker(max: nat): string -> seq<string>
    requires max > 0
  {
    (para: string) => ChunksOf(para, max)
  }

  function ChunkAll(paragraphs: seq<string>, max: nat): seq<string>
    requires max > 0
  {
    FlatMap(Chunker(max), paragraphs)
  }

  /** The text read before the end of file, which shows as an empty read. */
  function UntilEof(inputs: seq<string>): seq<string> {
    if inputs == [] || inputs[0] == "" then [] else [inputs[0]] + UntilEof(inputs[1..])
  }

  /** Paragraphs are separated by an empty line. */
  const BREAK: string := "\n\n"

  /** What a whole file yields, read in one piece. */
  function WholeFile(text: string, max: nat): seq<string>
    requires max > 0
  {
    ChunkAll(Split(text, BREAK), max)
  }

  /** A text without an empty line is one paragraph; after an empty line another begins. */
  lemma ParagraphsEndAtEmptyLine(a: string, b: string, max: nat)
    requires max > 0
    ensures !Contains(a, "\n\n") ==> WholeFile(a, max) == ChunksOf(a, max)
    ensures EndsAtFirst(a, "\n\n") ==> WholeFile(a + "\n\n" + b, max) == ChunksOf(a, max) + WholeFile(b, max)
  {
    hide Split, Contains, EndsAtFirst, ChunksOf;
    if !Contains(a, "\n\n") {
      SplitNone(a, "\n\n");
      FlatMapStep(Chunker(max), [], a);
    }
    if EndsAtFirst(a, "\n\n") {
      SplitAfter(a, b, "\n\n");
      FlatMapAppend(Chunker(max), [a], Split(b, "\n\n"));
      FlatMapStep(Chunker(max), [], a);
      assert [] + [a] == [a];
    }
  }

  /** The streaming loop after some reads: what it has yielded, and the unfinished
      paragraph it keeps in its buffer. */
  function StreamState(inputs: seq<string>, max: nat): (seq<string>, string)
    requires max > 0
  {
    if inputs == [] then ([], "")
    else
      var (yielded, buffer) := StreamState(Front(inputs), max);
      var paragraphs := Split(buffer + Last(inputs), BREAK);
      (yielded + ChunkAll(Front(paragraphs), max), Last(paragraphs))
  }

  /** What the loop yields in all. */
  function Streamed(inputs: seq<string>, max: nat): seq<string>
    requires max > 0
  {
    var (yielded, buffer) := StreamState(UntilEof(inputs), max);
    yielded + ChunksOf(buffer, max)
  }

  /** One more read: the finished paragraphs and the buffer are those of the text so far. */
  lemma ReadStep(seen: string, more: string)
    ensures var done, next := Split(seen, BREAK), Split(Last(Split(seen, BREAK)) + more, BREAK);
      && Front(Split(seen + more, BREAK)) == Front(done) + Front(next)
      && Last(Split(seen + more, BREAK)) == Last(next)
  {
    SplitResumes(seen, more, BREAK);
  }

  lemma {:induction false} StateIsSplit(inputs: seq<string>, max: nat)
    requires max > 0
    ensures var paragraphs := Split(Concat(inputs), BREAK);
      StreamState(inputs, max) == (ChunkAll(Front(paragraphs), max), Last(paragraphs))
  {
    if inputs != [] {
      var seen, more := Concat(Front(inputs)), Last(inputs);
      StateIsSplit(Front(inputs), max);
      ConcatLast(inputs);
      ReadStep(seen, more);
      var buffer := Last(Split(seen, BREAK));
      FlatMapAppend(Chunker(max), Front(Split(seen, BREAK)), Front(Split(buffer + more, BREAK)));
    }
  }

  lemma ConcatLast(inputs: seq<string>)
    requires inputs != []
    ensures Concat(inputs) == Concat(Front(inputs)) + Last(inputs)
  {
    assert inputs == Front(inputs) + [Last(inputs)];
    ConcatAppend(Front(inputs), [Last(inputs)]);
    ConcatOne(Last(inputs));
  }

  /** Streaming theorem: however the reads fall, also in the middle of a separator,
      the loop yields what splitting the whole text would. */
  lemma {:induction false} StreamingIsWholeFile(inputs: seq<string>, max: nat)
    requires max > 0
    ensures Streamed(inputs, max) == WholeFile(Concat(UntilEof(inputs)), max)
  {
    StateIsSplit(UntilEof(inputs), max);
  }

  /** Yields the chunks of the paragraphs that are not blank. */
  method YieldParagraphs(paragraphs: seq<string>, max: nat) returns (yielded: seq<string>)
    requires max > 0
    ensures yielded == ChunkAll(paragraphs, max)
  {
    yielded := [];
    for k := 0 to |paragraphs|
      invariant yielded == ChunkAll(paragraphs[..k], max)
    {
      PrefixStep(paragraphs, k);
      var para := Strip(paragraphs[k]);
      if para != "" {
        var chunks := Chunk(para, max);
        yielded := yielded + chunks;
      }
    }
    assert paragraphs[..|paragraphs|] == paragraphs;
  }

  lemma PrefixStep(s: seq<string>, k: nat)
    requires k < |s|
    ensures Front(s[..k + 1]) == s[..k] && Last(s[..k + 1]) == s[k]
  {
  }

  lemma {:induction false} EofAt(inputs: seq<string>, k: nat)
    requires k <= |inputs| && (k < |inputs| ==> inputs[k] == "") && forall j :: 0 <= j < k ==> inputs[j] != ""
    ensures UntilEof(inputs) == inputs[..k]
  {
    if k > 0 { EofAt(inputs[1..], k - 1); }
  }

  method StreamText(inputs: seq<string>, max: nat) returns (yielded: seq<string>)
    requires max > 0
    ensures yielded == WholeFile(Concat(UntilEof(inputs)), max)
  {
    hide Split, Strip, Concat, ChunkAll, UntilEof, WholeFile, Chunks, Front, Last;
    yielded := [];
    var buffer := "";
    var k := 0;
    while k < |inputs| && inputs[k] != ""
      invariant 0 <= k <= |inputs| && forall j :: 0 <= j < k ==> inputs[j] != ""
      invariant (yielded, buffer) == StreamState(inputs[..k], max)
    {
      PrefixStep(inputs, k);
      buffer := buffer + inputs[k];
      var paragraphs := Split(buffer, BREAK);
      buffer := Last(paragraphs);
      var chunks := YieldParagraphs(Front(paragraphs), max);
      yielded := yielded + chunks;
      k := k + 1;
    }
    EofAt(inputs, k);
    if Strip(buffer) != "" {
      var chunks := Chunk(Strip(buffer), max);
      yielded := yielded + chunks;
    }
    StreamingIsWholeFile(inputs, max);
  }

  /** What is left of a list of parts when only its marks are kept, with a full stop
      for every paragraph too long for one chunk. */
  function Marks(parts: seq<string>, max: nat): string {
    if parts == [] then ""
    else Marks(Front(parts), max) + (Solid(Last(parts)) + (if |Strip(Last(parts))| > max then "." else ""))
  }

  lemma {:induction false} ChunksOfKeeps(para: string, max: nat)
    requires max > 0
    ensures Solid(Concat(ChunksOf(para, max))) == Solid(para) + (if |Strip(para)| > max then "." else "")
  {
    StripKeeps(para);
    if Strip(para) != "" { ChunksKeepText(Strip(para), max); }
  }

  /** A streamed file loses nothing but white space and gains nothing but a full stop
      for each paragraph that had to be cut. */
  lemma {:induction false} StreamKeepsText(parts: seq<string>, max: nat)
    requires max > 0
    ensures Solid(Concat(ChunkAll(parts, max))) == Marks(parts, max)
  {
    if parts != [] {
      var last := ChunksOf(Last(parts), max);
      StreamKeepsText(Front(parts), max);
      ChunksOfKeeps(Last(parts), max);
      ConcatAppend(ChunkAll(Front(parts), max), last);
      SolidConcat(Concat(ChunkAll(Front(parts), max)), Concat(last));
    }
  }
}
