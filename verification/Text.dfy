/** Python string operations the models rely on: split, join, replace, strip. */
module Text {

  function Concat(parts: seq<string>): string {
    if parts == [] then "" else parts[0] + Concat(parts[1..])
  }

  lemma {:induction false} ConcatAppend(a: seq<string>, b: seq<string>)
    ensures Concat(a + b) == Concat(a) + Concat(b)
  {
    if a == [] {
      assert a + b == b;
    } else {
      assert (a + b)[1..] == a[1..] + b;
      ConcatAppend(a[1..], b);
    }
  }

  /** sep.join(parts) */
  function Join(parts: seq<string>, sep: string): string
    requires parts != []
  {
    if |parts| == 1 then parts[0] else parts[0] + sep + Join(parts[1..], sep)
  }

  // ---------- s.split(sep) ----------

  /** The separator occurs in s at position i. */
  predicate OccursAt(s: string, sep: string, i: nat) {
    i + |sep| <= |s| && s[i..i + |sep|] == sep
  }

  predicate Contains(s: string, sep: string) {
    exists i {:trigger OccursAt(s, sep, i)} :: 0 <= i <= |s| && OccursAt(s, sep, i)
  }

  /** Cut at the leftmost separator, again and again. */
  function Split(s: string, sep: string): (r: seq<string>)
    requires sep != ""
    ensures r != []
    decreases |s|
  {
    if |s| < |sep| then [s]
    else if s[..|sep|] == sep then [""] + Split(s[|sep|..], sep)
    else Push(s[0], Split(s[1..], sep))
  }

  /** Puts a character in front of the first part. */
  function Push(c: char, r: seq<string>): (r': seq<string>)
    requires r != []
    ensures |r'| == |r| && r'[0] == [c] + r[0] && r'[1..] == r[1..]
  {
    [[c] + r[0]] + r[1..]
  }

  /** The leftmost occurrence of sep in p + sep is the one at the end. */
  predicate EndsAtFirst(p: string, sep: string) {
    forall i {:trigger OccursAt(p + sep, sep, i)} :: 0 <= i < |p| ==> !OccursAt(p + sep, sep, i)
  }

  /** What splitting means: joining gives the text back, every part but the last ends
      where the separator first occurs, and the last has no separator. */
  ghost predicate IsSplit(s: string, sep: string, r: seq<string>) {
    && r != []
    && Join(r, sep) == s
    && (forall k :: 0 <= k < |r| - 1 ==> EndsAtFirst(r[k], sep))
    && !Contains(r[|r| - 1], sep)
  }

  lemma HeadGrows(c: char, p: string, sep: string)
    requires sep != "" && EndsAtFirst(p, sep) && !OccursAt([c] + p + sep, sep, 0)
    ensures EndsAtFirst([c] + p, sep)
  {
    var q := [c] + p;
    forall i | 0 <= i < |q| ensures !OccursAt(q + sep, sep, i) {
      if i > 0 {
        assert !OccursAt(p + sep, sep, i - 1);
        assert (q + sep)[i..i + |sep|] == (p + sep)[i - 1..i - 1 + |sep|];
      }
    }
  }

  lemma NotContainsGrows(c: char, t: string, sep: string)
    requires sep != "" && !OccursAt([c] + t, sep, 0) && !Contains(t, sep)
    ensures !Contains([c] + t, sep)
  {
    var s := [c] + t;
    forall i | 0 < i <= |s| && i + |sep| <= |s| ensures !OccursAt(s, sep, i) {
      assert !OccursAt(t, sep, i - 1);
      assert s[i..i + |sep|] == t[i - 1..i - 1 + |sep|];
    }
  }

  lemma JoinHead(c: char, r: seq<string>, sep: string)
    requires r != []
    ensures Join(Push(c, r), sep) == [c] + Join(r, sep)
  {
    if |r| > 1 {
      assert [c] + r[0] + sep + Join(r[1..], sep) == [c] + (r[0] + sep + Join(r[1..], sep));
    }
  }

  lemma PushIsSplit(s: string, sep: string, r: seq<string>)
    requires sep != "" && s != "" && !OccursAt(s, sep, 0) && IsSplit(s[1..], sep, r)
    ensures IsSplit(s, sep, Push(s[0], r))
  {
    var r' := Push(s[0], r);
    JoinHead(s[0], r, sep);
    assert [s[0]] + s[1..] == s;
    if |r| == 1 {
      NotContainsGrows(s[0], s[1..], sep);
    } else {
      HeadPrefix(s, sep, r');
      HeadGrows(s[0], r[0], sep);
      assert r'[|r| - 1] == r'[1..][|r| - 2] == r[|r| - 1];
      forall k | 0 <= k < |r| - 1 ensures EndsAtFirst(r'[k], sep) {
        if k > 0 { assert r'[k] == r'[1..][k - 1] == r[k]; }
      }
    }
  }

  lemma EmptyHeadIsSplit(rest: string, sep: string, r: seq<string>)
    requires sep != "" && IsSplit(rest, sep, r)
    ensures IsSplit(sep + rest, sep, [""] + r)
  {
    assert ([""] + r)[1..] == r;
    assert "" + sep + rest == sep + rest;
  }

  /** Split computes a split ... */
  lemma {:induction false} SplitIsSplit(s: string, sep: string)
    requires sep != ""
    ensures IsSplit(s, sep, Split(s, sep))
    decreases |s|
  {
    if |s| < |sep| {
    } else if s[..|sep|] == sep {
      SplitIsSplit(s[|sep|..], sep);
      EmptyHeadIsSplit(s[|sep|..], sep, Split(s[|sep|..], sep));
      assert sep + s[|sep|..] == s;
    } else {
      SplitIsSplit(s[1..], sep);
      PushIsSplit(s, sep, Split(s[1..], sep));
    }
  }

  lemma HeadPrefix(s: string, sep: string, r: seq<string>)
    requires |r| > 1 && Join(r, sep) == s && sep != ""
    ensures r[0] + sep <= s && |r[0]| + |sep| <= |s|
    ensures OccursAt(r[0] + sep, sep, 0) ==> OccursAt(s, sep, 0)
  {
    assert r[0] + sep + Join(r[1..], sep) == s;
    assert (r[0] + sep)[0..|sep|] == s[0..|sep|];
  }

  lemma FirstPartLonger(s: string, sep: string, p: string, q: string)
    requires sep != "" && p + sep <= s && q + sep <= s && EndsAtFirst(q, sep)
    ensures |p| >= |q|
  {
    if |p| < |q| {
      assert (q + sep)[|p|..|p| + |sep|] == s[|p|..|p| + |sep|] == (p + sep)[|p|..|p| + |sep|] == sep;
      assert OccursAt(q + sep, sep, |p|);
    }
  }

  /** ... and there is no other. */
  lemma {:induction false} SplitUnique(s: string, sep: string, r: seq<string>, r': seq<string>)
    requires sep != "" && IsSplit(s, sep, r) && IsSplit(s, sep, r')
    ensures r == r'
    decreases |r|
  {
    if |r| > 1 && |r'| > 1 {
      HeadPrefix(s, sep, r);
      HeadPrefix(s, sep, r');
      FirstPartLonger(s, sep, r[0], r'[0]);
      FirstPartLonger(s, sep, r'[0], r[0]);
      assert r[0] == s[..|r[0]|] == r'[0];
      var rest := s[|r[0]| + |sep|..];
      assert rest == Join(r[1..], sep) == Join(r'[1..], sep);
      SplitUnique(rest, sep, r[1..], r'[1..]);
    } else if |r| > 1 || |r'| > 1 {
      var m := if |r| > 1 then r else r';
      HeadPrefix(s, sep, m);
      assert OccursAt(s, sep, |m[0]|) by {
        assert s[|m[0]|..|m[0]| + |sep|] == (m[0] + sep)[|m[0]|..];
      }
    }
  }

  // ---------- splitting piecewise ----------

  function Front(r: seq<string>): seq<string>
    requires r != []
  {
    r[..|r| - 1]
  }

  function Last(r: seq<string>): string
    requires r != []
  {
    r[|r| - 1]
  }

  /** f of every part, one after the other. */
  function FlatMap(f: string -> seq<string>, parts: seq<string>): seq<string> {
    if parts == [] then [] else FlatMap(f, Front(parts)) + f(Last(parts))
  }

  lemma FlatMapStep(f: string -> seq<string>, s: seq<string>, x: string)
    ensures FlatMap(f, s + [x]) == FlatMap(f, s) + f(x)
  {
    assert Front(s + [x]) == s && Last(s + [x]) == x;
  }

  lemma FlatMapNothing(f: string -> seq<string>)
    ensures FlatMap(f, []) == []
  {
  }

  lemma {:induction false} FlatMapAppend(f: string -> seq<string>, a: seq<string>, b: seq<string>)
    ensures FlatMap(f, a + b) == FlatMap(f, a) + FlatMap(f, b)
  {
    hide FlatMap;
    if b == [] {
      FlatMapNothing(f);
      assert a + b == a;
    } else {
      var front, x := Front(b), Last(b);
      FlatMapAppend(f, a, front);
      FlatMapStep(f, front, x);
      FlatMapStep(f, a + front, x);
      assert b == front + [x] && a + b == (a + front) + [x];
    }
  }

  lemma FrontLast(p: string, r: seq<string>)
    requires r != []
    ensures Front([p] + r) == [p] + Front(r) && Last([p] + r) == Last(r)
  {
  }

  lemma PushFront(c: char, r: seq<string>, more: seq<string>)
    requires |r| > 1
    ensures Push(c, Front(r) + more) == Front(Push(c, r)) + more && Last(Push(c, r)) == Last(r)
  {
    assert (Front(r) + more)[1..] == r[1..|r| - 1] + more;
    assert Push(c, r)[1..] == r[1..];
    assert Front(Push(c, r)) == [[c] + r[0]] + r[1..|r| - 1];
  }

  /** Splitting a + b is splitting a, then going on from its last part. */
  ghost predicate Resumes(a: string, b: string, sep: string)
    requires sep != ""
  {
    Split(a + b, sep) == Front(Split(a, sep)) + Split(Last(Split(a, sep)) + b, sep)
  }

  lemma ResumesAtSeparator(a: string, b: string, sep: string)
    requires sep != "" && |a| >= |sep| && a[..|sep|] == sep && Resumes(a[|sep|..], b, sep)
    ensures Resumes(a, b, sep)
  {
    assert (a + b)[..|sep|] == sep && (a + b)[|sep|..] == a[|sep|..] + b;
    FrontLast("", Split(a[|sep|..], sep));
  }

  lemma ResumesPastChar(a: string, b: string, sep: string)
    requires sep != "" && |a| >= |sep| && a[..|sep|] != sep && Resumes(a[1..], b, sep)
    ensures Resumes(a, b, sep)
  {
    assert (a + b)[1..] == a[1..] + b && (a + b)[..|sep|] == a[..|sep|];
    var rest := Split(a[1..], sep);
    if |rest| == 1 {
      SinglePart(a, sep);
    } else {
      PushFront(a[0], rest, Split(Last(rest) + b, sep));
    }
  }

  /** A split may be resumed from its last, unfinished part: text that arrives later
      only affects what follows the last separator seen. */
  lemma {:induction false} SplitResumes(a: string, b: string, sep: string)
    requires sep != ""
    ensures Resumes(a, b, sep)
    decreases |a|
  {
    if |a| < |sep| {
    } else if a[..|sep|] == sep {
      SplitResumes(a[|sep|..], b, sep);
      ResumesAtSeparator(a, b, sep);
    } else {
      SplitResumes(a[1..], b, sep);
      ResumesPastChar(a, b, sep);
    }
  }

  lemma SinglePart(s: string, sep: string)
    requires sep != "" && |Split(s, sep)| == 1
    ensures Split(s, sep) == [s]
  {
    SplitIsSplit(s, sep);
  }

  // ---------- s.replace(old, new) ----------

  function Replace(s: string, old_: string, new_: string): string
    requires old_ != ""
  {
    Join(Split(s, old_), new_)
  }

  lemma SplitNone(s: string, sep: string)
    requires sep != "" && !Contains(s, sep)
    ensures Split(s, sep) == [s]
  {
    SplitIsSplit(s, sep);
    SplitUnique(s, sep, Split(s, sep), [s]);
  }

  lemma IsSplitAfter(a: string, b: string, sep: string, rest: seq<string>)
    requires EndsAtFirst(a, sep) && IsSplit(b, sep, rest)
    ensures IsSplit(a + sep + b, sep, [a] + rest)
  {
    hide EndsAtFirst, Contains;
    var parts := [a] + rest;
    assert parts[1..] == rest;
    assert Join(parts, sep) == a + sep + Join(rest, sep);
    forall k | 0 <= k < |parts| - 1 ensures EndsAtFirst(parts[k], sep) {
      assert parts[k] == if k == 0 then a else rest[k - 1];
    }
  }

  lemma SplitAfter(a: string, b: string, sep: string)
    requires sep != "" && EndsAtFirst(a, sep)
    ensures Split(a + sep + b, sep) == [a] + Split(b, sep)
  {
    hide EndsAtFirst, IsSplit, Split;
    var s := a + sep + b;
    SplitIsSplit(b, sep);
    SplitIsSplit(s, sep);
    IsSplitAfter(a, b, sep, Split(b, sep));
    SplitUnique(s, sep, Split(s, sep), [a] + Split(b, sep));
  }

  /** A text without the old phrase stays as it is. */
  lemma ReplaceNone(s: string, old_: string, new_: string)
    requires old_ != "" && !Contains(s, old_)
    ensures Replace(s, old_, new_) == s
  {
    SplitIsSplit(s, old_);
    SplitUnique(s, old_, Split(s, old_), [s]);
  }

  lemma JoinTwo(a: string, b: string, sep: string)
    ensures Join([a, b], sep) == a + sep + b
  {
    assert [a, b][1..] == [b];
    assert Join([b], sep) == b;
  }

  /** Text around one occurrence of the old phrase: the new one takes its place. */
  lemma ReplaceOne(a: string, b: string, old_: string, new_: string)
    requires old_ != "" && EndsAtFirst(a, old_) && !Contains(b, old_)
    ensures Replace(a + old_ + b, old_, new_) == a + new_ + b
  {
    var s := a + old_ + b;
    SplitIsSplit(s, old_);
    JoinTwo(a, b, old_);
    JoinTwo(a, b, new_);
    SplitUnique(s, old_, Split(s, old_), [a, b]);
  }

  // ---------- s.strip() ----------

  /** str.isspace for single characters */
  predicate IsSpace(c: char) {
    || '\U{0009}' <= c <= '\U{000D}' || '\U{001C}' <= c <= '\U{0020}' || c == '\U{0085}' || c == '\U{00A0}'
    || c == '\U{1680}' || '\U{2000}' <= c <= '\U{200A}' || c == '\U{2028}' || c == '\U{2029}'
    || c == '\U{202F}' || c == '\U{205F}' || c == '\U{3000}'
  }

  function StripLeft(s: string): string {
    if s != "" && IsSpace(s[0]) then StripLeft(s[1..]) else s
  }

  function StripRight(s: string): string {
    if s != "" && IsSpace(s[|s| - 1]) then StripRight(s[..|s| - 1]) else s
  }

  function Strip(s: string): string {
    StripRight(StripLeft(s))
  }

  lemma {:induction false} StripLeftShorter(s: string)
    ensures |StripLeft(s)| <= |s|
  {
    if s != "" && IsSpace(s[0]) { StripLeftShorter(s[1..]); }
  }

  lemma {:induction false} StripRightShorter(s: string)
    ensures |StripRight(s)| <= |s|
  {
    if s != "" && IsSpace(s[|s| - 1]) { StripRightShorter(s[..|s| - 1]); }
  }

  lemma StripShorter(s: string)
    ensures |Strip(s)| <= |s|
  {
    StripLeftShorter(s);
    StripRightShorter(StripLeft(s));
  }

  /** The characters of s that are not white space, in order. */
  function Solid(s: string): string {
    if s == "" then "" else (if IsSpace(s[0]) then "" else [s[0]]) + Solid(s[1..])
  }

  lemma {:induction false} SolidConcat(a: string, b: string)
    ensures Solid(a + b) == Solid(a) + Solid(b)
  {
    if a == "" {
      assert a + b == b;
    } else {
      assert (a + b)[1..] == a[1..] + b;
      SolidConcat(a[1..], b);
    }
  }

  lemma {:induction false} StripLeftKeeps(s: string)
    ensures Solid(StripLeft(s)) == Solid(s) && |StripLeft(s)| <= |s|
  {
    if s != "" && IsSpace(s[0]) { StripLeftKeeps(s[1..]); }
  }

  lemma {:induction false} StripRightKeeps(s: string)
    ensures Solid(StripRight(s)) == Solid(s) && |StripRight(s)| <= |s|
  {
    if s != "" && IsSpace(s[|s| - 1]) {
      assert s == s[..|s| - 1] + [s[|s| - 1]];
      SolidConcat(s[..|s| - 1], [s[|s| - 1]]);
      StripRightKeeps(s[..|s| - 1]);
    }
  }

  /** Stripping loses only white space. */
  lemma StripKeeps(s: string)
    ensures Solid(Strip(s)) == Solid(s) && |Strip(s)| <= |s|
  {
    StripLeftKeeps(s);
    StripRightKeeps(StripLeft(s));
  }

  predicate Blank(s: string) {
    forall i :: 0 <= i < |s| ==> IsSpace(s[i])
  }

  lemma {:induction false} StripLeftIs(s: string) returns (w: string)
    ensures s == w + StripLeft(s) && Blank(w) && (StripLeft(s) == "" || !IsSpace(StripLeft(s)[0]))
  {
    w := "";
    if s != "" && IsSpace(s[0]) {
      w := StripLeftIs(s[1..]);
      w := [s[0]] + w;
    }
  }

  lemma {:induction false} StripRightIs(s: string) returns (t: string)
    ensures s == StripRight(s) + t && Blank(t)
    ensures StripRight(s) == "" || (StripRight(s)[0] == s[0] && !IsSpace(StripRight(s)[|StripRight(s)| - 1]))
  {
    t := "";
    if s != "" && IsSpace(s[|s| - 1]) {
      t := StripRightIs(s[..|s| - 1]);
      t := t + [s[|s| - 1]];
    }
  }

  /** Stripping takes off white space at both ends, and all of it. */
  lemma StripIs(s: string) returns (w: string, t: string)
    ensures s == w + Strip(s) + t && Blank(w) && Blank(t)
    ensures Strip(s) == "" || (!IsSpace(Strip(s)[0]) && !IsSpace(Strip(s)[|Strip(s)| - 1]))
  {
    w := StripLeftIs(s);
    t := StripRightIs(StripLeft(s));
    assert s == w + (Strip(s) + t);
  }

  lemma {:induction false} StripEmptyIff(s: string)
    ensures Strip(s) == "" <==> Blank(s)
  {
    var w, t := StripIs(s);
    assert Strip(s) != "" ==> Strip(s)[0] == s[|w|];
    assert Strip(s) == "" ==> s == w + t;
  }

  /** x occurs in s as one contiguous piece. */
  ghost predicate Infix(x: string, s: string) {
    exists a, b :: s == a + x + b
  }

  lemma {:induction false} StripLeftOver(a: string, y: string)
    ensures StripLeft(a + y) == if StripLeft(a) == "" then StripLeft(y) else StripLeft(a) + y
  {
    if a == "" {
      assert a + y == y;
    } else if IsSpace(a[0]) {
      assert (a + y)[1..] == a[1..] + y;
      StripLeftOver(a[1..], y);
    }
  }

  lemma {:induction false} StripRightOver(y: string, b: string)
    ensures StripRight(y + b) == if StripRight(b) == "" then StripRight(y) else y + StripRight(b)
  {
    if b == "" {
      assert y + b == y;
    } else if IsSpace(b[|b| - 1]) {
      assert (y + b)[..|y + b| - 1] == y + b[..|b| - 1];
      StripRightOver(y, b[..|b| - 1]);
    }
  }

  lemma {:induction false} StripLeftSuffix(s: string) returns (w: string)
    ensures s == w + StripLeft(s)
  {
    w := "";
    if s != "" && IsSpace(s[0]) {
      w := StripLeftSuffix(s[1..]);
      w := [s[0]] + w;
    }
  }

  lemma {:induction false} StripRightPrefix(s: string) returns (t: string)
    ensures s == StripRight(s) + t
  {
    t := "";
    if s != "" && IsSpace(s[|s| - 1]) {
      t := StripRightPrefix(s[..|s| - 1]);
      t := t + [s[|s| - 1]];
    }
  }

  lemma StripLeftInfix(a: string, x: string, b: string) returns (p: string)
    requires StripLeft(x) != ""
    ensures StripLeft(a + x + b) == p + StripLeft(x) + b
  {
    StripLeftOver(a, x + b);
    StripLeftOver(x, b);
    assert a + (x + b) == a + x + b;
    if StripLeft(a) == "" {
      p := "";
    } else {
      var w := StripLeftSuffix(x);
      p := StripLeft(a) + w;
      assert StripLeft(a) + (x + b) == p + StripLeft(x) + b;
    }
  }

  lemma StripRightInfix(a: string, x: string, b: string) returns (q: string)
    requires StripRight(x) != ""
    ensures StripRight(a + x + b) == a + StripRight(x) + q
  {
    StripRightOver(a + x, b);
    StripRightOver(a, x);
    if StripRight(b) == "" {
      q := "";
    } else {
      var t := StripRightPrefix(x);
      q := t + StripRight(b);
      assert a + x + StripRight(b) == a + StripRight(x) + q;
    }
  }

  /** Stripping a text does not cut into a piece of it, blanks at its ends apart. */
  lemma StripInfix(a: string, x: string, b: string)
    requires Strip(x) != ""
    ensures Infix(Strip(x), Strip(a + x + b))
  {
    var p := StripLeftInfix(a, x, b);
    var q := StripRightInfix(p, StripLeft(x), b);
  }
}
