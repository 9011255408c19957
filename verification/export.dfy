/** The HTML preview of a book (`generatePreviewHTML`): a cover, a table of contents and one
    block per chapter, whose section bodies go through four textual substitutions. The
    layout whitespace of the templates is reduced to single line breaks. */
module Export {
  import opened Wrappers
  import opened Sorting
  import opened Text
  import opened Types
  import Store

  // ---------------------------------------------------------------------------------------
  // Sorting the caller's chapters in place

  /** `chapters.sort((a, b) => a.order - b.order)`, which sorts the caller's array itself:
      an insertion sort whose result is the stable sort of the old contents. */
  method SortChapters(a: array<Chapter>)
    modifies a
    ensures a[..] == SortBy(old(a[..]), ChapterOrder)
  {
    ghost var input := a[..];
    var i := 0;
    while i < a.Length
      invariant 0 <= i <= a.Length
      invariant a[..i] == SortBy(input[..i], ChapterOrder)
      invariant a[i..] == input[i..]
    {
      ghost var before := a[..];
      InsertChapter(a, i);
      SortPass(input, before, a[..], i);
      i := i + 1;
    }
    assert a[..] == a[..i] && input[..i] == input;
  }

  /** After pass `i` the first `i + 1` chapters are the sort of the first `i + 1` inputs. */
  lemma SortPass(input: seq<Chapter>, before: seq<Chapter>, after: seq<Chapter>, i: nat)
    requires i < |input| == |before| == |after|
    requires before[..i] == SortBy(input[..i], ChapterOrder) && before[i..] == input[i..]
    requires after[..i + 1] == Insert(before[..i], before[i], ChapterOrder)
    requires after[i + 1..] == before[i + 1..]
    ensures after[..i + 1] == SortBy(input[..i + 1], ChapterOrder)
    ensures after[i + 1..] == input[i + 1..]
  {
    SortStep(input, i);
    SameTail(input, before, i);
  }

  lemma InsertPlace(before: seq<Chapter>, i: nat, j: nat)
    requires j <= i < |before|
    requires j == 0 || before[j - 1].order <= before[i].order
    requires forall k :: j <= k < i ==> before[k].order > before[i].order
    ensures Insert(before[..i], before[i], ChapterOrder) == before[..j] + [before[i]] + before[j..i]
  {
    var p := before[..i];
    assert p[..j] == before[..j] && p[j..] == before[j..i];
    InsertAt(p, before[i], ChapterOrder, j);
  }

  lemma SortStep(input: seq<Chapter>, i: nat)
    requires i < |input|
    ensures SortBy(input[..i + 1], ChapterOrder) == Insert(SortBy(input[..i], ChapterOrder), input[i], ChapterOrder)
  {
    assert input[..i + 1][..i] == input[..i];
  }

  lemma SameTail(input: seq<Chapter>, before: seq<Chapter>, i: nat)
    requires i < |input| == |before| && before[i..] == input[i..]
    ensures before[i] == input[i] && before[i + 1..] == input[i + 1..]
  {
    assert before[i..][0] == input[i..][0];
    assert before[i + 1..] == before[i..][1..];
    assert input[i + 1..] == input[i..][1..];
  }

  /** One pass of the insertion sort: `a[i]` moves down past the greater orders before it,
      which inserts it into the sorted prefix `a[..i]`. */
  method InsertChapter(a: array<Chapter>, i: nat)
    requires i < a.Length
    modifies a
    ensures a[..i + 1] == Insert(old(a[..i]), old(a[i]), ChapterOrder)
    ensures a[i + 1..] == old(a[i + 1..])
  {
    ghost var before := a[..];
    var x := a[i];
    var j := ShiftGreater(a, i, x);
    a[j] := x;
    assert a[..i + 1] == before[..j] + [x] + before[j..i];
    assert a[i + 1..] == before[i + 1..];
    InsertPlace(before, i, j);
  }

  /** Moves the chapters before `i` whose order exceeds that of `x` one place up, leaving a
      gap at the returned `j`. */
  method ShiftGreater(a: array<Chapter>, i: nat, x: Chapter) returns (j: nat)
    requires i < a.Length
    modifies a
    ensures j <= i
    ensures forall k :: 0 <= k < j ==> a[k] == old(a[k])
    ensures forall k :: j < k <= i ==> a[k] == old(a[k - 1])
    ensures forall k :: i < k < a.Length ==> a[k] == old(a[k])
    ensures j == 0 || old(a[j - 1]).order <= x.order
    ensures forall k :: j <= k < i ==> old(a[k]).order > x.order
  {
    ghost var p := a[..];
    j := i;
    while j > 0 && a[j - 1].order > x.order
      invariant 0 <= j <= i
      invariant forall k :: 0 <= k < j ==> a[k] == p[k]
      invariant forall k :: j < k <= i ==> a[k] == p[k - 1]
      invariant forall k :: i < k < a.Length ==> a[k] == p[k]
      invariant forall k :: j <= k < i ==> p[k].order > x.order
    {
      a[j] := a[j - 1];
      j := j - 1;
    }
  }

  /** The chapters come out in ascending order, as a permutation of the input, and chapters
      sharing an order keep their relative position. */
  lemma SortedChapters(chapters: seq<Chapter>, k: int, keep: Chapter -> bool)
    requires forall c :: keep(c) == (c.order == k)
    ensures SortedBy(SortBy(chapters, ChapterOrder), ChapterOrder)
    ensures multiset(SortBy(chapters, ChapterOrder)) == multiset(chapters)
    ensures Seqs.Filter(SortBy(chapters, ChapterOrder), keep) == Seqs.Filter(chapters, keep)
  {
    SortByStable(chapters, ChapterOrder, k, keep);
  }

  // ---------------------------------------------------------------------------------------
  // The four substitutions on a section body

  /** The characters the regular-expression `.` does not match. */
  predicate LineTerminator(c: char) {
    c == '\n' || c == '\r' || c == '\U{2028}' || c == '\U{2029}'
  }

  predicate NoTerminator(s: string) {
    forall i :: 0 <= i < |s| ==> !LineTerminator(s[i])
  }

  /** The global replacement of `marker(.*?)marker` by `open$1close`, scanning left to
      right: at a marker, the match closes at the next marker unless a line terminator
      comes first; where nothing matches, one character is kept and the scan moves on. */
  function ReplacePair(s: string, marker: string, open: string, close: string): (r: string)
    requires marker != []
    ensures s == [] ==> r == []
    decreases |s|
  {
    if s == [] then []
    else if StartsWith(s, marker) && MatchEnd(s, marker) >= 0 then
      var k := MatchEnd(s, marker);
      open + s[|marker|..k] + close + ReplacePair(s[k + |marker|..], marker, open, close)
    else
      [s[0]] + ReplacePair(s[1..], marker, open, close)
  }

  /** Text without the marker comes back unchanged. */
  lemma {:induction false} ReplacePairUnchanged(s: string, marker: string, open: string, close: string)
    requires marker != [] && forall i :: !OccursAt(s, marker, i)
    ensures ReplacePair(s, marker, open, close) == s
    decreases |s|
  {
    if s != [] {
      assert !OccursAt(s, marker, 0);
      forall i ensures !OccursAt(s[1..], marker, i) {
        assert !OccursAt(s, marker, i + 1);
        assert i < 0 || i + |marker| > |s[1..]| || s[1..][i..i + |marker|] == s[i + 1..i + 1 + |marker|];
      }
      ReplacePairUnchanged(s[1..], marker, open, close);
      assert [s[0]] + s[1..] == s;
    }
  }

  /** Where `s` starts with `marker`, the position of the closing marker of the shortest
      match on the same line, or -1 when there is none. */
  function MatchEnd(s: string, marker: string): (k: int)
    requires StartsWith(s, marker)
    ensures k == -1 || (|marker| <= k && OccursAt(s, marker, k) && NoTerminator(s[|marker|..k]))
    ensures k != -1 ==> forall i :: |marker| <= i < k ==> !OccursAt(s, marker, i)
  {
    var k := IndexOf(s, marker, |marker|);
    if k >= 0 && NoTerminator(s[|marker|..k]) then k else -1
  }

  /** The global replacement of the literal `pat` by `rep`, left to right, without overlap. */
  function ReplaceAll(s: string, pat: string, rep: string): (r: string)
    requires pat != []
    ensures s == [] ==> r == []
    decreases |s|
  {
    if s == [] then []
    else if StartsWith(s, pat) then rep + ReplaceAll(s[|pat|..], pat, rep)
    else [s[0]] + ReplaceAll(s[1..], pat, rep)
  }

  /** Text without the pattern comes back unchanged. */
  lemma {:induction false} ReplaceAllUnchanged(s: string, pat: string, rep: string)
    requires pat != [] && forall i :: !OccursAt(s, pat, i)
    ensures ReplaceAll(s, pat, rep) == s
    decreases |s|
  {
    if s != [] {
      assert !OccursAt(s, pat, 0);
      forall i ensures !OccursAt(s[1..], pat, i) {
        assert !OccursAt(s, pat, i + 1);
        assert i < 0 || i + |pat| > |s[1..]| || s[1..][i..i + |pat|] == s[i + 1..i + 1 + |pat|];
      }
      ReplaceAllUnchanged(s[1..], pat, rep);
      assert [s[0]] + s[1..] == s;
    }
  }

  /** Bold, then italic, then blank lines to paragraph breaks, then line breaks. */
  function MarkdownToHtml(body: string): string {
    var bold := ReplacePair(body, "**", "<strong>", "</strong>");
    var italic := ReplacePair(bold, "*", "<em>", "</em>");
    ReplaceAll(ReplaceAll(italic, "\n\n", "</p><p>"), "\n", "<br>")
  }

  /** A marker never pairs with one on another line: the substitution treats the text on
      each side of a line terminator separately. */
  lemma {:induction false} ReplacePairLines(a: string, t: char, b: string, marker: string, open: string, close: string)
    requires marker != [] && NoTerminator(marker) && LineTerminator(t)
    ensures ReplacePair(a + [t] + b, marker, open, close)
         == ReplacePair(a, marker, open, close) + [t] + ReplacePair(b, marker, open, close)
    decreases |a|
  {
    if a == [] {
      LinesEmpty(t, b, marker, open, close);
    } else if StartsWith(a, marker) && MatchEnd(a, marker) >= 0 {
      var k := MatchEnd(a, marker);
      var tail := a[k + |marker|..];
      ReplacePairLines(tail, t, b, marker, open, close);
      LinesMatch(a, t, b, marker, open, close, k, tail);
    } else {
      var tail := a[1..];
      ReplacePairLines(tail, t, b, marker, open, close);
      LinesNoMatch(a, t, b, marker, open, close, tail);
    }
  }

  lemma LinesEmpty(t: char, b: string, marker: string, open: string, close: string)
    requires marker != [] && NoTerminator(marker) && LineTerminator(t)
    ensures ReplacePair([] + [t] + b, marker, open, close) == ReplacePair([], marker, open, close) + [t] + ReplacePair(b, marker, open, close)
  {
    var s := [t] + b;
    assert [] + [t] + b == s && s[1..] == b && s[0] == t;
    assert !LineTerminator(marker[0]);
    assert |marker| > |s| || s[..|marker|][0] != marker[0];
    assert ReplacePair(s, marker, open, close) == [t] + ReplacePair(b, marker, open, close);
  }

  /** The match that opens `a` is the same one in `a`, a line terminator and `b`. */
  lemma SameMatch(a: string, t: char, b: string, marker: string)
    requires marker != [] && NoTerminator(marker) && LineTerminator(t)
    requires StartsWith(a, marker) && MatchEnd(a, marker) >= 0
    ensures StartsWith(a + [t] + b, marker) && MatchEnd(a + [t] + b, marker) == MatchEnd(a, marker)
  {
    var s := a + [t] + b;
    var k := MatchEnd(a, marker);
    assert s[..|marker|] == a[..|marker|];
    assert s[k..k + |marker|] == a[k..k + |marker|];
    assert OccursAt(s, marker, k);
    forall i | |marker| <= i < k ensures !OccursAt(s, marker, i) {
      assert !OccursAt(a, marker, i);
      assert s[i..i + |marker|] == a[i..i + |marker|];
    }
    var r := IndexOf(s, marker, |marker|);
    assert r != -1 && r <= k;
    assert r == k;
    assert s[|marker|..k] == a[|marker|..k];
  }

  /** One step of the pair substitution where a match opens `s` and closes at `k`. */
  lemma PairStep(s: string, marker: string, open: string, close: string, k: int, inner: string, rest: string)
    requires marker != [] && StartsWith(s, marker) && MatchEnd(s, marker) == k >= 0
    requires inner == s[|marker|..k] && rest == s[k + |marker|..]
    ensures ReplacePair(s, marker, open, close) == open + inner + close + ReplacePair(rest, marker, open, close)
  { }

  /** One step of the pair substitution where no match opens `s`. */
  lemma CopyStep(s: string, marker: string, open: string, close: string, c: char, rest: string)
    requires marker != [] && s != [] && !(StartsWith(s, marker) && MatchEnd(s, marker) >= 0)
    requires c == s[0] && rest == s[1..]
    ensures ReplacePair(s, marker, open, close) == [c] + ReplacePair(rest, marker, open, close)
  { }

  lemma LinesMatch(a: string, t: char, b: string, marker: string, open: string, close: string, k: int, tail: string)
    requires marker != [] && NoTerminator(marker) && LineTerminator(t)
    requires StartsWith(a, marker) && MatchEnd(a, marker) == k >= 0 && tail == a[k + |marker|..]
    requires ReplacePair(tail + [t] + b, marker, open, close)
          == ReplacePair(tail, marker, open, close) + [t] + ReplacePair(b, marker, open, close)
    ensures ReplacePair(a + [t] + b, marker, open, close)
         == ReplacePair(a, marker, open, close) + [t] + ReplacePair(b, marker, open, close)
  {
    var s := a + [t] + b;
    SameMatch(a, t, b, marker);
    SliceLeft(a + [t], b, |marker|, k);
    SliceLeft(a, [t], |marker|, k);
    DropLeft(a + [t], b, k + |marker|);
    DropLeft(a, [t], k + |marker|);
    PairStep(s, marker, open, close, k, a[|marker|..k], tail + [t] + b);
    PairStep(a, marker, open, close, k, a[|marker|..k], tail);
    var head := open + a[|marker|..k] + close;
    var rt := ReplacePair(tail, marker, open, close);
    var rb := ReplacePair(b, marker, open, close);
    ConcatAssoc(head, rt + [t], rb);
    ConcatAssoc(head, rt, [t]);
  }

  lemma LinesNoMatch(a: string, t: char, b: string, marker: string, open: string, close: string, tail: string)
    requires marker != [] && NoTerminator(marker) && LineTerminator(t)
    requires a != [] && !(StartsWith(a, marker) && MatchEnd(a, marker) >= 0) && tail == a[1..]
    requires ReplacePair(tail + [t] + b, marker, open, close)
          == ReplacePair(tail, marker, open, close) + [t] + ReplacePair(b, marker, open, close)
    ensures ReplacePair(a + [t] + b, marker, open, close)
         == ReplacePair(a, marker, open, close) + [t] + ReplacePair(b, marker, open, close)
  {
    var s := a + [t] + b;
    NoMatchStaysNoMatch(a, t, b, marker);
    DropLeft(a + [t], b, 1);
    DropLeft(a, [t], 1);
    CopyStep(s, marker, open, close, a[0], tail + [t] + b);
    CopyStep(a, marker, open, close, a[0], tail);
    var ra := ReplacePair(tail, marker, open, close);
    var rb := ReplacePair(b, marker, open, close);
    ConcatAssoc([a[0]], ra + [t], rb);
    ConcatAssoc([a[0]], ra, [t]);
  }

  /** Where no match opens `a`, none opens `a`, a line terminator and `b` either. */
  lemma NoMatchStaysNoMatch(a: string, t: char, b: string, marker: string)
    requires marker != [] && NoTerminator(marker) && LineTerminator(t)
    requires a != [] && !(StartsWith(a, marker) && MatchEnd(a, marker) >= 0)
    ensures !(StartsWith(a + [t] + b, marker) && MatchEnd(a + [t] + b, marker) >= 0)
  {
    var s := a + [t] + b;
    if |a| < |marker| {
      assert !LineTerminator(marker[|a|]);
      assert |marker| > |s| || s[..|marker|][|a|] != marker[|a|];
    } else {
      assert s[..|marker|] == a[..|marker|];
      if StartsWith(a, marker) {
        NoMatchAcrossLine(a, t, b, marker);
      }
    }
  }

  /** When the marker opening `a` has no partner on its own line, none is found past the
      line terminator either. */
  lemma NoMatchAcrossLine(a: string, t: char, b: string, marker: string)
    requires marker != [] && NoTerminator(marker) && LineTerminator(t)
    requires StartsWith(a, marker) && MatchEnd(a, marker) == -1
    ensures StartsWith(a + [t] + b, marker) && MatchEnd(a + [t] + b, marker) == -1
  {
    var s := a + [t] + b;
    assert s[..|marker|] == a[..|marker|];
    var k := IndexOf(s, marker, |marker|);
    var ka := IndexOf(a, marker, |marker|);
    forall i | 0 <= i && i + |marker| <= |a| ensures OccursAt(s, marker, i) == OccursAt(a, marker, i) {
      assert s[i..i + |marker|] == a[i..i + |marker|];
    }
    forall i | 0 <= i <= |a| < i + |marker| <= |s| ensures !OccursAt(s, marker, i) {
      assert !LineTerminator(marker[|a| - i]);
      assert s[i..i + |marker|][|a| - i] == t;
    }
    if k != -1 {
      if ka == -1 {
        assert |a| < k;
        assert s[|marker|..k][|a| - |marker|] == t;
      } else {
        assert k <= ka;
        assert k == ka;
        assert s[|marker|..k] == a[|marker|..ka];
      }
    }
  }

  /** `**x**` becomes `<strong>x</strong>` when `x` holds no star and no line break. */
  lemma MarkdownStrong(x: string)
    requires '*' !in x && NoTerminator(x)
    ensures MarkdownToHtml("**" + x + "**") == "<strong>" + x + "</strong>"
  {
    var h := "<strong>" + x + "</strong>";
    StrongStage(x, h);
    assert '\n' !in x;
    QuietStages(h);
  }

  lemma StrongStage(x: string, h: string)
    requires NoTerminator(x) && '*' !in x && h == "<strong>" + x + "</strong>"
    ensures ReplacePair("**" + x + "**", "**", "<strong>", "</strong>") == h
  {
    PairWraps(x, [], "**", "<strong>", "</strong>");
    assert "**" + x + "**" + [] == "**" + x + "**" && h + [] == h;
  }

  /** `*x*` becomes `<em>x</em>` when `x` is not empty and holds no star and no line break. */
  lemma MarkdownEm(x: string)
    requires x != [] && '*' !in x && NoTerminator(x)
    ensures MarkdownToHtml("*" + x + "*") == "<em>" + x + "</em>"
  {
    var s := "*" + x + "*";
    forall i ensures !OccursAt(s, "**", i) {
      if 0 <= i && i + 2 <= |s| {
        if i == 0 {
          assert s[i..i + 2][1] == x[0];
        } else {
          assert s[i..i + 2][0] == x[i - 1];
        }
      }
    }
    ReplacePairUnchanged(s, "**", "<strong>", "</strong>");
    var h := "<em>" + x + "</em>";
    PairWraps(x, [], "*", "<em>", "</em>");
    assert s + [] == s && h + [] == h;
    assert '\n' !in x;
    NoNewlineStages(h);
  }

  /** Text without a star or a newline passes the italic and line substitutions unchanged. */
  lemma QuietStages(h: string)
    requires '*' !in h && '\n' !in h
    ensures ReplaceAll(ReplaceAll(ReplacePair(h, "*", "<em>", "</em>"), "\n\n", "</p><p>"), "\n", "<br>") == h
  {
    NoLeadNoOccur(h, "*");
    ReplacePairUnchanged(h, "*", "<em>", "</em>");
    NoNewlineStages(h);
  }

  /** Text without a newline passes the line substitutions unchanged. */
  lemma NoNewlineStages(h: string)
    requires '\n' !in h
    ensures ReplaceAll(ReplaceAll(h, "\n\n", "</p><p>"), "\n", "<br>") == h
  {
    NoLeadNoOccur(h, "\n\n");
    ReplaceAllUnchanged(h, "\n\n", "</p><p>");
    NoLeadNoOccur(h, "\n");
    ReplaceAllUnchanged(h, "\n", "<br>");
  }

  /** A marker, text without the marker's first character or a line break, and the marker
      again: the pair is replaced and the rest is substituted on its own. */
  lemma PairWraps(x: string, rest: string, marker: string, open: string, close: string)
    requires marker != [] && marker[0] !in x && NoTerminator(x)
    ensures ReplacePair(marker + x + marker + rest, marker, open, close)
         == open + x + close + ReplacePair(rest, marker, open, close)
  {
    var s := marker + x + marker + rest;
    var k := |marker| + |x|;
    assert s[..|marker|] == marker;
    assert s[k..k + |marker|] == marker;
    forall i | |marker| <= i < k ensures !OccursAt(s, marker, i) {
      assert s[i..i + |marker|][0] == x[i - |marker|];
    }
    assert OccursAt(s, marker, k);
    var r := IndexOf(s, marker, |marker|);
    assert r != -1 && r <= k;
    assert s[|marker|..k] == x;
    assert s[k + |marker|..] == rest;
    PairStep(s, marker, open, close, k, x, rest);
  }

  /** Text that lacks the first character of `pat` holds no occurrence of it. */
  lemma NoLeadNoOccur(s: string, pat: string)
    requires pat != [] && pat[0] !in s
    ensures forall i :: !OccursAt(s, pat, i)
  {
    forall i ensures !OccursAt(s, pat, i) {
      if 0 <= i && i + |pat| <= |s| {
        assert s[i..i + |pat|][0] == s[i];
      }
    }
  }

  /** A prefix without any marker character is copied as it is. */
  lemma {:induction false} PlainThenPair(a: string, b: string, marker: string, open: string, close: string)
    requires marker != [] && forall i :: 0 <= i < |a| ==> a[i] !in marker
    ensures ReplacePair(a + b, marker, open, close) == a + ReplacePair(b, marker, open, close)
    decreases |a|
  {
    if a != [] {
      var s := a + b;
      assert a[0] !in marker && marker[0] in marker;
      assert |marker| > |s| || s[..|marker|][0] != marker[0];
      assert s[1..] == a[1..] + b;
      var rest := ReplacePair(b, marker, open, close);
      assert ReplacePair(s, marker, open, close) == [a[0]] + ReplacePair(a[1..] + b, marker, open, close);
      PlainThenPair(a[1..], b, marker, open, close);
      ConcatAssoc([a[0]], a[1..], rest);
      assert [a[0]] + a[1..] == a;
    } else {
      assert a + b == b;
    }
  }

  /** A body with no star and no newline is emitted verbatim: nothing is escaped. */
  lemma PlainBodyVerbatim(body: string)
    requires forall i :: 0 <= i < |body| ==> body[i] != '*' && body[i] != '\n'
    ensures MarkdownToHtml(body) == body
  {
    forall i ensures !OccursAt(body, "**", i) && !OccursAt(body, "*", i) {
      if 0 <= i < |body| {
        assert body[i] != '*';
        if i + 2 <= |body| {
          assert body[i..i + 2][0] == body[i];
        }
        assert body[i..i + 1][0] == body[i];
      }
    }
    forall i ensures !OccursAt(body, "\n\n", i) && !OccursAt(body, "\n", i) {
      if 0 <= i < |body| {
        assert body[i] != '\n';
        if i + 2 <= |body| {
          assert body[i..i + 2][0] == body[i];
        }
        assert body[i..i + 1][0] == body[i];
      }
    }
    ReplacePairUnchanged(body, "**", "<strong>", "</strong>");
    ReplacePairUnchanged(body, "*", "<em>", "</em>");
    ReplaceAllUnchanged(body, "\n\n", "</p><p>");
    ReplaceAllUnchanged(body, "\n", "<br>");
  }

  /** Once the last substitution has run, no newline is left. */
  lemma {:induction false} NoNewlineLeft(s: string)
    ensures '\n' !in ReplaceAll(s, "\n", "<br>")
    decreases |s|
  {
    if s != [] {
      if StartsWith(s, "\n") {
        NoNewlineLeft(s[1..]);
      } else {
        assert s[0] != '\n' by { assert s[..1] != "\n"; }
        NoNewlineLeft(s[1..]);
      }
    }
  }

  // ---------------------------------------------------------------------------------------
  // The parts of the page

  /** The fixed text of the page template, between the interpolated values. The page is
      defined for any such text; `Page` holds the text of the preview itself. */
  datatype Markup = Markup(
    titleOpen: string,       // document head up to the page title
    titleClose: string,      // end of the title, style sheet, start of the body and cover
    coverTitleClose: string,
    subtitleOpen: string,
    subtitleClose: string,
    authorOpen: string,
    defaultAuthor: string,
    coverClose: string,      // end of the cover and start of the table of contents
    entryOpen: string,       // start of an entry, up to the link target
    entryNumber: string,     // end of the link target, before the number
    entrySep: string,
    entryClose: string,
    tocClose: string,
    chapterOpen: string,     // start of a chapter block, up to its anchor
    chapterNumber: string,   // end of the anchor, up to the number
    chapterSep: string,
    chapterTitleClose: string,
    paragraphOpen: string,
    paragraphClose: string,
    placeholder: string,
    chapterClose: string,
    back: string)

  const StyleSheet: string :=
    "body { font-family: Georgia, serif; line-height: 1.6; max-width: 800px; margin: 0 auto; padding: 40px 20px; color: #333; }\n"
    + ".cover { text-align: center; margin-bottom: 60px; page-break-after: always; }\n"
    + ".cover h1 { font-size: 2.5em; margin-bottom: 20px; color: #2c3e50; }\n"
    + ".cover h2 { font-size: 1.2em; color: #7f8c8d; font-weight: normal; margin-bottom: 30px; }\n"
    + ".cover .author { font-size: 1.1em; color: #34495e; }\n"
    + ".toc { margin-bottom: 60px; page-break-after: always; }\n"
    + ".toc h2 { font-size: 1.8em; margin-bottom: 30px; color: #2c3e50; border-bottom: 2px solid #3498db; padding-bottom: 10px; }\n"
    + ".toc ul { list-style: none; padding: 0; }\n"
    + ".toc li { margin: 10px 0; padding: 8px 0; border-bottom: 1px dotted #bdc3c7; }\n"
    + ".toc a { text-decoration: none; color: #2c3e50; font-weight: 500; }\n"
    + ".chapter { margin-bottom: 50px; page-break-before: always; }\n"
    + ".chapter h1 { font-size: 2em; color: #2c3e50; margin-bottom: 30px; border-bottom: 3px solid #3498db; padding-bottom: 10px; }\n"
    + ".chapter-content { font-size: 1.1em; line-height: 1.8; }\n"
    + ".chapter-content p { margin-bottom: 20px; text-align: justify; }\n"
    + "@media print {\nbody { padding: 20px; }\n.page-break { page-break-before: always; }\n}\n"

  /** The preview's template text. */
  const Page: Markup := Markup(
    titleOpen := "\n<!DOCTYPE html>\n<html lang=\"fr\">\n<head>\n<meta charset=\"UTF-8\">\n"
      + "<meta name=\"viewport\" content=\"width=device-width, initial-scale=1.0\">\n<title>",
    titleClose := "</title>\n<style>\n" + StyleSheet + "</style>\n</head>\n<body>\n"
      + "<!-- Cover Page -->\n<div class=\"cover\">\n<h1>",
    coverTitleClose := "</h1>\n",
    subtitleOpen := "<h2>",
    subtitleClose := "</h2>",
    authorOpen := "\n<div class=\"author\">par ",
    defaultAuthor := "Auteur",
    coverClose := "</div>\n</div>\n\n<!-- Table of Contents -->\n<div class=\"toc\">\n"
      + "<h2>Table des mati\U{00E8}res</h2>\n<ul>\n",
    entryOpen := "\n<li>\n<a href=\"#chapter-",
    entryNumber := "\">\n",
    entrySep := ". ",
    entryClose := "\n</a>\n</li>\n",
    tocClose := "\n</ul>\n</div>\n\n<!-- Chapters -->\n",
    chapterOpen := "\n<div class=\"chapter\" id=\"chapter-",
    chapterNumber := "\">\n<h1>Chapitre ",
    chapterSep := ": ",
    chapterTitleClose := "</h1>\n<div class=\"chapter-content\">\n",
    paragraphOpen := "<p>",
    paragraphClose := "</p>",
    placeholder := "<p><em>Contenu \U{00E0} venir...</em></p>",
    chapterClose := "\n</div>\n</div>\n",
    back := "\n</body>\n</html>\n")

  /** The subtitle heading, only for a subtitle that is present and not empty. */
  function SubtitleHtml(m: Markup, subtitle: Option<string>): (r: string)
    ensures Truthy(subtitle) ==> r == m.subtitleOpen + subtitle.value + m.subtitleClose
    ensures !Truthy(subtitle) ==> r == ""
  {
    match subtitle
    case Some(text) => if text != "" then m.subtitleOpen + text + m.subtitleClose else ""
    case None => ""
  }

  /** The author line's name: the book's author, or the default when it has none. */
  function AuthorName(m: Markup, author: Option<string>): (r: string)
    ensures Truthy(author) ==> r == author.value
    ensures !Truthy(author) ==> r == m.defaultAuthor
  {
    if Truthy(author) then author.value else m.defaultAuthor
  }

  /** The document head and the cover page: the book title appears as the page title and as
      the cover heading. */
  function Front(m: Markup, book: Book): string {
    m.titleOpen + book.title + m.titleClose + book.title + m.coverTitleClose
    + SubtitleHtml(m, book.subtitle) + m.authorOpen + AuthorName(m, book.author) + m.coverClose
  }

  /** The link of the chapter at `index` and its number, counted from 1. */
  function TocLink(m: Markup, index: nat, chapter: Chapter): string {
    m.entryOpen + chapter.id + m.entryNumber + NatToString(index + 1) + m.entrySep + chapter.title
  }

  function TocEntry(m: Markup, index: nat, chapter: Chapter): string {
    TocLink(m, index, chapter) + m.entryClose
  }

  /** One table of contents entry per chapter, in the given order. */
  function TocEntries(m: Markup, chapters: seq<Chapter>): (r: seq<string>)
    ensures |r| == |chapters|
  {
    seq(|chapters|, i requires 0 <= i < |chapters| => TocEntry(m, i, chapters[i]))
  }

  /** The anchor and heading of the chapter at `index`, numbered from 1. */
  function ChapterHeading(m: Markup, index: nat, chapter: Chapter): string {
    m.chapterOpen + chapter.id + m.chapterNumber + NatToString(index + 1) + m.chapterSep + chapter.title
  }

  /** A section's paragraph; a section with an empty body emits nothing. */
  function SectionHtml(m: Markup, section: Section): string {
    if section.bodyMd != "" then m.paragraphOpen + MarkdownToHtml(section.bodyMd) + m.paragraphClose else ""
  }

  function SectionParagraphs(m: Markup, chapterSections: seq<Section>): (r: seq<string>)
    ensures |r| == |chapterSections|
  {
    seq(|chapterSections|, i requires 0 <= i < |chapterSections| => SectionHtml(m, chapterSections[i]))
  }

  /** What stands inside a chapter's content block: its sections' paragraphs, or the
      placeholder when it has no section at all. */
  function ChapterContent(m: Markup, chapterSections: seq<Section>): string {
    if |chapterSections| == 0 then m.placeholder else Join(SectionParagraphs(m, chapterSections))
  }

  function ChapterOpen(m: Markup, index: nat, chapter: Chapter): string {
    ChapterHeading(m, index, chapter) + m.chapterTitleClose
  }

  /** The chapter at `index` with the sections of `sections` that belong to it, sorted by
      order. */
  function ChapterHtml(m: Markup, index: nat, chapter: Chapter, sections: seq<Section>): string {
    ChapterOpen(m, index, chapter) + ChapterContent(m, Store.SectionsOf(sections, chapter.id)) + m.chapterClose
  }

  function ChapterBlocks(m: Markup, chapters: seq<Chapter>, sections: seq<Section>): (r: seq<string>)
    ensures |r| == |chapters|
  {
    seq(|chapters|, i requires 0 <= i < |chapters| => ChapterHtml(m, i, chapters[i], sections))
  }

  /** The page for `chapters`, already in the order they are shown. */
  function PreviewHtml(m: Markup, book: Book, chapters: seq<Chapter>, sections: seq<Section>): string {
    Front(m, book) + Join(TocEntries(m, chapters)) + m.tocClose
    + Join(ChapterBlocks(m, chapters, sections)) + m.back
  }

  // ---------------------------------------------------------------------------------------
  // The generator

  /** Sorts the caller's chapters in place, then appends the table of contents entry of
      every chapter and then every chapter with its sections. */
  method GeneratePreviewHtml(book: Book, chapters: array<Chapter>, sections: seq<Section>)
    returns (html: string)
    modifies chapters
    ensures chapters[..] == SortBy(old(chapters[..]), ChapterOrder)
    ensures html == PreviewHtml(Page, book, chapters[..], sections)
  {
    SortChapters(chapters);
    html := Render(Page, book, chapters, sections);
  }

  /** The three loops of the generator over the sorted chapters. */
  method Render(m: Markup, book: Book, chapters: array<Chapter>, sections: seq<Section>)
    returns (html: string)
    ensures html == PreviewHtml(m, book, chapters[..], sections)
  {
    html := Front(m, book);
    html := AppendToc(m, html, chapters);
    html := html + m.tocClose;
    ghost var front := html;
    ghost var blocks := ChapterBlocks(m, chapters[..], sections);
    var index := 0;
    while index < chapters.Length
      invariant 0 <= index <= chapters.Length
      invariant html == front + Join(blocks[..index])
    {
      JoinStep(blocks, index);
      ConcatAssoc(front, Join(blocks[..index]), blocks[index]);
      html := AppendChapter(m, html, index, chapters[index], sections);
      index := index + 1;
    }
    assert blocks[..index] == blocks;
    html := html + m.back;
  }

  /** The table of contents loop: one entry per chapter, numbered from 1. */
  method AppendToc(m: Markup, html0: string, chapters: array<Chapter>) returns (html: string)
    ensures html == html0 + Join(TocEntries(m, chapters[..]))
  {
    ghost var entries := TocEntries(m, chapters[..]);
    html := html0;
    var index := 0;
    while index < chapters.Length
      invariant 0 <= index <= chapters.Length
      invariant html == html0 + Join(entries[..index])
    {
      JoinStep(entries, index);
      ConcatAssoc(html0, Join(entries[..index]), entries[index]);
      html := html + TocEntry(m, index, chapters[index]);
      index := index + 1;
    }
    assert entries[..index] == entries;
  }

  /** The chapter loop's body: heading, the chapter's sections in order, the placeholder
      when it has none, and the closing tags. */
  method AppendChapter(m: Markup, html0: string, index: nat, chapter: Chapter, sections: seq<Section>)
    returns (html: string)
    ensures html == html0 + ChapterHtml(m, index, chapter, sections)
  {
    var chapterSections := Store.SectionsOf(sections, chapter.id);
    var open := ChapterOpen(m, index, chapter);
    var content: string;
    if |chapterSections| == 0 {
      content := m.placeholder;
    } else {
      content := AppendParagraphs(m, [], chapterSections);
      assert content == Join(SectionParagraphs(m, chapterSections));
    }
    assert content == ChapterContent(m, chapterSections);
    html := html0 + open + content + m.chapterClose;
    ConcatAssoc(html0, open, content);
    ConcatAssoc(html0, open + content, m.chapterClose);
  }

  /** The section loop: one paragraph per section with a non-empty body, in order. */
  method AppendParagraphs(m: Markup, html0: string, chapterSections: seq<Section>) returns (html: string)
    ensures html == html0 + Join(SectionParagraphs(m, chapterSections))
  {
    ghost var paragraphs := SectionParagraphs(m, chapterSections);
    html := html0;
    var k := 0;
    while k < |chapterSections|
      invariant 0 <= k <= |chapterSections|
      invariant html == html0 + Join(paragraphs[..k])
    {
      JoinStep(paragraphs, k);
      ConcatAssoc(html0, Join(paragraphs[..k]), paragraphs[k]);
      if chapterSections[k].bodyMd != "" {
        html := html + (m.paragraphOpen + MarkdownToHtml(chapterSections[k].bodyMd) + m.paragraphClose);
      }
      k := k + 1;
    }
    assert paragraphs[..k] == paragraphs;
  }

  // ---------------------------------------------------------------------------------------
  // What the page shows

  /** Chapter `k` (from 0) is listed in the table of contents as number `k + 1` with a link
      to `#chapter-<id>`, and its block carries that anchor and the heading
      "Chapitre k+1: <title>". */
  lemma TocMatchesChapters(m: Markup, book: Book, chapters: seq<Chapter>, sections: seq<Section>, k: nat)
    requires k < |chapters|
    ensures Contains(PreviewHtml(m, book, chapters, sections), TocLink(m, k, chapters[k]))
    ensures Contains(PreviewHtml(m, book, chapters, sections), ChapterHeading(m, k, chapters[k]))
  {
    var c := chapters[k];
    var entries := TocEntries(m, chapters);
    var blocks := ChapterBlocks(m, chapters, sections);
    var link := TocLink(m, k, c);
    JoinSplit(entries, k);
    ContainsSelf(link);
    ContainsExtendRight(link, m.entryClose, link);
    ContainsExtendLeft(Join(entries[..k]), entries[k], link);
    ContainsExtendRight(Join(entries[..k]) + entries[k], Join(entries[k + 1..]), link);
    ContainsExtendLeft(Front(m, book), Join(entries), link);
    ContainsExtendRight(Front(m, book) + Join(entries), m.tocClose, link);
    ContainsExtendRight(Front(m, book) + Join(entries) + m.tocClose, Join(blocks), link);
    ContainsExtendRight(Front(m, book) + Join(entries) + m.tocClose + Join(blocks), m.back, link);
    var heading := ChapterHeading(m, k, c);
    var content := ChapterContent(m, Store.SectionsOf(sections, c.id));
    JoinSplit(blocks, k);
    ContainsSelf(heading);
    ContainsExtendRight(heading, m.chapterTitleClose, heading);
    ContainsExtendRight(ChapterOpen(m, k, c), content, heading);
    ContainsExtendRight(ChapterOpen(m, k, c) + content, m.chapterClose, heading);
    ContainsExtendLeft(Join(blocks[..k]), blocks[k], heading);
    ContainsExtendRight(Join(blocks[..k]) + blocks[k], Join(blocks[k + 1..]), heading);
    ContainsExtendLeft(Front(m, book) + Join(entries) + m.tocClose, Join(blocks), heading);
    ContainsExtendRight(Front(m, book) + Join(entries) + m.tocClose + Join(blocks), m.back, heading);
  }

  /** The book title is inserted verbatim, unescaped, as the page title and on the cover. */
  lemma TitleVerbatim(m: Markup, book: Book, chapters: seq<Chapter>, sections: seq<Section>)
    ensures StartsWith(PreviewHtml(m, book, chapters, sections), m.titleOpen + book.title + m.titleClose + book.title)
  {
    var p := m.titleOpen + book.title + m.titleClose + book.title;
    var s1 := p + m.coverTitleClose;
    var s2 := s1 + SubtitleHtml(m, book.subtitle);
    var s3 := s2 + m.authorOpen;
    var s4 := s3 + AuthorName(m, book.author);
    assert p[..|p|] == p;
    StartsWithExtend(p, m.coverTitleClose, p);
    StartsWithExtend(s1, SubtitleHtml(m, book.subtitle), p);
    StartsWithExtend(s2, m.authorOpen, p);
    StartsWithExtend(s3, AuthorName(m, book.author), p);
    StartsWithExtend(s4, m.coverClose, p);
    var f := Front(m, book);
    StartsWithExtend(f, Join(TocEntries(m, chapters)), p);
    StartsWithExtend(f + Join(TocEntries(m, chapters)), m.tocClose, p);
    StartsWithExtend(f + Join(TocEntries(m, chapters)) + m.tocClose, Join(ChapterBlocks(m, chapters, sections)), p);
    StartsWithExtend(f + Join(TocEntries(m, chapters)) + m.tocClose + Join(ChapterBlocks(m, chapters, sections)), m.back, p);
  }

  /** The placeholder stands for a chapter with no sections at all. */
  lemma NoSectionsPlaceholder(m: Markup, index: nat, chapter: Chapter, sections: seq<Section>)
    requires forall s :: s in sections ==> s.chapterId != chapter.id
    ensures ChapterHtml(m, index, chapter, sections) == ChapterOpen(m, index, chapter) + m.placeholder + m.chapterClose
  {
    var mine := Store.SectionsOf(sections, chapter.id);
    assert |mine| == 0 by {
      assert forall s :: s !in mine;
    }
  }

  lemma {:induction false} EmptyParagraphs(parts: seq<string>)
    requires forall i :: 0 <= i < |parts| ==> parts[i] == ""
    ensures Join(parts) == ""
  {
    if parts != [] {
      EmptyParagraphs(parts[1..]);
    }
  }

  /** A chapter whose sections all have empty bodies shows an empty content block rather
      than the placeholder. */
  lemma EmptyBodiesNoPlaceholder(m: Markup, index: nat, chapter: Chapter, sections: seq<Section>)
    requires exists s :: s in sections && s.chapterId == chapter.id
    requires forall s :: s in sections && s.chapterId == chapter.id ==> s.bodyMd == ""
    ensures ChapterHtml(m, index, chapter, sections) == ChapterOpen(m, index, chapter) + m.chapterClose
  {
    var mine := Store.SectionsOf(sections, chapter.id);
    var s :| s in sections && s.chapterId == chapter.id;
    assert s in mine;
    EmptyContent(m, mine);
    assert ChapterOpen(m, index, chapter) + [] == ChapterOpen(m, index, chapter);
  }

  lemma EmptyContent(m: Markup, mine: seq<Section>)
    requires mine != [] && forall s :: s in mine ==> s.bodyMd == ""
    ensures ChapterContent(m, mine) == ""
  {
    var parts := SectionParagraphs(m, mine);
    forall i | 0 <= i < |parts| ensures parts[i] == "" {
      assert mine[i] in mine;
    }
    EmptyParagraphs(parts);
  }
}
