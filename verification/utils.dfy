/** The text helpers of the application: truncation, the reading-time estimate and the
    Markdown export of a book. */
module Utils {
  import opened Wrappers
  import opened Text

  // ---------------------------------------------------------------------------------------
  // truncateText

  /** `s.slice(0, end)`: a negative `end` counts from the back, and both ends are clamped. */
  function SliceTo(s: string, end: int): (r: string)
    ensures |r| <= |s| && r == s[..|r|]
    ensures 0 <= end <= |s| ==> |r| == end
    ensures end < 0 ==> |r| == (if |s| + end < 0 then 0 else |s| + end)
  {
    if end < 0 then (if |s| + end < 0 then [] else s[..|s| + end])
    else if end > |s| then s
    else s[..end]
  }

  /** `truncateText`: short enough text is kept, longer text is cut to `maxLength`
      characters, trimmed, and marked with an ellipsis. */
  function TruncateText(text: string, maxLength: int): (r: string)
    ensures |text| <= maxLength ==> r == text
    ensures |text| > maxLength ==> |r| >= 3 && r[|r| - 3..] == "..."
    ensures |text| > maxLength >= 0 ==> |r| <= maxLength + 3
  {
    if |text| <= maxLength then text else Trim(SliceTo(text, maxLength)) + "..."
  }

  /** Before the ellipsis stands a piece of the cut text without white space at either
      end. */
  lemma TruncateKeepsPrefix(text: string, maxLength: int)
    requires |text| > maxLength
    ensures var r := TruncateText(text, maxLength);
      var kept := r[..|r| - 3];
      (exists i :: OccursAt(SliceTo(text, maxLength), kept, i))
      && (kept == [] || (!IsSpace(kept[0]) && !IsSpace(kept[|kept| - 1])))
  {
    var kept := Trim(SliceTo(text, maxLength));
    TrimInside(SliceTo(text, maxLength));
    var r := kept + "...";
    assert TruncateText(text, maxLength) == r;
    assert r[..|r| - 3] == kept;
  }

  // ---------------------------------------------------------------------------------------
  // calculateReadingTime

  /** The first white-space position at or after `from`, or `|s|`. */
  function NextSpace(s: string, from: nat): (r: nat)
    requires from <= |s|
    ensures from <= r <= |s| && (r < |s| ==> IsSpace(s[r]))
    ensures forall k :: from <= k < r ==> !IsSpace(s[k])
    decreases |s| - from
  {
    if from == |s| || IsSpace(s[from]) then from else NextSpace(s, from + 1)
  }

  /** The end of the white-space run starting at or after `from`. */
  function SkipSpaces(s: string, from: nat): (r: nat)
    requires from <= |s|
    ensures from <= r <= |s| && (r < |s| ==> !IsSpace(s[r]))
    ensures forall k :: from <= k < r ==> IsSpace(s[k])
    decreases |s| - from
  {
    if from == |s| || !IsSpace(s[from]) then from else SkipSpaces(s, from + 1)
  }

  /** `s.split(/\s+/)`: the pieces between maximal runs of white space; text starting or
      ending with white space gives an empty first or last piece, and `""` gives `[""]`. */
  function SplitSpaces(s: string): (r: seq<string>)
    ensures |r| >= 1
    ensures forall k :: 0 <= k < |r| ==> !HasSpace(r[k])
    decreases |s|
  {
    var i := NextSpace(s, 0);
    if i == |s| then [s]
    else
      var j := SkipSpaces(s, i);
      [s[..i]] + SplitSpaces(s[j..])
  }

  /** The characters of `s` that are not white space, in order. */
  function NonSpace(s: string): (r: string)
    ensures |r| <= |s|
  {
    if s == [] then [] else (if IsSpace(s[0]) then [] else [s[0]]) + NonSpace(s[1..])
  }

  lemma {:induction false} NonSpaceAppend(a: string, b: string)
    ensures NonSpace(a + b) == NonSpace(a) + NonSpace(b)
    decreases |a|
  {
    if a != [] {
      assert (a + b)[1..] == a[1..] + b;
      NonSpaceAppend(a[1..], b);
    } else {
      assert a + b == b;
    }
  }

  lemma {:induction false} NonSpaceOfWord(s: string)
    requires !HasSpace(s)
    ensures NonSpace(s) == s
    decreases |s|
  {
    if s != [] {
      assert !IsSpace(s[0]);
      assert !HasSpace(s[1..]) by {
        forall k | 0 <= k < |s[1..]| ensures !IsSpace(s[1..][k]) {
          assert s[1..][k] == s[k + 1];
        }
      }
      NonSpaceOfWord(s[1..]);
      assert [s[0]] + s[1..] == s;
    }
  }

  lemma {:induction false} NonSpaceOfBlank(s: string)
    requires forall k :: 0 <= k < |s| ==> IsSpace(s[k])
    ensures NonSpace(s) == []
    decreases |s|
  {
    if s != [] {
      assert IsSpace(s[0]);
      NonSpaceOfBlank(s[1..]);
    }
  }

  /** Splitting loses exactly the white space: the pieces, joined, are the other
      characters in order. */
  lemma {:induction false} SplitKeepsWords(s: string)
    ensures Join(SplitSpaces(s)) == NonSpace(s)
    decreases |s|
  {
    var i := NextSpace(s, 0);
    if i == |s| {
      assert !HasSpace(s);
      NonSpaceOfWord(s);
    } else {
      var j := SkipSpaces(s, i);
      var word, blank, tail := s[..i], s[i..j], s[j..];
      var rest := SplitSpaces(tail);
      assert SplitSpaces(s) == [word] + rest;
      JoinCons(word, rest);
      SplitKeepsWords(tail);
      assert !HasSpace(word);
      NonSpaceOfWord(word);
      NonSpaceOfBlank(blank);
      NonSpaceSplit(s, i, j);
    }
  }

  lemma JoinCons(x: string, rest: seq<string>)
    ensures Join([x] + rest) == x + Join(rest)
  {
    assert ([x] + rest)[1..] == rest;
  }

  /** The white space between positions `i` and `j` of `s` contributes nothing. */
  lemma {:induction false} NonSpaceSplit(s: string, i: nat, j: nat)
    requires i <= j <= |s| && NonSpace(s[i..j]) == []
    ensures NonSpace(s) == NonSpace(s[..i]) + NonSpace(s[j..])
  {
    var a, b, c := s[..i], s[i..j], s[j..];
    assert s == a + (b + c);
    NonSpaceAppend(a, b + c);
    NonSpaceAppend(b, c);
    assert NonSpace(b + c) == NonSpace(c) by {
      assert [] + NonSpace(c) == NonSpace(c);
    }
  }

  /** Text without white space at either end splits into non-empty words only (or the
      single empty piece when it is empty). */
  lemma {:induction false} TrimmedWordsNonEmpty(s: string)
    requires s != [] && !IsSpace(s[0]) && !IsSpace(s[|s| - 1])
    ensures forall k :: 0 <= k < |SplitSpaces(s)| ==> SplitSpaces(s)[k] != []
    decreases |s|
  {
    var i := NextSpace(s, 0);
    if i < |s| {
      var j := SkipSpaces(s, i);
      assert j < |s|;
      var rest := s[j..];
      assert rest[0] == s[j] && rest[|rest| - 1] == s[|s| - 1];
      TrimmedWordsNonEmpty(rest);
      var r := SplitSpaces(s);
      assert r == [s[..i]] + SplitSpaces(rest);
      forall k | 0 <= k < |r| ensures r[k] != [] {
        if k > 0 {
          assert r[k] == SplitSpaces(rest)[k - 1];
        }
      }
    }
  }

  const WordsPerMinute := 200

  /** `calculateReadingTime`: `Math.ceil(words / 200)`, where `words` is the number of
      pieces of the trimmed text split at white space. */
  function ReadingTime(text: string): (r: int)
    ensures r >= 1
    ensures WordsPerMinute * (r - 1) < |SplitSpaces(Trim(text))| <= WordsPerMinute * r
  {
    var words := |SplitSpaces(Trim(text))|;
    (words + WordsPerMinute - 1) / WordsPerMinute
  }

  /** Every piece counted is a real word, except the single empty piece of blank text,
      which still counts as one word. */
  lemma ReadingTimeCountsWords(text: string)
    ensures Trim(text) == [] ==> SplitSpaces(Trim(text)) == [[]] && ReadingTime(text) == 1
    ensures Trim(text) != [] ==>
      forall k :: 0 <= k < |SplitSpaces(Trim(text))| ==> SplitSpaces(Trim(text))[k] != []
    ensures Join(SplitSpaces(Trim(text))) == NonSpace(Trim(text))
  {
    var t := Trim(text);
    if t != [] {
      TrimmedWordsNonEmpty(t);
    } else {
      assert NextSpace(t, 0) == 0;
    }
    SplitKeepsWords(t);
  }

  // ---------------------------------------------------------------------------------------
  // exportAsMarkdown

  datatype MdSection = MdSection(heading: Option<string>, bodyMd: string)
  datatype MdChapter = MdChapter(title: string, sections: seq<MdSection>)

  /** A section: its heading line when the heading is present and not empty, then its
      body, each followed by a blank line. */
  function SectionMd(s: MdSection): (r: string)
    ensures s.heading.Some? && s.heading.value != [] ==>
      r == "### " + s.heading.value + "\n\n" + s.bodyMd + "\n\n"
    ensures !(s.heading.Some? && s.heading.value != []) ==> r == s.bodyMd + "\n\n"
  {
    (if s.heading.Some? && s.heading.value != [] then "### " + s.heading.value + "\n\n" else "")
    + s.bodyMd + "\n\n"
  }

  function SectionMds(sections: seq<MdSection>): (r: seq<string>)
    ensures |r| == |sections| && forall i :: 0 <= i < |r| ==> r[i] == SectionMd(sections[i])
  {
    seq(|sections|, i requires 0 <= i < |sections| => SectionMd(sections[i]))
  }

  /** The heading of the chapter at `index`, numbered from 1. */
  function ChapterHeadingMd(index: nat, title: string): string {
    "## " + NatToString(index + 1) + ". " + title + "\n\n"
  }

  function ChapterMd(index: nat, c: MdChapter): string {
    ChapterHeadingMd(index, c.title) + Join(SectionMds(c.sections))
  }

  function ChapterMds(chapters: seq<MdChapter>): (r: seq<string>)
    ensures |r| == |chapters| && forall i :: 0 <= i < |r| ==> r[i] == ChapterMd(i, chapters[i])
  {
    seq(|chapters|, i requires 0 <= i < |chapters| => ChapterMd(i, chapters[i]))
  }

  function TitleMd(title: string): string {
    "# " + title + "\n\n"
  }

  /** The document: the title line, then the chapters in the order given. */
  function MarkdownDoc(title: string, chapters: seq<MdChapter>): string {
    TitleMd(title) + Join(ChapterMds(chapters))
  }

  /** `exportAsMarkdown`: the document is accumulated chapter by chapter. */
  method ExportAsMarkdown(title: string, chapters: seq<MdChapter>) returns (markdown: string)
    ensures markdown == MarkdownDoc(title, chapters)
  {
    markdown := TitleMd(title);
    ghost var parts := ChapterMds(chapters);
    var index := 0;
    while index < |chapters|
      invariant 0 <= index <= |chapters|
      invariant markdown == TitleMd(title) + Join(parts[..index])
    {
      JoinStep(parts, index);
      ConcatAssoc(TitleMd(title), Join(parts[..index]), parts[index]);
      markdown := AppendChapterMd(markdown, index, chapters[index]);
      index := index + 1;
    }
    assert parts[..index] == parts;
  }

  /** The chapter loop's body: the numbered heading, then each section in order. */
  method AppendChapterMd(markdown0: string, index: nat, chapter: MdChapter) returns (markdown: string)
    ensures markdown == markdown0 + ChapterMd(index, chapter)
  {
    markdown := markdown0 + ChapterHeadingMd(index, chapter.title);
    ghost var head := markdown;
    ghost var parts := SectionMds(chapter.sections);
    var k := 0;
    while k < |chapter.sections|
      invariant 0 <= k <= |chapter.sections|
      invariant markdown == head + Join(parts[..k])
    {
      JoinStep(parts, k);
      ConcatAssoc(head, Join(parts[..k]), parts[k]);
      var section := chapter.sections[k];
      if section.heading.Some? && section.heading.value != [] {
        markdown := markdown + ("### " + section.heading.value + "\n\n" + section.bodyMd + "\n\n");
      } else {
        markdown := markdown + (section.bodyMd + "\n\n");
      }
      k := k + 1;
    }
    assert parts[..k] == parts;
    ConcatAssoc(markdown0, ChapterHeadingMd(index, chapter.title), Join(parts));
  }

  /** The document opens with the title line. */
  lemma StartsWithTitle(title: string, chapters: seq<MdChapter>)
    ensures StartsWith(MarkdownDoc(title, chapters), "# " + title + "\n\n")
  {
    StartsWithExtend(TitleMd(title), Join(ChapterMds(chapters)), TitleMd(title));
  }

  /** Chapters are emitted in the order given, with no sorting: one more chapter appends
      its block, numbered after the others. */
  lemma AppendChapterLast(title: string, chapters: seq<MdChapter>, c: MdChapter)
    ensures MarkdownDoc(title, chapters + [c])
         == MarkdownDoc(title, chapters) + ChapterMd(|chapters|, c)
  {
    var all := ChapterMds(chapters + [c]);
    assert all == ChapterMds(chapters) + [ChapterMd(|chapters|, c)];
    JoinAppend(ChapterMds(chapters), ChapterMd(|chapters|, c));
    ConcatAssoc(TitleMd(title), Join(ChapterMds(chapters)), ChapterMd(|chapters|, c));
  }

  /** Chapter `k` (from 0) is headed "## k+1. <title>". */
  lemma ChapterHeadingShown(title: string, chapters: seq<MdChapter>, k: nat)
    requires k < |chapters|
    ensures Contains(MarkdownDoc(title, chapters), "## " + NatToString(k + 1) + ". " + chapters[k].title + "\n\n")
  {
    var parts := ChapterMds(chapters);
    var h := ChapterHeadingMd(k, chapters[k].title);
    JoinSplit(parts, k);
    ContainsSelf(h);
    ContainsExtendRight(h, Join(SectionMds(chapters[k].sections)), h);
    ContainsExtendRight(Join(parts[..k]) + parts[k], Join(parts[k + 1..]), h) by {
      ContainsExtendLeft(Join(parts[..k]), parts[k], h);
    }
    ContainsExtendLeft(TitleMd(title), Join(parts), h);
  }
}
