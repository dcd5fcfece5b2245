/**
 * `extract_header_block`: finds the annotation header in a file's text. Every line is
 * stripped of its comment decoration; the header is the run of content lines that
 * follows the first separator line, up to the first separator met once something has
 * been collected (or up to the end of the file). Banner lines are skipped throughout.
 */
module HeaderExtractor {
  import opened Wrappers
  import opened Strings
  import opened Languages
  import opened CommentStrip

  /** The separator marker: eight `=` characters. */
  const Separator := "========"

  predicate IsSeparator(line: string) {
    Contains(line, Separator)
  }

  /** The banner test inside the loop is case-sensitive, like the one on the whole text. */
  predicate IsBannerLine(line: string) {
    Contains(line, Banner)
  }

  /** A stripped line together with the two tests the extractor makes on it. */
  datatype Line = Line(text: string, separator: bool, banner: bool)

  function Classify(text: string): (l: Line)
    ensures l.text == text
  {
    Line(text, IsSeparator(text), IsBannerLine(text))
  }

  predicate Content(l: Line) {
    !l.separator && !l.banner
  }

  predicate Closing(l: Line) {
    l.separator && !l.banner
  }

  datatype LineKind = AnySeparator | ContentLine | ClosingLine

  predicate Is(kind: LineKind, l: Line) {
    match kind
    case AnySeparator => l.separator
    case ContentLine => Content(l)
    case ClosingLine => Closing(l)
  }

  /** Index of the first line at or after `from` of the given kind, or `|lines|`. */
  function First(lines: seq<Line>, from: nat, kind: LineKind): (r: nat)
    requires from <= |lines|
    ensures from <= r <= |lines|
    ensures r < |lines| ==> Is(kind, lines[r])
    ensures forall j | from <= j < r :: !Is(kind, lines[j])
    decreases |lines| - from
  {
    if from == |lines| || Is(kind, lines[from]) then from else First(lines, from + 1, kind)
  }

  /** `First` is characterised by its contract: any index meeting it is the one. */
  lemma {:induction false} FirstIs(lines: seq<Line>, from: nat, kind: LineKind, r: nat)
    requires from <= r <= |lines|
    requires r < |lines| ==> Is(kind, lines[r])
    requires forall j | from <= j < r :: !Is(kind, lines[j])
    ensures First(lines, from, kind) == r
    decreases r - from
  {
    if from < r {
      FirstIs(lines, from + 1, kind, r);
    }
  }

  /** The texts of the content lines among `lines[from..until]`, in order. */
  function ContentOnly(lines: seq<Line>, from: nat, until: nat): (r: seq<string>)
    requires from <= until <= |lines|
    ensures |r| <= until - from
    decreases until
  {
    if from == until then []
    else
      var last := lines[until - 1];
      ContentOnly(lines, from, until - 1) + (if Content(last) then [last.text] else [])
  }

  /** A range that starts with a content line keeps that line. */
  lemma {:induction false} ContentOnlyStart(lines: seq<Line>, f: nat, i: nat)
    requires f < i <= |lines| && Content(lines[f])
    ensures ContentOnly(lines, f, i) != []
    decreases i - f
  {
    if i > f + 1 {
      ContentOnlyStart(lines, f, i - 1);
    }
  }

  lemma ContentOnlyStarts(lines: seq<Line>, f: nat, i: nat)
    requires f <= |lines| && i <= |lines|
    ensures f < i && Content(lines[f]) ==> ContentOnly(lines, f, i) != []
  {
    if f < i && Content(lines[f]) {
      ContentOnlyStart(lines, f, i);
    }
  }

  /** Ground truth for the fields: each line is the classification of its text. */
  ghost predicate WellClassified(lines: seq<Line>) {
    forall k | 0 <= k < |lines| :: lines[k] == Classify(lines[k].text)
  }

  /** The first separator line. */
  function OpenAt(lines: seq<Line>): nat {
    First(lines, 0, AnySeparator)
  }

  /** The first content line after the first separator, or `|lines|`. */
  function StartAt(lines: seq<Line>): nat {
    var s := OpenAt(lines);
    if s < |lines| then First(lines, s + 1, ContentLine) else |lines|
  }

  /** The first closing line after the first collected line, or `|lines|`. */
  function EndAt(lines: seq<Line>): nat {
    var f := StartAt(lines);
    if f < |lines| then First(lines, f + 1, ClosingLine) else |lines|
  }

  /**
   * The header, stated on the classified stripped lines: the content lines from the
   * first content line after the first separator up to the first closing line after it.
   */
  function HeaderLines(lines: seq<Line>): seq<string> {
    var f := StartAt(lines);
    if f == |lines| then [] else ContentOnly(lines, f, EndAt(lines))
  }

  /** Every line of the file stripped of its comment decoration, and classified. */
  function Classified(lines: seq<string>, family: Family): (r: seq<Line>)
    ensures |r| == |lines|
  {
    seq(|lines|, k requires 0 <= k < |lines| => Classify(StripCommentPrefix(lines[k], family)))
  }

  /** The header text of a file, or `None`. */
  function ExtractHeader(content: string, family: Family): Option<string> {
    if !Contains(content, Banner) then None
    else
      var header := HeaderLines(Classified(Split(content), family));
      if header == [] then None else Some(Join(header))
  }

  /** `classified` holds line `k` of `lines`, stripped and classified. */
  ghost predicate ClassifiedAt(classified: seq<Line>, lines: seq<string>, family: Family, k: nat)
    requires k < |classified| && k < |lines|
  {
    classified[k] == Classify(StripCommentPrefix(lines[k], family))
  }

  ghost predicate ClassifiedFrom(classified: seq<Line>, lines: seq<string>, family: Family) {
    |classified| == |lines| && forall k | 0 <= k < |lines| :: ClassifiedAt(classified, lines, family, k)
  }

  lemma ClassifiedUnique(classified: seq<Line>, lines: seq<string>, family: Family)
    requires ClassifiedFrom(classified, lines, family)
    ensures classified == Classified(lines, family)
  {
    forall k | 0 <= k < |lines|
      ensures classified[k] == Classified(lines, family)[k]
    {
      assert ClassifiedAt(classified, lines, family, k);
    }
  }

  /** `s`, `f` and `e` are the three landmarks of `lines`. */
  ghost predicate Landmarks(lines: seq<Line>, s: nat, f: nat, e: nat) {
    s == OpenAt(lines) && f == StartAt(lines) && e == EndAt(lines)
  }

  /** What the loop knows after the first `i` lines, given the landmarks. */
  ghost predicate Scanned(lines: seq<Line>, s: nat, f: nat, e: nat, i: nat, inHeader: bool, headerLines: seq<string>)
    requires i <= |lines|
  {
    (!inHeader <==> i <= s) &&
    (!inHeader ==> headerLines == []) &&
    (inHeader ==> (i <= f ==> headerLines == []) && (f < i ==> i <= e && headerLines == ContentOnly(lines, f, i)))
  }

  lemma StepOpen(lines: seq<Line>, s: nat, f: nat, e: nat, i: nat, headerLines: seq<string>)
    requires Landmarks(lines, s, f, e)
    requires i < |lines| && Scanned(lines, s, f, e, i, false, headerLines) && lines[i].separator
    ensures Scanned(lines, s, f, e, i + 1, true, headerLines)
  {
    assert s <= i;
    assert s + 1 <= f;
  }

  lemma StepBanner(lines: seq<Line>, s: nat, f: nat, e: nat, i: nat, inHeader: bool, headerLines: seq<string>)
    requires Landmarks(lines, s, f, e)
    requires i < |lines| && Scanned(lines, s, f, e, i, inHeader, headerLines)
    requires lines[i].banner && (inHeader || !lines[i].separator)
    ensures Scanned(lines, s, f, e, i + 1, inHeader, headerLines)
  {
  }

  lemma StepSpurious(lines: seq<Line>, s: nat, f: nat, e: nat, i: nat)
    requires Landmarks(lines, s, f, e)
    requires i < |lines| && Scanned(lines, s, f, e, i, true, []) && Closing(lines[i])
    ensures Scanned(lines, s, f, e, i + 1, true, [])
  {
    ContentOnlyStarts(lines, f, i);
  }

  lemma StepClose(lines: seq<Line>, s: nat, f: nat, e: nat, i: nat, headerLines: seq<string>)
    requires Landmarks(lines, s, f, e)
    requires i < |lines| && Scanned(lines, s, f, e, i, true, headerLines) && Closing(lines[i])
    requires headerLines != []
    ensures headerLines == HeaderLines(lines)
  {
    FirstIs(lines, f + 1, ClosingLine, i);
  }

  lemma StepContent(lines: seq<Line>, s: nat, f: nat, e: nat, i: nat, headerLines: seq<string>)
    requires Landmarks(lines, s, f, e)
    requires i < |lines| && Scanned(lines, s, f, e, i, true, headerLines) && Content(lines[i])
    ensures Scanned(lines, s, f, e, i + 1, true, headerLines + [lines[i].text])
  {
    assert f <= i;
  }

  lemma StepOutside(lines: seq<Line>, s: nat, f: nat, e: nat, i: nat)
    requires Landmarks(lines, s, f, e)
    requires i < |lines| && Scanned(lines, s, f, e, i, false, []) && !lines[i].separator
    ensures Scanned(lines, s, f, e, i + 1, false, [])
  {
  }

  lemma Finish(lines: seq<Line>, s: nat, f: nat, e: nat, inHeader: bool, headerLines: seq<string>)
    requires Landmarks(lines, s, f, e)
    requires Scanned(lines, s, f, e, |lines|, inHeader, headerLines)
    ensures headerLines == HeaderLines(lines)
  {
  }

  /**
   * `strip_comment_prefix` applied to line `i` inside the loop. Its contract names the
   * result only through the classified line it is the text of, so that the loop's proof
   * reasons about landmarks and never about how the decoration was removed.
   */
  method CleanLine(lines: seq<string>, i: nat, family: Family, ghost classified: seq<Line>) returns (r: string)
    requires i < |lines| && ClassifiedFrom(classified, lines, family)
    ensures classified[i] == Classify(r)
  {
    r := StripCommentPrefix(lines[i], family);
    assert ClassifiedAt(classified, lines, family, i);
  }

  /**
   * One pass of the loop of `extract_header_block` over line `i`: whether the line was
   * a banner (the loop counts those), the new state, and whether the loop stops here
   * because the header has closed.
   */
  method ScanLine(lines: seq<string>, i: nat, family: Family, ghost classified: seq<Line>,
                  ghost s: nat, ghost f: nat, ghost e: nat, inHeader: bool, headerLines: seq<string>)
    returns (ban: bool, inHeader': bool, headerLines': seq<string>, done: bool)
    requires i < |lines| && ClassifiedFrom(classified, lines, family) && Landmarks(classified, s, f, e)
    requires Scanned(classified, s, f, e, i, inHeader, headerLines)
    ensures done ==> headerLines == HeaderLines(classified)
    ensures !done ==> Scanned(classified, s, f, e, i + 1, inHeader', headerLines')
  {
    var cleaned := CleanLine(lines, i, family, classified);
    var sep := IsSeparator(cleaned);
    ban := IsBannerLine(cleaned);
    inHeader', headerLines', done := inHeader, headerLines, false;
    assert classified[i] == Line(cleaned, sep, ban);
    if sep && !inHeader {
      StepOpen(classified, s, f, e, i, headerLines);
      inHeader' := true;
      return;
    }
    if ban {
      StepBanner(classified, s, f, e, i, inHeader, headerLines);
      return;
    }
    if inHeader {
      if sep {
        if headerLines != [] {
          StepClose(classified, s, f, e, i, headerLines);
          done := true;
          return;
        }
        StepSpurious(classified, s, f, e, i);
        return;
      }
      StepContent(classified, s, f, e, i, headerLines);
      headerLines' := headerLines + [cleaned];
    } else {
      StepOutside(classified, s, f, e, i);
    }
  }

  /** The loop of `extract_header_block` over the split lines: the header's lines. */
  method ScanLines(lines: seq<string>, family: Family, ghost classified: seq<Line>) returns (headerLines: seq<string>)
    requires ClassifiedFrom(classified, lines, family)
    ensures headerLines == HeaderLines(classified)
  {
    ghost var s, f, e := OpenAt(classified), StartAt(classified), EndAt(classified);
    headerLines := [];
    var inHeader := false;
    var bannerCount := 0;
    var i := 0;
    while i < |lines|
      invariant 0 <= i <= |lines|
      invariant Scanned(classified, s, f, e, i, inHeader, headerLines)
    {
      var ban, inHeader', headerLines', stop := ScanLine(lines, i, family, classified, s, f, e, inHeader, headerLines);
      if ban {
        bannerCount := bannerCount + 1;
      }
      if stop {
        return;
      }
      inHeader, headerLines, i := inHeader', headerLines', i + 1;
    }
    Finish(classified, s, f, e, inHeader, headerLines);
  }

  /** `extract_header_block(content, lang_info)`. */
  method ExtractHeaderBlock(content: string, family: Family) returns (r: Option<string>)
    ensures r == ExtractHeader(content, family)
  {
    if !Contains(content, Banner) {
      return None;
    }
    var lines := Split(content);
    assert exists c :: ClassifiedFrom(c, lines, family) by {
      assert ClassifiedFrom(Classified(lines, family), lines, family);
    }
    ghost var classified :| ClassifiedFrom(classified, lines, family);
    var headerLines := ScanLines(lines, family, classified);
    ClassifiedUnique(classified, lines, family);
    if headerLines != [] {
      r := Some(Join(headerLines));
    } else {
      r := None;
    }
  }

  // ---------------------------------------------------------------------------
  // Properties of the header, stated on the classified lines.

  /** The texts of the content lines of `ls`, in order: a filter independent of positions. */
  function ContentTexts(ls: seq<Line>): seq<string>
    decreases |ls|
  {
    if ls == [] then []
    else (if Content(ls[0]) then [ls[0].text] else []) + ContentTexts(ls[1..])
  }

  lemma {:induction false} ContentTextsAppend(a: seq<Line>, b: seq<Line>)
    ensures ContentTexts(a + b) == ContentTexts(a) + ContentTexts(b)
    decreases |a|
  {
    if a == [] {
      assert a + b == b;
    } else {
      assert (a + b)[1..] == a[1..] + b;
      ContentTextsAppend(a[1..], b);
    }
  }

  /** `ContentOnly` over a range is the filter over the slice. */
  lemma {:induction false} ContentOnlySlice(lines: seq<Line>, from: nat, until: nat)
    requires from <= until <= |lines|
    ensures ContentOnly(lines, from, until) == ContentTexts(lines[from..until])
    decreases until
  {
    if from < until {
      ContentOnlySlice(lines, from, until - 1);
      assert lines[from..until] == lines[from..until - 1] + [lines[until - 1]];
      ContentTextsAppend(lines[from..until - 1], [lines[until - 1]]);
      assert ContentTexts([lines[until - 1]]) == (if Content(lines[until - 1]) then [lines[until - 1].text] else []) by {
        assert [lines[until - 1]][1..] == [];
      }
    } else {
      assert lines[from..until] == [];
    }
  }

  /**
   * The header by its landmarks: `s` is a separator with none before it, no content line
   * lies strictly between `s` and `f`, line `f` is content, no closing line lies in
   * `[f, e)`, and `e` is the end or a closing line. The header is the content of
   * `lines[f..e]`.
   */
  lemma HeaderAt(lines: seq<Line>, s: nat, f: nat, e: nat)
    requires s < f < e <= |lines|
    requires forall k | 0 <= k < s :: !lines[k].separator
    requires lines[s].separator
    requires forall k | s < k < f :: !Content(lines[k])
    requires Content(lines[f])
    requires forall k | f <= k < e :: !Closing(lines[k])
    requires e == |lines| || Closing(lines[e])
    ensures HeaderLines(lines) == ContentTexts(lines[f..e])
  {
    assert OpenAt(lines) == s by {
      FirstIs(lines, 0, AnySeparator, s);
    }
    assert StartAt(lines) == f by {
      FirstIs(lines, s + 1, ContentLine, f);
    }
    assert EndAt(lines) == e by {
      FirstIs(lines, f + 1, ClosingLine, e);
    }
    ContentOnlySlice(lines, f, e);
  }

  /** No header is found exactly when no content line follows the first separator. */
  lemma HeaderEmptyIff(lines: seq<Line>)
    ensures HeaderLines(lines) == [] <==>
      forall j | OpenAt(lines) < j < |lines| :: !Content(lines[j])
  {
    var s, f := OpenAt(lines), StartAt(lines);
    if f < |lines| {
      ContentOnlyStart(lines, f, EndAt(lines));
    }
  }

  /** Every collected line is the text of a content line, taken from the first content line on. */
  lemma {:induction false} ContentOnlyFrom(lines: seq<Line>, from: nat, until: nat, x: string)
    requires from <= until <= |lines| && x in ContentOnly(lines, from, until)
    ensures exists k | from <= k < until :: Content(lines[k]) && lines[k].text == x
    decreases until
  {
    if from < until {
      var last := lines[until - 1];
      var init := ContentOnly(lines, from, until - 1);
      assert ContentOnly(lines, from, until) == init + (if Content(last) then [last.text] else []);
      if x in init {
        ContentOnlyFrom(lines, from, until - 1, x);
      } else {
        assert Content(last) && x == last.text;
      }
    }
  }

  /** The collected lines of well-classified, newline-free lines are clean. */
  lemma HeaderTextsClean(lines: seq<Line>)
    requires WellClassified(lines)
    requires forall k | 0 <= k < |lines| :: '\n' !in lines[k].text
    ensures forall x | x in HeaderLines(lines) :: '\n' !in x && !Contains(x, Banner) && !Contains(x, Separator)
  {
    var f := StartAt(lines);
    if f < |lines| {
      var e := EndAt(lines);
      forall x | x in ContentOnly(lines, f, e)
        ensures '\n' !in x && !Contains(x, Banner) && !Contains(x, Separator)
      {
        ContentOnlyFrom(lines, f, e, x);
        var j :| f <= j < e && Content(lines[j]) && lines[j].text == x;
        assert lines[j] == Classify(lines[j].text);
      }
    }
  }

  /** A stripped line of a file holds no newline: it is a slice of a line of the split. */
  lemma StrippedNoNewline(line: string, family: Family)
    requires '\n' !in line
    ensures '\n' !in StripCommentPrefix(line, family)
  {
    StripIsSlice(line, family);
    SliceLacks(StripCommentPrefix(line, family), line, '\n');
  }

  /** The classified lines of a file are classified by their own texts, which hold no newline. */
  lemma ClassifiedFile(content: string, family: Family)
    ensures WellClassified(Classified(Split(content), family))
    ensures forall k | 0 <= k < |Split(content)| :: '\n' !in Classified(Split(content), family)[k].text
  {
    var lines := Split(content);
    forall k | 0 <= k < |lines|
      ensures '\n' !in Classified(lines, family)[k].text
    {
      StrippedNoNewline(lines[k], family);
    }
  }

  /** No collected line of a file holds a newline, the banner or the separator. */
  lemma FileHeaderClean(content: string, family: Family)
    ensures var header := HeaderLines(Classified(Split(content), family));
      forall k | 0 <= k < |header| ::
        '\n' !in header[k] && !Contains(header[k], Banner) && !Contains(header[k], Separator)
  {
    var lines := Classified(Split(content), family);
    ClassifiedFile(content, family);
    HeaderTextsClean(lines);
    var header := HeaderLines(lines);
    assert forall k | 0 <= k < |header| :: header[k] in header;
  }

  /** The collected lines of a file, joined, split back into themselves. */
  lemma HeaderRoundTrip(content: string, family: Family)
    requires HeaderLines(Classified(Split(content), family)) != []
    ensures Split(Join(HeaderLines(Classified(Split(content), family)))) == HeaderLines(Classified(Split(content), family))
  {
    var header := HeaderLines(Classified(Split(content), family));
    FileHeaderClean(content, family);
    assert forall k | 0 <= k < |header| :: '\n' !in header[k];
    SplitJoin(header);
  }

  /**
   * A header that is found splits back into the collected lines, and none of them holds
   * the banner or the separator.
   */
  lemma ExtractedLines(content: string, family: Family, h: string)
    requires ExtractHeader(content, family) == Some(h)
    ensures Contains(content, Banner)
    ensures Split(h) == HeaderLines(Classified(Split(content), family))
    ensures forall k | 0 <= k < |Split(h)| :: !Contains(Split(h)[k], Banner) && !Contains(Split(h)[k], Separator)
  {
    HeaderRoundTrip(content, family);
    FileHeaderClean(content, family);
  }
}
