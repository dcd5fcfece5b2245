/**
 * `strip_comment_prefix`: removes the comment decoration of the file's family from one
 * source line and returns the text that is left, with no whitespace at either end.
 */
module CommentStrip {
  import opened Strings
  import opened Patterns
  import opened Languages

  /** `\s?` at position `i`: one whitespace character is skipped when there is one. */
  function SkipSpace(s: string, i: nat): (r: string)
    requires i <= |s|
    ensures |r| <= |s|
    ensures r == s[i..] || (i < |s| && IsSpace(s[i]) && r == s[i + 1..])
  {
    if i < |s| && IsSpace(s[i]) then s[i + 1..] else s[i..]
  }

  /**
   * `re.sub(r"^c{min,}\s?", "", s)` for a repeated character `c` (`^#+\s?`, `^--+\s?`,
   * `^\*+\s?`): the whole leading run of `c` and one whitespace after it go, when the
   * run has at least `min` characters; otherwise nothing changes.
   */
  function DropLeadingRun(s: string, c: char, min: nat): (r: string)
    requires min >= 1
    ensures |r| <= |s|
  {
    var n := RunLength(s, 0, Exactly(c));
    if n >= min then SkipSpace(s, n) else s
  }

  /** Length of the longest run of `c` at the end of `s`. */
  function TrailingRun(s: string, c: char): (n: nat)
    ensures n <= |s|
    ensures forall k | |s| - n <= k < |s| :: s[k] == c
    ensures n == |s| || s[|s| - n - 1] != c
    decreases |s|
  {
    if s != [] && s[|s| - 1] == c then 1 + TrailingRun(s[..|s| - 1], c) else 0
  }

  // `re.sub(r"\*+/$", "", s)`: a closing `*/` goes, with every star just before it.
  function DropBlockClose(s: string): (r: string)
    ensures |r| <= |s|
  {
    if EndsWith(s, "*/") then
      var body := s[..|s| - 1];
      var n := TrailingRun(body, '*');
      s[..|body| - n]
    else s
  }

  // `re.sub(r"^/\*+\s?", "", s)`: an opening `/*`, its further stars and one space go.
  function DropBlockOpen(s: string): (r: string)
    ensures |r| <= |s|
  {
    var n := RunLength(s, 1 % (|s| + 1), Exactly('*'));
    if s != [] && s[0] == '/' && n >= 1 then SkipSpace(s, 1 + n) else s
  }

  /** `re.sub(r"^<!--\s?", "", s)`. */
  function DropHtmlOpen(s: string): (r: string)
    ensures |r| <= |s|
  {
    if StartsWith(s, "<!--") then SkipSpace(s, 4) else s
  }

  /**
   * `re.sub(r"\s?-->$", "", s)`: a closing `-->` goes, together with the whitespace
   * character before it when there is one.
   */
  function DropHtmlClose(s: string): (r: string)
    ensures |r| <= |s|
  {
    if EndsWith(s, "-->") then
      var cut := if |s| >= 4 && IsSpace(s[|s| - 4]) then |s| - 4 else |s| - 3;
      s[..cut]
    else s
  }

  /** The decoration removed for each family, applied to an already stripped line. */
  function Undecorate(s: string, family: Family): (r: string)
    ensures |r| <= |s|
  {
    match family
    case Block => DropLeadingRun(DropBlockClose(DropBlockOpen(s)), '*', 1)
    case Hash => DropLeadingRun(s, '#', 1)
    case Dash => DropLeadingRun(s, '-', 2)
    case Html =>
      DropHtmlClose(DropHtmlOpen(s))
  }

  /**
   * `strip_comment_prefix(line, lang_info)`: the result has no whitespace at either end
   * and is never longer than the stripped line.
   */
  function StripCommentPrefix(line: string, family: Family): (r: string)
    ensures NoEdgeSpace(r)
    ensures |r| <= |Trim(line)|
  {
    Trim(Undecorate(Trim(line), family))
  }

  /** `r` is a contiguous slice of `s`. */
  ghost predicate SliceOf(r: string, s: string) {
    exists i | 0 <= i <= |s| - |r| :: SliceAt(r, s, i)
  }

  ghost predicate SliceAt(r: string, s: string, i: nat) {
    i + |r| <= |s| && r == s[i..i + |r|]
  }

  /** A character absent from `s` is absent from every slice of it. */
  lemma SliceLacks(r: string, s: string, c: char)
    requires SliceOf(r, s) && c !in s
    ensures c !in r
  {
    var i :| 0 <= i <= |s| - |r| && SliceAt(r, s, i);
    forall k | 0 <= k < |r|
      ensures r[k] != c
    {
      assert r[k] == s[i + k];
    }
  }

  lemma SliceTrans(a: string, b: string, c: string)
    requires SliceOf(a, b) && SliceOf(b, c)
    ensures SliceOf(a, c)
  {
    var i :| 0 <= i <= |b| - |a| && SliceAt(a, b, i);
    var k :| 0 <= k <= |c| - |b| && SliceAt(b, c, k);
    assert forall m | 0 <= m < |a| :: a[m] == b[i + m] == c[k + i + m];
    assert SliceAt(a, c, k + i);
  }

  lemma TrimSlice(s: string)
    ensures SliceOf(Trim(s), s)
  {
    TrimShape(s);
    assert SliceAt(Trim(s), s, TrimStart(s));
  }

  lemma SkipSpaceSlice(s: string, i: nat)
    requires i <= |s|
    ensures SliceAt(SkipSpace(s, i), s, |s| - |SkipSpace(s, i)|)
  {
  }

  lemma LeadingRunSlice(s: string, c: char, min: nat)
    requires min >= 1
    ensures SliceOf(DropLeadingRun(s, c, min), s)
  {
    var n := RunLength(s, 0, Exactly(c));
    if n >= min {
      SkipSpaceSlice(s, n);
    } else {
      assert SliceAt(s, s, 0);
    }
  }

  lemma BlockOpenSlice(s: string)
    ensures SliceOf(DropBlockOpen(s), s)
  {
    var n := RunLength(s, 1 % (|s| + 1), Exactly('*'));
    if s != [] && s[0] == '/' && n >= 1 {
      SkipSpaceSlice(s, 1 + n);
    } else {
      assert SliceAt(s, s, 0);
    }
  }

  lemma HtmlOpenSlice(s: string)
    ensures SliceOf(DropHtmlOpen(s), s)
  {
    if StartsWith(s, "<!--") {
      SkipSpaceSlice(s, 4);
    } else {
      assert SliceAt(s, s, 0);
    }
  }

  lemma BlockCloseSlice(s: string)
    ensures SliceOf(DropBlockClose(s), s)
  {
    assert SliceAt(DropBlockClose(s), s, 0);
  }

  lemma HtmlCloseSlice(s: string)
    ensures SliceOf(DropHtmlClose(s), s)
  {
    assert SliceAt(DropHtmlClose(s), s, 0);
  }

  lemma UndecorateSlice(s: string, family: Family)
    ensures SliceOf(Undecorate(s, family), s)
  {
    match family {
      case Block =>
        var a := DropBlockOpen(s);
        var b := DropBlockClose(a);
        BlockOpenSlice(s);
        BlockCloseSlice(a);
        LeadingRunSlice(b, '*', 1);
        SliceTrans(b, a, s);
        SliceTrans(Undecorate(s, family), b, s);
      case Hash => LeadingRunSlice(s, '#', 1);
      case Dash => LeadingRunSlice(s, '-', 2);
      case Html =>
        var a := DropHtmlOpen(s);
        HtmlOpenSlice(s);
        HtmlCloseSlice(a);
        SliceTrans(Undecorate(s, family), a, s);
    }
  }

  /** What `strip_comment_prefix` returns is always a contiguous slice of the raw line. */
  lemma StripIsSlice(line: string, family: Family)
    ensures SliceOf(StripCommentPrefix(line, family), line)
  {
    var s := Trim(line);
    var u := Undecorate(s, family);
    TrimSlice(line);
    UndecorateSlice(s, family);
    TrimSlice(u);
    SliceTrans(u, s, line);
    SliceTrans(Trim(u), u, line);
  }

  /** How an annotation writer decorates text `t` as a comment line of each family. */
  function Decorate(family: Family, t: string): string {
    match family
    case Block => " * " + t
    case Hash => "# " + t
    case Dash => "-- " + t
    case Html => "<!-- " + t + " -->"
  }

  // Decorating text and stripping it again gives the text back, provided the text has
  // no whitespace at either end and, in the block family, does not itself end in `*/`.
  lemma StripDecorated(family: Family, t: string)
    requires NoEdgeSpace(t)
    requires family == Block ==> !EndsWith(t, "*/")
    ensures StripCommentPrefix(Decorate(family, t), family) == t
  {
    match family {
      case Block => StripDecoratedBlock(t);
      case Hash => StripDecoratedHash(t);
      case Dash => StripDecoratedDash(t);
      case Html => StripDecoratedHtml(t);
    }
  }

  /** `n` copies of `c`. */
  function Marker(c: char, n: nat): (m: string)
    ensures |m| == n && forall k | 0 <= k < n :: m[k] == c
  {
    seq(n, _ => c)
  }

  /** A marker, then a space and `t` when `t` is not empty. */
  function Spaced(m: string, t: string): string {
    if t == [] then m else m + " " + t
  }

  /** Dropping a leading run of at least `min` copies of `c` from a spaced marker leaves `t`. */
  lemma DropRunDecorated(c: char, n: nat, min: nat, t: string)
    requires 1 <= min <= n && !IsSpace(c)
    ensures DropLeadingRun(Spaced(Marker(c, n), t), c, min) == t
  {
    var s := Spaced(Marker(c, n), t);
    assert forall k | 0 <= k < n :: s[k] == c;
    assert n < |s| ==> s[n] == ' ';
    RunLengthIs(s, 0, Exactly(c), n);
    if t == [] {
      assert SkipSpace(s, n) == [];
    } else {
      assert s[n + 1..] == t;
    }
  }

  /** Stripping `pre`, a marker, a space and `t` leaves the spaced marker. */
  lemma TrimSpaced(pre: string, m: string, t: string)
    requires AllSpace(pre) && m != [] && NoEdgeSpace(m) && NoEdgeSpace(t)
    ensures Trim(pre + m + " " + t) == Spaced(m, t)
  {
    if t == [] {
      assert pre + m + " " + t == pre + m + " ";
      TrimEdges(pre, m, " ");
    } else {
      var core := m + " " + t;
      assert core[0] == m[0] && core[|core| - 1] == t[|t| - 1];
      assert pre + m + " " + t == pre + core + "";
      TrimEdges(pre, core, "");
    }
  }

  lemma StripDecoratedBlock(t: string)
    requires NoEdgeSpace(t) && !EndsWith(t, "*/")
    ensures StripCommentPrefix(Decorate(Block, t), Block) == t
  {
    var m := Marker('*', 1);
    assert m == "*";
    var s := Spaced(m, t);
    assert Decorate(Block, t) == " " + m + " " + t;
    TrimSpaced(" ", m, t);
    BlockOpenKeeps(s);
    StarSpaceNotClosed(t);
    BlockCloseKeeps(s);
    DropRunDecorated('*', 1, 1, t);
    assert Undecorate(s, Block) == t;
    TrimNoEdge(t);
  }

  lemma BlockOpenKeeps(s: string)
    requires s == [] || s[0] != '/'
    ensures DropBlockOpen(s) == s
  {
  }

  lemma BlockCloseKeeps(s: string)
    requires !EndsWith(s, "*/")
    ensures DropBlockClose(s) == s
  {
  }

  lemma StripDecoratedHash(t: string)
    requires NoEdgeSpace(t)
    ensures StripCommentPrefix(Decorate(Hash, t), Hash) == t
  {
    var m := Marker('#', 1);
    assert m == "#";
    assert Decorate(Hash, t) == "" + m + " " + t;
    TrimSpaced("", m, t);
    DropRunDecorated('#', 1, 1, t);
    TrimNoEdge(t);
  }

  lemma StripDecoratedDash(t: string)
    requires NoEdgeSpace(t)
    ensures StripCommentPrefix(Decorate(Dash, t), Dash) == t
  {
    var m := Marker('-', 2);
    assert m == "--";
    assert Decorate(Dash, t) == "" + m + " " + t;
    TrimSpaced("", m, t);
    DropRunDecorated('-', 2, 2, t);
    TrimNoEdge(t);
  }

  lemma StripDecoratedHtml(t: string)
    requires NoEdgeSpace(t)
    ensures StripCommentPrefix(Decorate(Html, t), Html) == t
  {
    var line := Decorate(Html, t);
    assert line == "" + line + "";
    TrimEdges("", line, "");
    HtmlOpenStep(t);
    HtmlCloseStep(t);
    TrimNoEdge(t);
  }

  lemma HtmlOpenStep(t: string)
    ensures DropHtmlOpen("<!-- " + t + " -->") == t + " -->"
  {
    var line := "<!-- " + t + " -->";
    assert line[..4] == "<!--";
    assert line[5..] == t + " -->";
  }

  lemma HtmlCloseStep(t: string)
    ensures DropHtmlClose(t + " -->") == t
  {
    var a := t + " -->";
    assert a[|a| - 3..] == "-->";
    assert a[..|a| - 4] == t;
  }

  /** The stripped text opens or closes with the family's comment marker. */
  predicate Marked(s: string, family: Family) {
    match family
    case Block => StartsWith(s, "/") || StartsWith(s, "*") || EndsWith(s, "*/")
    case Hash => StartsWith(s, "#")
    case Dash => StartsWith(s, "--")
    case Html => StartsWith(s, "<!--") || EndsWith(s, "-->")
  }

  /**
   * A line whose stripped text carries no marker of its family comes back merely
   * stripped; in particular a single leading `-` survives in the dash family.
   */
  lemma StripUnmarked(line: string, family: Family)
    requires !Marked(Trim(line), family)
    ensures StripCommentPrefix(line, family) == Trim(line)
  {
    var s := Trim(line);
    UndecorateUnmarked(s, family);
    TrimNoEdge(s);
  }

  /** An unmarked text goes through the family's removals unchanged. */
  lemma UndecorateUnmarked(s: string, family: Family)
    requires !Marked(s, family)
    ensures Undecorate(s, family) == s
  {
    match family {
      case Block =>
        BlockOpenKeeps(s);
        BlockCloseKeeps(s);
        assert Marker('*', 1) == "*";
        RunKeeps(s, '*', 1);
      case Hash =>
        assert Marker('#', 1) == "#";
        RunKeeps(s, '#', 1);
      case Dash =>
        assert Marker('-', 2) == "--";
        RunKeeps(s, '-', 2);
      case Html =>
        assert DropHtmlOpen(s) == s;
        assert DropHtmlClose(s) == s;
    }
  }

  /** A line that does not start with `min` copies of `c` keeps its leading run. */
  lemma RunKeeps(s: string, c: char, min: nat)
    requires 1 <= min && !StartsWith(s, Marker(c, min))
    ensures DropLeadingRun(s, c, min) == s
  {
  }

  // A spaced star ends in `*/` only when `t` does.
  lemma StarSpaceNotClosed(t: string)
    requires !EndsWith(t, "*/")
    ensures !EndsWith(Spaced("*", t), "*/")
  {
    var s := Spaced("*", t);
    if |t| >= 2 {
      assert s == "* " + t;
      assert s[|s| - 2..] == t[|t| - 2..];
    } else if |t| == 1 {
      assert s == "* " + t;
      assert s[|s| - 2] == ' ';
    } else {
      assert |s| == 1;
    }
  }

  // ---------------------------------------------------------------------------------
  // What each family's removals take off: only an anchored opening decoration and,
  // for the block and markup families, an anchored closing one.
  // ---------------------------------------------------------------------------------

  /** The character the hash and dash families repeat, and how many of it they need. */
  function RunChar(family: Family): char {
    if family == Hash then '#' else '-'
  }

  function RunMin(family: Family): nat {
    if family == Hash then 1 else 2
  }

  /**
   * In the hash and dash families the result is a suffix of the stripped line `s`; when
   * `s` opens with at least the family's minimum run of its marker character, what goes
   * before the result is that whole run followed by whitespace only, and otherwise the
   * result is `s` itself.
   */
  predicate RunStripped(s: string, r: string, c: char, min: nat) {
    var n := RunLength(s, 0, Exactly(c));
    |r| <= |s| && r == s[|s| - |r|..] &&
    if n >= min then n <= |s| - |r| && s[..n] == Marker(c, n) && AllSpace(s[n..|s| - |r|])
    else r == s
  }

  lemma StripRunShape(line: string, family: Family)
    requires family == Hash || family == Dash
    ensures RunStripped(Trim(line), StripCommentPrefix(line, family), RunChar(family), RunMin(family))
  {
    var s := Trim(line);
    assert Undecorate(s, family) == DropLeadingRun(s, RunChar(family), RunMin(family));
    TrimmedRun(s, RunChar(family), RunMin(family));
  }

  lemma TrimmedRun(s: string, c: char, min: nat)
    requires NoEdgeSpace(s) && min >= 1
    ensures RunStripped(s, Trim(DropLeadingRun(s, c, min)), c, min)
  {
    if RunLength(s, 0, Exactly(c)) >= min {
      RunDropped(s, c, min);
    } else {
      RunKept(s, c, min);
    }
  }

  lemma RunDropped(s: string, c: char, min: nat)
    requires NoEdgeSpace(s) && min >= 1 && RunLength(s, 0, Exactly(c)) >= min
    ensures RunStripped(s, Trim(DropLeadingRun(s, c, min)), c, min)
  {
    assert DropLeadingRun(s, c, min) == SkipSpace(s, RunLength(s, 0, Exactly(c)));
    RunCut(s, c, min);
  }

  lemma RunKept(s: string, c: char, min: nat)
    requires NoEdgeSpace(s) && min >= 1 && RunLength(s, 0, Exactly(c)) < min
    ensures RunStripped(s, Trim(DropLeadingRun(s, c, min)), c, min)
  {
    assert DropLeadingRun(s, c, min) == s;
    TrimNoEdge(s);
    assert s[|s| - |s|..] == s;
  }

  /** When the run is long enough, the run and the whitespace after it are what goes. */
  lemma RunCut(s: string, c: char, min: nat)
    requires NoEdgeSpace(s) && RunLength(s, 0, Exactly(c)) >= min
    ensures RunStripped(s, Trim(SkipSpace(s, RunLength(s, 0, Exactly(c)))), c, min)
  {
    var n := RunLength(s, 0, Exactly(c));
    var w := SkipSplit(s, n);
    RunMarker(s, c);
    RunFired(s, c, min, s[..n], w, SkipSpace(s, n));
  }

  /** After the marker run `m` and whitespace `w`, stripping the rest `d` gives the run shape. */
  lemma RunFired(s: string, c: char, min: nat, m: string, w: string, d: string)
    requires NoEdgeSpace(s) && |m| == RunLength(s, 0, Exactly(c)) && |m| >= min
    requires m == Marker(c, |m|) && s == m + w + d && AllSpace(w)
    ensures RunStripped(s, Trim(d), c, min)
  {
    var p3, q3 := TrimSplit(d);
    var r := Trim(d);
    if d != [] {
      SuffixLast(m + w, d, s);
    }
    NoTrailing(d, p3, r, q3);
    SpaceJoin(w, p3);
    RunShapeOf(s, c, min, m, w, p3, r, d);
  }

  /** The leading run of `c` is `c` repeated. */
  lemma RunMarker(s: string, c: char)
    ensures var n := RunLength(s, 0, Exactly(c)); s[..n] == Marker(c, n)
  {
    var n := RunLength(s, 0, Exactly(c));
    var m := s[..n];
    assert forall k | 0 <= k < n :: m[k] == s[k] && InClass(s[k], Exactly(c));
    MarkerOf(m, c);
  }

  /** A string made of `c` alone is the marker of its length. */
  lemma MarkerOf(x: string, c: char)
    requires forall k | 0 <= k < |x| :: x[k] == c
    ensures x == Marker(c, |x|)
  {
  }

  /** A non-empty suffix ends where the whole string does. */
  lemma SuffixLast(x: string, d: string, s: string)
    requires s == x + d && d != []
    ensures d[|d| - 1] == s[|s| - 1]
  {
  }

  /** Trailing whitespace cut from a string that ends in none is empty. */
  lemma NoTrailing(d: string, p: string, r: string, q: string)
    requires d == p + r + q && AllSpace(q) && (d == [] || !IsSpace(d[|d| - 1]))
    ensures q == []
  {
  }

  /** The marker run `m`, whitespace `w + p`, then `r`: the shape a run removal leaves. */
  lemma RunShapeOf(s: string, c: char, min: nat, m: string, w: string, p: string, r: string, d: string)
    requires |m| == RunLength(s, 0, Exactly(c)) && |m| >= min && m == Marker(c, |m|)
    requires s == m + w + d && d == p + r + [] && AllSpace(w + p)
    ensures RunStripped(s, r, c, min)
  {
    assert s == m + (w + p) + r;
    assert s[..|m|] == m && s[|m|..|s| - |r|] == w + p && s[|s| - |r|..] == r;
  }

  /** `w + x` is all whitespace when both parts are. */
  lemma SpaceJoin(w: string, x: string)
    requires AllSpace(w) && AllSpace(x)
    ensures AllSpace(w + x)
  {
    assert forall k | 0 <= k < |w + x| :: (w + x)[k] in w || (w + x)[k] in x;
  }

  /** Only stars and whitespace. */
  predicate StarsAndSpaces(p: string) {
    forall ch | ch in p :: ch == '*' || IsSpace(ch)
  }

  // What the block family may take off the front: a slash and a star and then stars and
  // whitespace, or stars and whitespace alone.
  predicate BlockOpener(p: string) {
    StarsAndSpaces(p) || (|p| >= 2 && p[0] == '/' && p[1] == '*' && StarsAndSpaces(p[2..]))
  }

  // What the block family may take off the end: stars and whitespace, then a star and a
  // slash or nothing.
  predicate BlockCloser(q: string) {
    StarsAndSpaces(q) || (|q| >= 2 && q[|q| - 2] == '*' && q[|q| - 1] == '/' && StarsAndSpaces(q[..|q| - 2]))
  }

  /** What the markup family may take off the front: whitespace, or `<!--` and whitespace. */
  predicate HtmlOpener(p: string) {
    AllSpace(p) || (|p| >= 4 && p[..4] == "<!--" && AllSpace(p[4..]))
  }

  /** What the markup family may take off the end: whitespace, or whitespace and `-->`. */
  predicate HtmlCloser(q: string) {
    AllSpace(q) || (|q| >= 3 && q[|q| - 3..] == "-->" && AllSpace(q[..|q| - 3]))
  }

  /** The result lies in the stripped line between a block opener and a block closer. */
  ghost predicate BlockFramed(s: string, r: string) {
    exists pre, post | BlockOpener(pre) && BlockCloser(post) :: s == pre + r + post
  }

  /** The result lies in the stripped line between a markup opener and a markup closer. */
  ghost predicate HtmlFramed(s: string, r: string) {
    exists pre, post | HtmlOpener(pre) && HtmlCloser(post) :: s == pre + r + post
  }

  lemma StripBlockShape(line: string)
    ensures BlockFramed(Trim(line), StripCommentPrefix(line, Block))
  {
    var s := Trim(line);
    assert StripCommentPrefix(line, Block) == Trim(DropLeadingRun(DropBlockClose(DropBlockOpen(s)), '*', 1));
    BlockSteps(s);
  }

  lemma BlockSteps(s: string)
    ensures BlockFramed(s, Trim(DropLeadingRun(DropBlockClose(DropBlockOpen(s)), '*', 1)))
  {
    var a := DropBlockOpen(s);
    var b := DropBlockClose(a);
    var c := DropLeadingRun(b, '*', 1);
    var p1 := BlockOpenSplit(s);
    var q1 := BlockCloseSplit(a);
    var p2 := StarRunSplit(b);
    var p3, q3 := TrimSplit(c);
    BlockJoin(s, p1, a, b, q1, p2, c, p3, Trim(c), q3);
  }

  /** Four nested block removals, put together again, frame what is left. */
  lemma BlockJoin(s: string, p1: string, a: string, b: string, q1: string, p2: string, c: string,
                  p3: string, r: string, q3: string)
    requires s == p1 + a && a == b + q1 && b == p2 + c && c == p3 + r + q3
    requires BlockOpener(p1) && BlockCloser(q1) && StarsAndSpaces(p2) && AllSpace(p3) && AllSpace(q3)
    ensures BlockFramed(s, r)
  {
    SpaceStars(p3);
    SpaceStars(q3);
    OpenerJoin(p1, p2 + p3);
    CloserJoin(q3, q1);
    assert s == (p1 + (p2 + p3)) + r + (q3 + q1);
  }

  lemma StripHtmlShape(line: string)
    ensures HtmlFramed(Trim(line), StripCommentPrefix(line, Html))
  {
    var s := Trim(line);
    assert StripCommentPrefix(line, Html) == Trim(DropHtmlClose(DropHtmlOpen(s)));
    HtmlSteps(s);
  }

  lemma HtmlSteps(s: string)
    ensures HtmlFramed(s, Trim(DropHtmlClose(DropHtmlOpen(s))))
  {
    var a := DropHtmlOpen(s);
    var b := DropHtmlClose(a);
    var p1 := HtmlOpenSplit(s);
    var q1 := HtmlCloseSplit(a);
    var p3, q3 := TrimSplit(b);
    HtmlJoin(s, p1, a, b, q1, p3, Trim(b), q3);
  }

  /** Two nested markup removals and a strip, put together again, frame what is left. */
  lemma HtmlJoin(s: string, p1: string, a: string, b: string, q1: string, p3: string, r: string, q3: string)
    requires s == p1 + a && a == b + q1 && b == p3 + r + q3
    requires HtmlOpener(p1) && HtmlCloser(q1) && AllSpace(p3) && AllSpace(q3)
    ensures HtmlFramed(s, r)
  {
    HtmlOpenerJoin(p1, p3);
    HtmlCloserJoin(q3, q1);
    assert s == (p1 + p3) + r + (q3 + q1);
  }

  /** `\s?` at `i`: what lies between `i` and the rest is at most one whitespace character. */
  lemma SkipSplit(s: string, i: nat) returns (w: string)
    requires i <= |s|
    ensures |w| <= 1 && AllSpace(w) && s == s[..i] + w + SkipSpace(s, i)
  {
    w := s[i..|s| - |SkipSpace(s, i)|];
  }

  /** `strip` splits `c` into leading whitespace, the result and trailing whitespace. */
  lemma TrimSplit(c: string) returns (p: string, q: string)
    ensures c == p + Trim(c) + q && AllSpace(p) && AllSpace(q)
  {
    TrimShape(c);
    var i := TrimStart(c);
    var j := i + |Trim(c)|;
    p := c[..i];
    q := c[j..];
    ThreeSlices(c, i, j);
  }

  lemma ThreeSlices(c: string, i: nat, j: nat)
    requires i <= j <= |c|
    ensures c == c[..i] + c[i..j] + c[j..]
  {
  }

  lemma SpaceStars(w: string)
    requires AllSpace(w)
    ensures StarsAndSpaces(w)
  {
    forall ch | ch in w
      ensures ch == '*' || IsSpace(ch)
    {
      var k :| 0 <= k < |w| && w[k] == ch;
    }
  }

  /** A run of `c` has no other character in it. */
  lemma RunChars(x: string, c: char)
    requires forall k | 0 <= k < |x| :: x[k] == c
    ensures forall ch | ch in x :: ch == c
  {
  }

  lemma BlockOpenSplit(s: string) returns (p: string)
    ensures s == p + DropBlockOpen(s) && BlockOpener(p)
  {
    if s != [] && s[0] == '/' && RunLength(s, 1, Exactly('*')) >= 1 {
      assert 1 % (|s| + 1) == 1;
      p := SlashStars(s);
    } else {
      assert DropBlockOpen(s) == s;
      p := [];
    }
  }

  /** A slash and its star run, with the whitespace character after them, form a block opener. */
  lemma SlashStars(s: string) returns (p: string)
    requires s != [] && s[0] == '/' && RunLength(s, 1, Exactly('*')) >= 1
    ensures s == p + SkipSpace(s, 1 + RunLength(s, 1, Exactly('*'))) && BlockOpener(p)
  {
    var n := RunLength(s, 1, Exactly('*'));
    var w := SkipSplit(s, 1 + n);
    var stars := s[1..1 + n];
    assert s[..1 + n] == [s[0]] + stars;
    RunChars(stars, '*');
    SpaceStars(w);
    p := SlashOpener(s[0], stars, w);
  }

  /** A slash, a non-empty star run and whitespace form a block opener. */
  lemma SlashOpener(slash: char, stars: string, w: string) returns (p: string)
    requires slash == '/' && stars != [] && (forall ch | ch in stars :: ch == '*') && StarsAndSpaces(w)
    ensures p == [slash] + stars + w && BlockOpener(p)
  {
    p := [slash] + stars + w;
    assert p[1] == stars[0] && stars[0] in stars;
    assert p[2..] == stars[1..] + w;
    assert forall ch | ch in stars[1..] :: ch in stars;
    assert p[0] == '/' && StarsAndSpaces(stars[1..] + w);
  }

  lemma BlockCloseSplit(a: string) returns (q: string)
    ensures a == DropBlockClose(a) + q && BlockCloser(q)
  {
    if EndsWith(a, "*/") {
      var body := a[..|a| - 1];
      var n := TrailingRun(body, '*');
      assert a[|a| - 2..][0] == '*';
      var stars := body[|body| - n..|body| - 1];
      assert forall k | 0 <= k < |stars| :: stars[k] == '*';
      RunChars(stars, '*');
      q := StarCloser(stars, '*', '/');
      assert a == body[..|body| - n] + q;
    } else {
      q := [];
    }
  }

  /** Stars, then a star and a slash, form a block closer. */
  lemma StarCloser(stars: string, star: char, slash: char) returns (q: string)
    requires star == '*' && slash == '/' && StarsAndSpaces(stars)
    ensures q == stars + [star, slash] && BlockCloser(q)
  {
    q := stars + [star, slash];
    assert q[..|q| - 2] == stars;
  }

  // The leading-star removal takes off stars and whitespace only.
  lemma StarRunSplit(b: string) returns (p: string)
    ensures b == p + DropLeadingRun(b, '*', 1) && StarsAndSpaces(p)
  {
    var n := RunLength(b, 0, Exactly('*'));
    if n >= 1 {
      var w := SkipSplit(b, n);
      var stars := b[..n];
      assert forall k | 0 <= k < n :: stars[k] == '*';
      RunChars(stars, '*');
      SpaceStars(w);
      p := stars + w;
    } else {
      p := [];
    }
  }

  lemma HtmlOpenSplit(s: string) returns (p: string)
    ensures s == p + DropHtmlOpen(s) && HtmlOpener(p)
  {
    if StartsWith(s, "<!--") {
      var w := SkipSplit(s, 4);
      p := s[..4] + w;
      assert p[..4] == s[..4] && p[4..] == w;
    } else {
      p := [];
    }
  }

  lemma HtmlCloseSplit(a: string) returns (q: string)
    ensures a == DropHtmlClose(a) + q && HtmlCloser(q)
  {
    if EndsWith(a, "-->") {
      var arrow := a[|a| - 3..];
      if |a| >= 4 && IsSpace(a[|a| - 4]) {
        q := SpacedArrow([a[|a| - 4]], arrow);
        assert a == a[..|a| - 4] + q;
      } else {
        q := SpacedArrow([], arrow);
        assert a == a[..|a| - 3] + q;
      }
    } else {
      q := [];
    }
  }

  /** At most one whitespace character and `-->` form a markup closer. */
  lemma SpacedArrow(w: string, arrow: string) returns (q: string)
    requires AllSpace(w) && arrow == "-->"
    ensures q == w + arrow && HtmlCloser(q)
  {
    q := w + arrow;
    assert q[|q| - 3..] == arrow && q[..|q| - 3] == w;
  }

  lemma OpenerJoin(p: string, x: string)
    requires BlockOpener(p) && StarsAndSpaces(x)
    ensures BlockOpener(p + x)
  {
    if !StarsAndSpaces(p) {
      assert (p + x)[2..] == p[2..] + x;
    }
  }

  lemma CloserJoin(y: string, q: string)
    requires StarsAndSpaces(y) && BlockCloser(q)
    ensures BlockCloser(y + q)
  {
    if !StarsAndSpaces(q) {
      var yq := y + q;
      assert yq[..|yq| - 2] == y + q[..|q| - 2];
    }
  }

  lemma HtmlOpenerJoin(p: string, x: string)
    requires HtmlOpener(p) && AllSpace(x)
    ensures HtmlOpener(p + x)
  {
    if AllSpace(p) {
      SpaceJoin(p, x);
    } else {
      assert (p + x)[..4] == p[..4];
      assert (p + x)[4..] == p[4..] + x;
      SpaceJoin(p[4..], x);
    }
  }

  lemma HtmlCloserJoin(y: string, q: string)
    requires AllSpace(y) && HtmlCloser(q)
    ensures HtmlCloser(y + q)
  {
    if AllSpace(q) {
      SpaceJoin(y, q);
    } else {
      var yq := y + q;
      assert yq[|yq| - 3..] == q[|q| - 3..];
      assert yq[..|yq| - 3] == y + q[..|q| - 3];
      SpaceJoin(y, q[..|q| - 3]);
    }
  }

  /** Stripping whitespace around a string with no edge whitespace of its own. */
  lemma TrimEdges(pre: string, s: string, post: string)
    requires AllSpace(pre) && AllSpace(post) && NoEdgeSpace(s) && s != []
    ensures Trim(pre + s + post) == s
  {
    var whole := pre + s + post;
    var rest := s + post;
    assert whole == pre + rest;
    assert rest[0] == s[0];
    LStripShape(pre, rest);
    RStripShape(s, post);
    assert Trim(whole) == RStrip(LStrip(whole));
  }

  lemma {:induction false} LStripShape(pre: string, rest: string)
    requires AllSpace(pre) && (rest == [] || !IsSpace(rest[0]))
    ensures LStrip(pre + rest) == rest
    decreases |pre|
  {
    if pre != [] {
      assert (pre + rest)[1..] == pre[1..] + rest;
      LStripShape(pre[1..], rest);
    } else {
      assert pre + rest == rest;
    }
  }

  lemma {:induction false} RStripShape(s: string, post: string)
    requires AllSpace(post) && (s == [] || !IsSpace(s[|s| - 1]))
    ensures RStrip(s + post) == s
    decreases |post|
  {
    if post != [] {
      assert (s + post)[..|s + post| - 1] == s + post[..|post| - 1];
      RStripShape(s, post[..|post| - 1]);
    } else {
      assert s + post == s;
    }
  }
}
