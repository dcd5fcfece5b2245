/**
 * The round trip between writing an annotation header into a file and reading it back:
 * a header written the way the annotation format lays it out (banner line, separator,
 * TYPE line, the METHOD, STRUCT and TRAIT sections with one `-` line per entry, closing
 * separator), every line decorated as a comment of the file's family, is found again by
 * `extract_header_block`, and `parse_header` gives back the type and the three lists.
 */
module RoundTrip {
  import opened Wrappers
  import opened Strings
  import opened Languages
  import opened CommentStrip
  import opened HeaderExtractor
  import opened HeaderParser
  import opened Patterns

  /** What an annotation records about a file: its TYPE, if any, and its three item lists. */
  datatype Annotation = Annotation(
    kind: Option<CoverageType>,
    methods: seq<Entry>,
    structs: seq<Entry>,
    traits: seq<Entry>)

  /** Every item name is one the `(\w+)` group of the entry patterns captures whole. */
  predicate WellNamed(a: Annotation) {
    (forall e | e in a.methods :: WordName(e.name))
    && (forall e | e in a.structs :: WordName(e.name))
    && (forall e | e in a.traits :: WordName(e.name))
  }

  // ---------------------------------------------------------------------------------
  // Writing a header
  // ---------------------------------------------------------------------------------

  function DigitChar(d: nat): (c: char)
    requires d < 10
    ensures IsDigit(c) && c as int - '0' as int == d
  {
    ('0' as int + d) as char
  }

  /** The decimal digits of `n`, most significant first: `int` reads them back as `n`. */
  function Decimal(n: nat): (r: string)
    ensures DigitRun(r) && DecimalValue(r) == n
    decreases n
  {
    if n < 10 then
      var r := [DigitChar(n)];
      assert r[..0] == [];
      r
    else
      var h := Decimal(n / 10);
      var r := h + [DigitChar(n % 10)];
      assert r[..|r| - 1] == h;
      r
  }

  /** The quote written around an item name. */
  const Quote := "`"

  /** The two bounds of a partial entry, `<start>~<end>`. */
  function Bounds(a: nat, b: nat): string {
    Decimal(a) + "~" + Decimal(b)
  }

  function WholeHead(kind: string): string {
    "WHOLE CODE IN THE " + kind + " "
  }

  function PartialHead(kind: string): string {
    " LINE CODE IN THE " + kind + " "
  }

  /** What an entry text says before the item name. */
  function EntryPrefix(kind: string, c: Coverage): string {
    match c
    case Whole => WholeHead(kind)
    case Partial(a, b) => Bounds(a, b) + PartialHead(kind)
  }

  /** The item name between quotes. */
  function Quoted(name: string): string {
    Quote + name + Quote
  }

  /** The text of an entry line after its dash, for the given kind word. */
  function Phrase(kind: string, e: Entry): string {
    EntryPrefix(kind, e.coverage) + Quoted(e.name)
  }

  /** The `-` line of an entry of a section. */
  function ItemLine(section: Section, e: Entry): string
    requires section != Libraries
  {
    "- " + Phrase(KindWord(section), e)
  }

  /** The `-` lines of a section's entries, in order. */
  function ItemLines(section: Section, es: seq<Entry>): (r: seq<string>)
    requires section != Libraries
    ensures |r| == |es| && forall k | 0 <= k < |es| :: r[k] == ItemLine(section, es[k])
  {
    seq(|es|, k requires 0 <= k < |es| => ItemLine(section, es[k]))
  }

  /** A section: its keyword line, then its entry lines. */
  function SectionBlock(section: Section, es: seq<Entry>): seq<string>
    requires section != Libraries
  {
    [KindWord(section)] + ItemLines(section, es)
  }

  /** The TYPE line, when the annotation has a type. */
  function TypeLines(kind: Option<CoverageType>): seq<string> {
    match kind
    case None => []
    case Some(t) => [TypeLine(t)]
  }

  /** The lines between the two separators. */
  function Body(a: Annotation): seq<string> {
    TypeLines(a.kind) + SectionBlock(Methods, a.methods) + SectionBlock(Structs, a.structs)
    + SectionBlock(Traits, a.traits)
  }

  /** The header's lines before decoration: banner, separator, body, separator. */
  function Texts(a: Annotation): seq<string> {
    [Banner, Separator] + Body(a) + [Separator]
  }

  /** Every line decorated as a comment of the family. */
  function Decorated(family: Family, lines: seq<string>): (r: seq<string>)
    ensures |r| == |lines| && forall k | 0 <= k < |lines| :: r[k] == Decorate(family, lines[k])
  {
    seq(|lines|, k requires 0 <= k < |lines| => Decorate(family, lines[k]))
  }

  /** The text of a file that holds nothing but the annotation header. */
  function Synthesize(a: Annotation, family: Family): string {
    Join(Decorated(family, Texts(a)))
  }

  // ---------------------------------------------------------------------------------
  // The characters of the pieces
  // ---------------------------------------------------------------------------------

  lemma NameChars(name: string)
    requires WordName(name)
    ensures forall c | c in name :: IsWordChar(c)
  {
    forall c | c in name ensures IsWordChar(c) {
      var k :| 0 <= k < |name| && name[k] == c;
    }
  }

  lemma DigitChars(d: string)
    requires DigitRun(d)
    ensures forall c | c in d :: IsDigit(c)
  {
    forall c | c in d ensures IsDigit(c) {
      var k :| 0 <= k < |d| && d[k] == c;
    }
  }

  /** The kind words are short plain upper-case words. */
  lemma KindWordShape(section: Section)
    requires section != Libraries
    ensures var w := KindWord(section);
      w != [] && |w| <= 6 && !IsSpace(w[0]) && forall c | c in w :: 'A' <= c <= 'Z' && c != 'W'
  {
  }

  /** A quoted name: no whitespace anywhere, and it ends with the quote. */
  lemma QuotedShape(name: string)
    requires WordName(name)
    ensures var z := Quoted(name);
      && QuoteMark(Quote) && z[|z| - 1] == '`'
      && (forall k | 0 <= k < |z| :: !IsSpace(z[k]))
      && forall c | c in z :: c == '`' || IsWordChar(c)
  {
    var z := Quoted(name);
    NameChars(name);
    forall k | 0 <= k < |z| ensures !IsSpace(z[k]) {
      assert z[k] in z;
    }
  }

  /** The characters before the name: word characters, spaces and the tilde. */
  lemma HeadChars(section: Section, c: Coverage)
    requires section != Libraries
    ensures forall ch | ch in EntryPrefix(KindWord(section), c) :: ch == ' ' || ch == '~' || IsWordChar(ch)
  {
    KindWordShape(section);
    if c.Partial? {
      DigitChars(Decimal(c.start));
      DigitChars(Decimal(c.end));
    }
  }

  // ---------------------------------------------------------------------------------
  // One entry line
  // ---------------------------------------------------------------------------------

  /** The text of a partial entry line: the WHOLE pattern is found nowhere in it. */
  lemma PartialPhraseYields(section: Section, e: Entry)
    requires section != Libraries && WordName(e.name) && e.coverage.Partial?
    ensures var s := Phrase(KindWord(section), e);
      s != [] && s[0] != '-' && NoEdgeSpace(s) && '\n' !in s && EntryOf(KindWord(section), s) == Some(e)
  {
    var kind := KindWord(section);
    KindWordShape(section);
    QuotedShape(e.name);
    var s := Phrase(kind, e);
    var d1, d2 := Decimal(e.coverage.start), Decimal(e.coverage.end);
    var h := EntryPrefix(kind, e.coverage);
    var z := Quoted(e.name);
    HeadChars(section, e.coverage);
    WholeNowhere(s, h, z, kind);
    var pre := d1 + "~" + d2 + " LINE CODE IN THE " + kind + " ";
    assert h == pre;
    assert s == pre + Quote + e.name + Quote;
    PartialKindText(s, d1, d2, kind, Quote, e.name);
  }

  /** The text of an entry line is an entry text that yields the entry it was written from. */
  lemma PhraseYields(section: Section, e: Entry)
    requires section != Libraries && WordName(e.name)
    ensures var s := Phrase(KindWord(section), e);
      s != [] && s[0] != '-' && NoEdgeSpace(s) && '\n' !in s && EntryOf(KindWord(section), s) == Some(e)
  {
    if e.coverage.Whole? {
      KindWordShape(section);
      QuotedShape(e.name);
      assert WholeHead(KindWord(section)) + (Quote + e.name + Quote) == WholeHead(KindWord(section)) + Quote + e.name + Quote;
      WholeKindText(Phrase(KindWord(section), e), KindWord(section), Quote, e.name);
    } else {
      PartialPhraseYields(section, e);
    }
  }

  /** In its section, an entry line appends exactly the entry it was written from. */
  lemma ItemParses(st: ParseState, section: Section, e: Entry)
    requires section != Libraries && st.section == Some(section) && WordName(e.name)
    ensures '\n' !in ItemLine(section, e) && ParseLine(st, ItemLine(section, e)) == Appended(st, section, e)
  {
    PhraseYields(section, e);
    KindLineAdds(st, section, Phrase(KindWord(section), e), ItemLine(section, e), e);
  }

  // ---------------------------------------------------------------------------------
  // Lines the extractor keeps as they are
  // ---------------------------------------------------------------------------------

  /**
   * A body line that survives decoration and stripping unchanged, and that the extractor
   * classifies as content: no whitespace at its ends, not ending in `/` (so not in the
   * block closer), no newline, no `=` (so no separator) and no banner.
   */
  predicate Clean(t: string) {
    t != [] && NoEdgeSpace(t) && t[|t| - 1] != '/' && '\n' !in t && '=' !in t && !Contains(t, Banner)
  }

  /** A text shorter than the banner does not contain it. */
  lemma ShortNoBanner(t: string)
    requires |t| < |Banner|
    ensures !Contains(t, Banner)
  {
    ContainsAt(t, Banner);
  }

  /**
   * The banner starts with `T` and has a space 31 characters on: it cannot start in a
   * part without `T`, and cannot reach a part without spaces from at most 31 characters
   * before it.
   */
  lemma BannerAbsent(x: string, y: string, z: string)
    requires 'T' !in x && |y| <= 31 && ' ' !in z
    ensures !Contains(x + y + z, Banner)
  {
    var s := x + y + z;
    assert |Banner| == 36 && Banner[0] == 'T' && Banner[31] == ' ';
    forall i | 0 <= i <= |s|
      ensures !StartsWith(s[i..], Banner)
    {
      if i + |Banner| <= |s| {
        if i < |x| {
          assert s[i] == x[i] && x[i] in x;
          assert s[i..][..|Banner|][0] != Banner[0];
        } else {
          assert s[i + 31] == z[i + 31 - |x| - |y|] && z[i + 31 - |x| - |y|] in z;
          assert s[i..][..|Banner|][31] != Banner[31];
        }
      }
    }
    ContainsAt(s, Banner);
  }

  /** No entry line holds the banner. */
  lemma ItemNoBanner(section: Section, e: Entry)
    requires section != Libraries && WordName(e.name)
    ensures !Contains(ItemLine(section, e), Banner)
  {
    var kind := KindWord(section);
    KindWordShape(section);
    QuotedShape(e.name);
    var z := Quoted(e.name);
    match e.coverage {
      case Whole =>
        assert "- " + (WholeHead(kind) + z) == "- " + WholeHead(kind) + z;
        BannerAbsent("- ", WholeHead(kind), z);
      case Partial(a, b) =>
        DigitChars(Decimal(a));
        DigitChars(Decimal(b));
        assert "- " + ((Bounds(a, b) + PartialHead(kind)) + z) == "- " + Bounds(a, b) + PartialHead(kind) + z;
        BannerAbsent("- " + Bounds(a, b), PartialHead(kind), z);
    }
  }

  /** An entry line holds no newline, `=` or colon. */
  lemma ItemChars(section: Section, e: Entry)
    requires section != Libraries && WordName(e.name)
    ensures var line := ItemLine(section, e);
      '\n' !in line && '=' !in line && ':' !in line
  {
    HeadChars(section, e.coverage);
    QuotedShape(e.name);
  }

  /** An entry line starts with its dash and ends with the closing quote. */
  lemma ItemEnds(section: Section, e: Entry)
    requires section != Libraries
    ensures var line := ItemLine(section, e);
      line != [] && line[0] == '-' && line[|line| - 1] == '`'
  {
    var z := Quoted(e.name);
    var line := ItemLine(section, e);
    assert z[|z| - 1] == '`';
    assert line[|line| - 1] == z[|z| - 1];
  }

  /** An entry line is clean, and holds no colon. */
  lemma ItemClean(section: Section, e: Entry)
    requires section != Libraries && WordName(e.name)
    ensures Clean(ItemLine(section, e)) && ':' !in ItemLine(section, e)
  {
    ItemChars(section, e);
    ItemEnds(section, e);
    ItemNoBanner(section, e);
  }

  /** The section keyword lines are clean and hold no colon. */
  lemma WordClean(section: Section)
    requires section != Libraries
    ensures Clean(KindWord(section)) && ':' !in KindWord(section)
  {
    KindWordShape(section);
    ShortNoBanner(KindWord(section));
  }

  /** The TYPE lines are clean. */
  lemma TypeLineClean(t: CoverageType)
    ensures Clean(TypeLine(t))
  {
    var w := TypeWords(t);
    assert '\n' !in w && '=' !in w && |w| <= 10;
    FixedLineClean("TYPE: ", w, " IN THIS FILE");
  }

  /** A short line of fixed words around a middle part is clean. */
  lemma FixedLineClean(lead: string, w: string, tail: string)
    requires lead == "TYPE: " && tail == " IN THIS FILE"
    requires '\n' !in w && '=' !in w && |w| <= 10
    ensures Clean(lead + w + tail)
  {
    var line := lead + w + tail;
    assert line[0] == lead[0] && line[|line| - 1] == tail[|tail| - 1];
    ShortNoBanner(line);
  }

  /** A section's lines are clean and hold no colon. */
  lemma SectionClean(section: Section, es: seq<Entry>)
    requires section != Libraries && forall e | e in es :: WordName(e.name)
    ensures forall t | t in SectionBlock(section, es) :: Clean(t) && ':' !in t
  {
    forall t | t in SectionBlock(section, es)
      ensures Clean(t) && ':' !in t
    {
      if t == KindWord(section) {
        WordClean(section);
      } else {
        var k :| 0 <= k < |es| && ItemLines(section, es)[k] == t;
        assert es[k] in es;
        ItemClean(section, es[k]);
      }
    }
  }

  /** Every body line is clean; without a TYPE line, no body line holds a colon. */
  lemma BodyClean(a: Annotation)
    requires WellNamed(a)
    ensures forall t | t in Body(a) :: Clean(t)
    ensures a.kind == None ==> forall t | t in Body(a) :: ':' !in t
  {
    SectionClean(Methods, a.methods);
    SectionClean(Structs, a.structs);
    SectionClean(Traits, a.traits);
    if a.kind.Some? {
      TypeLineClean(a.kind.value);
    }
  }

  // ---------------------------------------------------------------------------------
  // Extraction
  // ---------------------------------------------------------------------------------

  /** A text that ends in something other than `/` does not end with the block closer. */
  lemma NotClosed(t: string)
    requires t != [] && t[|t| - 1] != '/'
    ensures !EndsWith(t, "*/")
  {
    assert |t| >= 2 ==> t[|t| - 2..][1] == t[|t| - 1];
  }

  /** Decorating a text adds no newline. */
  lemma DecorateNoNewline(family: Family, t: string)
    requires '\n' !in t
    ensures '\n' !in Decorate(family, t)
  {
  }

  /** A text that starts with `pre`, `t` and `post` contains `t`. */
  lemma ContainsInside(s: string, pre: string, t: string, post: string)
    requires StartsWith(s, pre + t + post)
    ensures Contains(s, t)
  {
    var u := pre + t + post;
    assert s[|pre|..][..|t|] == u[|pre|..|pre| + |t|] == t;
    ContainsAt(s, t);
  }

  /** A text that starts with a decorated `t` contains `t`. */
  lemma DecoratedContains(s: string, family: Family, t: string)
    requires StartsWith(s, Decorate(family, t))
    ensures Contains(s, t)
  {
    match family {
      case Block =>
        assert " * " + t == " * " + t + "";
        ContainsInside(s, " * ", t, "");
      case Hash =>
        assert "# " + t == "# " + t + "";
        ContainsInside(s, "# ", t, "");
      case Dash =>
        assert "-- " + t == "-- " + t + "";
        ContainsInside(s, "-- ", t, "");
      case Html =>
        ContainsInside(s, "<!-- ", t, " -->");
    }
  }

  /** The joined lines start with the first line. */
  lemma JoinStartsWith(lines: seq<string>)
    requires |lines| >= 1
    ensures StartsWith(Join(lines), lines[0])
  {
    if |lines| > 1 {
      var s := Join(lines);
      assert s == lines[0] + ("\n" + Join(lines[1..]));
      assert s[..|lines[0]|] == lines[0];
    }
  }

  /** A text with no newline and no whitespace at its ends that does not end in `/`. */
  predicate Plain(t: string) {
    t != [] && NoEdgeSpace(t) && t[|t| - 1] != '/' && '\n' !in t
  }

  lemma MarkersPlain()
    ensures Plain(Banner) && Plain(Separator)
  {
    assert Banner[0] == 'T' && Banner[|Banner| - 1] == 'E' && '\n' !in Banner;
    assert Separator[0] == '=' && Separator[|Separator| - 1] == '=' && '\n' !in Separator;
  }

  /** A plain text comes back from decoration and stripping unchanged. */
  lemma PlainStrips(family: Family, t: string)
    requires Plain(t)
    ensures StripCommentPrefix(Decorate(family, t), family) == t
  {
    NotClosed(t);
    StripDecorated(family, t);
  }

  /** Every text of the header comes back from decoration and stripping unchanged. */
  lemma TextsStrip(a: Annotation, family: Family)
    requires WellNamed(a)
    ensures forall t | t in Texts(a) ::
      '\n' !in t && StripCommentPrefix(Decorate(family, t), family) == t
  {
    BodyClean(a);
    MarkersPlain();
    forall t | t in Texts(a)
      ensures '\n' !in t && StripCommentPrefix(Decorate(family, t), family) == t
    {
      assert t == Banner || t == Separator || t in Body(a);
      assert Plain(t);
      PlainStrips(family, t);
    }
  }

  /**
   * The lines of the written file, stripped and classified, are the header's texts,
   * each classified by itself.
   */
  lemma FileClassified(a: Annotation, family: Family)
    requires WellNamed(a)
    ensures var cl := Classified(Split(Synthesize(a, family)), family);
      |cl| == |Texts(a)| && forall k | 0 <= k < |cl| :: cl[k] == Classify(Texts(a)[k])
  {
    var ts := Texts(a);
    var lines := Decorated(family, ts);
    TextsStrip(a, family);
    forall k | 0 <= k < |lines| ensures '\n' !in lines[k] {
      assert ts[k] in ts;
      DecorateNoNewline(family, ts[k]);
    }
    SplitJoin(lines);
    var cl := Classified(lines, family);
    forall k | 0 <= k < |cl| ensures cl[k] == Classify(ts[k]) {
      assert ts[k] in ts;
    }
  }

  /** Lines that are all content are collected whole. */
  lemma {:induction false} AllContent(ls: seq<Line>, ts: seq<string>)
    requires |ls| == |ts| && forall k | 0 <= k < |ls| :: Content(ls[k]) && ls[k].text == ts[k]
    ensures ContentTexts(ls) == ts
    decreases |ls|
  {
    if ls != [] {
      AllContent(ls[1..], ts[1..]);
      assert ts == [ts[0]] + ts[1..];
    }
  }

  /** A clean line is classified as content. */
  lemma CleanIsContent(t: string)
    requires Clean(t)
    ensures Content(Classify(t))
  {
    NotContains(t, Separator, 0);
  }

  /**
   * Classified lines that open with a non-separator line and a separator, close with a
   * closing separator, and hold only content in between: the header is that content.
   */
  lemma HeaderOfTexts(cl: seq<Line>, body: seq<string>)
    requires |cl| == |body| + 3 && |body| >= 1
    requires !cl[0].separator && cl[1].separator && Closing(cl[|cl| - 1])
    requires forall k | 2 <= k < |cl| - 1 :: Content(cl[k]) && cl[k].text == body[k - 2]
    ensures HeaderLines(cl) == body
  {
    var n := |cl|;
    HeaderAt(cl, 1, 2, n - 1);
    AllContent(cl[2..n - 1], body);
  }

  /** The banner line is no separator; the separator line is a closing line. */
  lemma MarkerLines()
    ensures !Classify(Banner).separator && Classify(Separator).separator && Closing(Classify(Separator))
  {
    BannerNoSeparator();
    assert StartsWith(Separator, Separator);
    ShortNoBanner(Separator);
  }

  lemma BannerNoSeparator()
    ensures !Contains(Banner, Separator)
  {
    assert Separator[0] == '=' && '=' !in Banner;
    NotContains(Banner, Separator, 0);
  }

  /** Where the lines of a framed body stand. */
  lemma Framed(x: string, y: string, body: seq<string>)
    ensures var ts := [x, y] + body + [y];
      |ts| == |body| + 3 && ts[0] == x && ts[1] == y && ts[|ts| - 1] == y
      && forall k | 2 <= k < |ts| - 1 :: ts[k] == body[k - 2]
  {
  }

  /**
   * Classified lines of a body framed by an opening line that is no separator, a
   * separator and a closing line: when every body line is content, the header is the body.
   */
  lemma FramedHeader(cl: seq<Line>, x: string, y: string, body: seq<string>)
    requires |body| >= 1 && forall t | t in body :: Content(Classify(t))
    requires !Classify(x).separator && Classify(y).separator && Closing(Classify(y))
    requires var ts := [x, y] + body + [y];
      |cl| == |ts| && forall k | 0 <= k < |cl| :: cl[k] == Classify(ts[k])
    ensures HeaderLines(cl) == body
  {
    Framed(x, y, body);
    forall k | 2 <= k < |cl| - 1
      ensures Content(cl[k]) && cl[k].text == body[k - 2]
    {
      assert body[k - 2] in body;
    }
    HeaderOfTexts(cl, body);
  }

  /** The body lines are content lines. */
  lemma BodyContent(a: Annotation)
    requires WellNamed(a)
    ensures forall t | t in Body(a) :: Content(Classify(t))
  {
    BodyClean(a);
    forall t | t in Body(a) ensures Content(Classify(t)) {
      CleanIsContent(t);
    }
  }

  /** The header collected from the written file is the body. */
  lemma FileHeader(a: Annotation, family: Family)
    requires WellNamed(a)
    ensures HeaderLines(Classified(Split(Synthesize(a, family)), family)) == Body(a)
  {
    FileClassified(a, family);
    BodyContent(a);
    MarkerLines();
    assert KindWord(Methods) in Body(a);
    FramedHeader(Classified(Split(Synthesize(a, family)), family), Banner, Separator, Body(a));
  }

  /** The written file holds the banner. */
  lemma FileHasBanner(a: Annotation, family: Family)
    ensures Contains(Synthesize(a, family), Banner)
  {
    var lines := Decorated(family, Texts(a));
    JoinStartsWith(lines);
    DecoratedContains(Synthesize(a, family), family, Banner);
  }

  /** The extractor finds the written header, and its text is the body. */
  lemma Extracted(a: Annotation, family: Family)
    requires WellNamed(a)
    ensures ExtractHeader(Synthesize(a, family), family) == Some(Join(Body(a)))
  {
    FileHasBanner(a, family);
    FileHeader(a, family);
    assert KindWord(Methods) in Body(a);
  }

  // ---------------------------------------------------------------------------------
  // Parsing
  // ---------------------------------------------------------------------------------

  /** The loop state after `lines`, taken in order from `st`. */
  function ParseFrom(st: ParseState, lines: seq<string>): ParseState
    requires NoNewlines(lines)
    decreases |lines|
  {
    if lines == [] then st
    else
      NoNewlinesTake(lines, |lines| - 1);
      ParseLine(ParseFrom(st, lines[..|lines| - 1]), lines[|lines| - 1])
  }

  lemma {:induction false} ParseLinesFrom(lines: seq<string>)
    requires NoNewlines(lines)
    ensures ParseLines(lines) == ParseFrom(Start, lines)
    decreases |lines|
  {
    if lines != [] {
      NoNewlinesTake(lines, |lines| - 1);
      ParseLinesFrom(lines[..|lines| - 1]);
    }
  }

  /** Parsing two runs of lines is parsing the first, then the second from where it left off. */
  lemma {:induction false} ParseFromAppend(st: ParseState, a: seq<string>, b: seq<string>)
    requires NoNewlines(a) && NoNewlines(b)
    ensures NoNewlines(a + b) && ParseFrom(st, a + b) == ParseFrom(ParseFrom(st, a), b)
    decreases |b|
  {
    NoNewlinesAppend(a, b);
    if b == [] {
      assert a + b == a;
    } else {
      var front, ab := b[..|b| - 1], a + b;
      NoNewlinesTake(b, |b| - 1);
      ParseFromAppend(st, a, front);
      assert ab[..|ab| - 1] == a + front && ab[|ab| - 1] == b[|b| - 1];
      ParseFromLast(st, ab);
      ParseFromLast(ParseFrom(st, a), b);
    }
  }

  /** Parsing a non-empty run of lines ends with parsing its last line. */
  lemma ParseFromLast(st: ParseState, lines: seq<string>)
    requires NoNewlines(lines) && lines != []
    ensures NoNewlines(lines[..|lines| - 1]) && '\n' !in lines[|lines| - 1]
    ensures ParseFrom(st, lines) == ParseLine(ParseFrom(st, lines[..|lines| - 1]), lines[|lines| - 1])
  {
    NoNewlinesTake(lines, |lines| - 1);
  }

  lemma NoNewlinesAppend(a: seq<string>, b: seq<string>)
    requires NoNewlines(a) && NoNewlines(b)
    ensures NoNewlines(a + b)
  {
    assert forall k | 0 <= k < |a + b| :: (a + b)[k] in a || (a + b)[k] in b;
  }

  /** A section keyword line switches to its section and changes nothing else. */
  lemma WordSets(st: ParseState, section: Section)
    requires section != Libraries
    ensures ParseFrom(st, [KindWord(section)]) == st.(section := Some(section))
  {
    var w := KindWord(section);
    assert [w][..0] == ItemLines(section, []);
    KindWordShape(section);
    TrimNoEdge(w);
    match section {
      case Methods => MethodSectionLines(""); assert "METHOD" + "" == "METHOD";
      case Structs => StructSectionLines(""); assert "STRUCT" + "" == "STRUCT";
      case Traits => TraitSectionLines(""); assert "TRAIT" + "" == "TRAIT";
    }
  }

  /** The state with the entries `es` appended to the list of `section`. */
  function Extended(st: ParseState, section: Section, es: seq<Entry>): ParseState
    requires section != Libraries
  {
    match section
    case Methods => st.(methods := st.methods + es)
    case Structs => st.(structs := st.structs + es)
    case Traits => st.(traits := st.traits + es)
  }

  /** Lines each of which, in the section, appends its own entry, append all of them in order. */
  lemma {:induction false} AppendsAll(st: ParseState, section: Section, es: seq<Entry>, lines: seq<string>)
    requires section != Libraries && st.section == Some(section)
    requires |lines| == |es| && NoNewlines(lines)
    requires forall k, s: ParseState | 0 <= k < |lines| && s.section == Some(section) ::
      ParseLine(s, lines[k]) == Appended(s, section, es[k])
    ensures ParseFrom(st, lines) == Extended(st, section, es)
    decreases |es|
  {
    if es == [] {
      assert st.methods + es == st.methods && st.structs + es == st.structs && st.traits + es == st.traits;
    } else {
      var n := |es| - 1;
      NoNewlinesTake(lines, n);
      AppendsAll(st, section, es[..n], lines[..n]);
      var prev := Extended(st, section, es[..n]);
      assert ParseFrom(st, lines) == ParseLine(prev, lines[n]);
      ExtendedStep(st, section, es);
    }
  }

  /** Appending the last entry to the state extended by the others extends it by all. */
  lemma ExtendedStep(st: ParseState, section: Section, es: seq<Entry>)
    requires section != Libraries && |es| >= 1
    ensures var prev := Extended(st, section, es[..|es| - 1]);
      prev.section == st.section && Appended(prev, section, es[|es| - 1]) == Extended(st, section, es)
  {
    var n := |es| - 1;
    assert es[..n] + [es[n]] == es;
    assert st.methods + es[..n] + [es[n]] == st.methods + es;
    assert st.structs + es[..n] + [es[n]] == st.structs + es;
    assert st.traits + es[..n] + [es[n]] == st.traits + es;
  }

  /** In their section, the entry lines append exactly their entries, in order. */
  lemma ItemsParse(st: ParseState, section: Section, es: seq<Entry>)
    requires section != Libraries && st.section == Some(section)
    requires forall e | e in es :: WordName(e.name)
    ensures NoNewlines(ItemLines(section, es))
    ensures ParseFrom(st, ItemLines(section, es)) == Extended(st, section, es)
  {
    var lines := ItemLines(section, es);
    forall k | 0 <= k < |lines| ensures '\n' !in lines[k] {
      assert es[k] in es;
      ItemChars(section, es[k]);
    }
    forall k, s: ParseState | 0 <= k < |lines| && s.section == Some(section)
      ensures ParseLine(s, lines[k]) == Appended(s, section, es[k])
    {
      assert es[k] in es;
      ItemParses(s, section, es[k]);
    }
    AppendsAll(st, section, es, lines);
  }

  /** A section's lines switch to it and append its entries, in order. */
  lemma SectionParses(st: ParseState, section: Section, es: seq<Entry>)
    requires section != Libraries && forall e | e in es :: WordName(e.name)
    ensures NoNewlines(SectionBlock(section, es))
    ensures ParseFrom(st, SectionBlock(section, es)) == Extended(st.(section := Some(section)), section, es)
  {
    KindWordShape(section);
    WordSets(st, section);
    ItemsParse(st.(section := Some(section)), section, es);
    ParseFromAppend(st, [KindWord(section)], ItemLines(section, es));
  }

  /** A stripped line starting with `TY` is neither a section line nor an entry line. */
  lemma InertLine(st: ParseState, line: string)
    requires |line| >= 2 && line[0] == 'T' && line[1] == 'Y' && NoEdgeSpace(line) && '\n' !in line
    ensures ParseLine(st, line) == st
  {
    TrimNoEdge(line);
    TyNeither(line);
  }

  lemma TyNeither(line: string)
    requires |line| >= 2 && line[0] == 'T' && line[1] == 'Y'
    ensures SectionOf(line) == None && !StartsWith(line, "-")
  {
    FirstCharDiffers(line, "METHOD");
    FirstCharDiffers(line, "FUNCTION");
    FirstCharDiffers(line, "STRUCT");
    FirstCharDiffers(line, "OBJECT");
    SecondCharDiffers(line, "TRAIT");
    FirstCharDiffers(line, "INTERFACE");
    FirstCharDiffers(line, "IMPORTED");
    FirstCharDiffers(line, "-");
  }

  /** The TYPE line leaves the loop state as it is. */
  lemma TypeLinesInert(st: ParseState, kind: Option<CoverageType>)
    ensures NoNewlines(TypeLines(kind)) && ParseFrom(st, TypeLines(kind)) == st
  {
    if kind.Some? {
      var line := TypeLine(kind.value);
      TypeLineClean(kind.value);
      assert line[0] == 'T' && line[1] == 'Y';
      assert [line][..0] == TypeLines(None);
      InertLine(st, line);
    }
  }

  /** Parsing the body lines collects the three lists, ending in the trait section. */
  lemma BodyParses(a: Annotation)
    requires WellNamed(a)
    ensures NoNewlines(Body(a))
    ensures ParseFrom(Start, Body(a)) == ParseState(Some(Traits), a.methods, a.structs, a.traits, [])
  {
    var t0 := TypeLines(a.kind);
    var b1, b2, b3 := SectionBlock(Methods, a.methods), SectionBlock(Structs, a.structs), SectionBlock(Traits, a.traits);
    TypeLinesInert(Start, a.kind);
    var s1 := ParseState(Some(Methods), a.methods, [], [], []);
    var s2 := ParseState(Some(Structs), a.methods, a.structs, [], []);
    var s3 := ParseState(Some(Traits), a.methods, a.structs, a.traits, []);
    SectionParses(Start, Methods, a.methods);
    assert [] + a.methods == a.methods;
    SectionParses(s1, Structs, a.structs);
    assert [] + a.structs == a.structs;
    SectionParses(s2, Traits, a.traits);
    assert [] + a.traits == a.traits;
    ParseFromAppend(Start, t0, b1);
    ParseFromAppend(Start, t0 + b1, b2);
    ParseFromAppend(Start, t0 + b1 + b2, b3);
  }

  /** A text built of lines that lack a character other than newline lacks it too. */
  lemma {:induction false} JoinLacks(lines: seq<string>, c: char)
    requires c != '\n' && forall t | t in lines :: c !in t
    ensures c !in Join(lines)
    decreases |lines|
  {
    if |lines| > 1 {
      assert forall t | t in lines[1..] :: t in lines;
      JoinLacks(lines[1..], c);
      assert lines[0] in lines;
    } else if |lines| == 1 {
      assert lines[0] in lines;
    }
  }

  /** A text without a colon holds no `TYPE:`. */
  lemma ColonFreeNoTag(s: string)
    requires ':' !in s
    ensures forall j | 0 <= j <= |s| :: !LitAt(s, j, "TYPE:")
  {
    forall j | 0 <= j <= |s| ensures !LitAt(s, j, "TYPE:") {
      if j + 5 <= |s| {
        assert s[j + 4] in s;
        assert Lower(s[j + 4]) != Lower("TYPE:"[4]);
      }
    }
  }

  /** The TYPE of the body text is the annotation's type. */
  lemma BodyType(a: Annotation)
    requires WellNamed(a)
    ensures TypeOf(Join(Body(a))) == a.kind
  {
    var body := Body(a);
    BodyClean(a);
    match a.kind {
      case Some(t) =>
        JoinStartsWith(body);
        TypeLineType(Join(body), t);
      case None =>
        JoinLacks(body, ':');
        ColonFreeNoTag(Join(body));
        NoTagNoType(Join(body));
    }
  }

  /**
   * The round trip: a header written for an annotation into a file of any comment family
   * is found by the extractor, and parsing what it finds gives back the annotation's type
   * and its method, struct and trait lists, with no library.
   */
  lemma ReadBack(a: Annotation, family: Family)
    requires WellNamed(a)
    ensures ExtractHeader(Synthesize(a, family), family) == Some(Join(Body(a)))
    ensures Parse(Join(Body(a))) == Header(a.kind, a.methods, a.structs, a.traits, [])
  {
    Extracted(a, family);
    var body := Body(a);
    BodyParses(a);
    assert KindWord(Methods) in body;
    SplitJoin(body);
    ParseLinesFrom(body);
    BodyType(a);
  }
}
