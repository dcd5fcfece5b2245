/**
 * `parse_header`: reads the extracted header text. The TYPE line anywhere in the text
 * gives the coverage type; then, line by line, a section line selects the list that
 * the following `-` entries go to, and each entry line yields at most one entry.
 */
module HeaderParser {
  import opened Wrappers
  import opened Strings
  import opened Patterns
  import opened CommentStrip

  /** How much of an item is AI generated: all of it, or a range of its lines. */
  datatype Coverage = Whole | Partial(start: nat, end: nat)

  /** A method, struct or trait entry; which of the three it is, is the list it is in. */
  datatype Entry = Entry(name: string, coverage: Coverage)

  /** An imported-library entry with the reason given for it. */
  datatype Library = Library(name: string, reason: string)

  /** The three values of the TYPE field. */
  datatype CoverageType = WholeFile | Above50 | Down50

  /** The lists an entry line can go to. */
  datatype Section = Methods | Structs | Traits | Libraries

  /** The parsed header: the TYPE, if any, and the four lists in the order of their lines. */
  datatype Header = Header(
    kind: Option<CoverageType>,
    methods: seq<Entry>,
    structs: seq<Entry>,
    traits: seq<Entry>,
    libraries: seq<Library>)

  /** The state of the line loop: the current section and the four lists so far. */
  datatype ParseState = ParseState(
    section: Option<Section>,
    methods: seq<Entry>,
    structs: seq<Entry>,
    traits: seq<Entry>,
    libraries: seq<Library>)

  const Start := ParseState(None, [], [], [], [])

  /** The field value the report stores for a TYPE: "WHOLE", "ABOVE_50" or "DOWN_50". */
  function TypeName(t: CoverageType): string {
    match t
    case WholeFile => "WHOLE"
    case Above50 => "ABOVE_50"
    case Down50 => "DOWN_50"
  }

  // ---------------------------------------------------------------------------------
  // The TYPE field
  // ---------------------------------------------------------------------------------

  /**
   * `RE_TYPE`: `TYPE:` and optional whitespace, then one of three phrases, in this order
   * of preference at a given position; runs of whitespace between the words, and an
   * optional `%` after `50`.
   */
  const TypeAlternatives: seq<Pattern> := [
    [Lit("TYPE:"), Spaces(false), Lit("WHOLE"), Spaces(true), Lit("CODE"), Spaces(true),
     Lit("IN"), Spaces(true), Lit("THIS"), Spaces(true), Lit("FILE")],
    [Lit("TYPE:"), Spaces(false), Lit("ABOVE"), Spaces(true), Lit("50"), Maybe("%"), Spaces(true),
     Lit("IN"), Spaces(true), Lit("THIS"), Spaces(true), Lit("FILE")],
    [Lit("TYPE:"), Spaces(false), Lit("DOWN"), Spaces(true), Lit("50"), Maybe("%"), Spaces(true),
     Lit("IN"), Spaces(true), Lit("THIS"), Spaces(true), Lit("FILE")]
  ]

  /**
   * The TYPE of a header: the phrase of the leftmost match of `RE_TYPE` in the whole
   * text. The captured phrase contains "WHOLE", "ABOVE" or "DOWN" (and only that one of
   * the three words) according to the alternative that matched, so the alternative
   * decides the type.
   */
  function TypeOf(text: string): Option<CoverageType> {
    match SearchFrom(text, TypeAlternatives, 0)
    case None => None
    case Some(found) => Some(TypeOfAlt(found.alt))
  }

  /** The type each alternative of `RE_TYPE` stands for. */
  function TypeOfAlt(alt: nat): CoverageType {
    if alt == 0 then WholeFile else if alt == 1 then Above50 else Down50
  }

  /** The word after `TYPE:` in each alternative. */
  function TypeWord(alt: nat): string {
    if alt == 0 then "WHOLE" else if alt == 1 then "ABOVE" else "DOWN"
  }

  /** Every alternative of `RE_TYPE` starts with the literal `TYPE:`. */
  lemma TypeTagFirst(text: string, j: nat)
    requires j <= |text| && MatchFirstAt(text, j, TypeAlternatives).Some?
    ensures LitAt(text, j, "TYPE:")
  {
    var alt := MatchFirstAt(text, j, TypeAlternatives).value.0;
    assert TypeAlternatives[alt][0] == Lit("TYPE:");
    assert MatchTokens(text, j, TypeAlternatives[alt], 0).Some?;
  }

  /** A text in which `TYPE:` occurs nowhere, in any case, has no type. */
  lemma {:induction false} NoTagNoType(text: string)
    requires forall j | 0 <= j <= |text| :: !LitAt(text, j, "TYPE:")
    ensures TypeOf(text) == None
  {
    forall j | 0 <= j <= |text|
      ensures MatchFirstAt(text, j, TypeAlternatives).None?
    {
      if MatchFirstAt(text, j, TypeAlternatives).Some? {
        TypeTagFirst(text, j);
      }
    }
  }

  /** The first three tokens of each alternative: `TYPE:`, `\s*` and the alternative's word. */
  lemma AltShape(alt: nat)
    requires alt < 3
    ensures |TypeAlternatives[alt]| >= 3 && TypeAlternatives[alt][0] == Lit("TYPE:")
    ensures TypeAlternatives[alt][1] == Spaces(false) && TypeAlternatives[alt][2] == Lit(TypeWord(alt))
  {
  }

  /** A pattern that opens with `TYPE:`, `\s*` and a word needs that word after the spaces. */
  lemma WordAfterTag(s: string, i: nat, p: Pattern, w: string)
    requires i <= |s| && |p| >= 3 && p[0] == Lit("TYPE:") && p[1] == Spaces(false) && p[2] == Lit(w)
    ensures MatchTokens(s, i, p, 0).Some? ==>
      i + 5 <= |s| && LitAt(s, i + 5 + RunLength(s, i + 5, Space), w)
  {
    if MatchTokens(s, i, p, 0).Some? {
      assert LitAt(s, i, "TYPE:");
      assert MatchTokens(s, i + 5, p, 1).Some?;
      assert MatchTokens(s, i + 5 + RunLength(s, i + 5, Space), p, 2).Some?;
    }
  }

  /** An alternative that matches has `TYPE:`, whitespace, then its own word. */
  lemma TypeWordAt(s: string, i: nat, alt: nat)
    requires alt < 3 && i <= |s| && MatchAt(s, i, TypeAlternatives[alt]).Some?
    ensures i + 5 <= |s| && LitAt(s, i + 5 + RunLength(s, i + 5, Space), TypeWord(alt))
  {
    AltShape(alt);
    WordAfterTag(s, i, TypeAlternatives[alt], TypeWord(alt));
  }

  /** The three words after `TYPE:` start with different letters, in any case. */
  lemma WordsDiffer(a: nat, b: nat)
    requires a < 3 && b < 3 && a != b
    ensures TypeWord(a) != [] && TypeWord(b) != [] && Lower(TypeWord(a)[0]) != Lower(TypeWord(b)[0])
  {
  }

  /** Two patterns that open with `TYPE:`, `\s*` and words of different first letters never both match. */
  lemma TagWordsExclusive(s: string, i: nat, p: Pattern, q: Pattern, v: string, w: string)
    requires i <= |s| && |p| >= 3 && p[0] == Lit("TYPE:") && p[1] == Spaces(false) && p[2] == Lit(v)
    requires |q| >= 3 && q[0] == Lit("TYPE:") && q[1] == Spaces(false) && q[2] == Lit(w)
    requires v != [] && w != [] && Lower(v[0]) != Lower(w[0])
    requires MatchTokens(s, i, p, 0).Some?
    ensures MatchTokens(s, i, q, 0).None?
  {
    WordAfterTag(s, i, p, v);
    WordAfterTag(s, i, q, w);
    var k := i + 5 + RunLength(s, i + 5, Space);
    assert Lower(s[k + 0]) == Lower(v[0]);
  }

  /** At one position at most one alternative matches: their words start differently. */
  lemma AltsExclusive(s: string, i: nat, a: nat, b: nat)
    requires a < 3 && b < 3 && a != b && i <= |s|
    requires MatchAt(s, i, TypeAlternatives[a]).Some?
    ensures MatchAt(s, i, TypeAlternatives[b]).None?
  {
    var p, q := TypeAlternatives[a], TypeAlternatives[b];
    AltShape(a);
    AltShape(b);
    WordsDiffer(a, b);
    TagWordsExclusive(s, i, p, q, TypeWord(a), TypeWord(b));
  }

  /** An alternative that matches at `i` is the one `MatchFirstAt` picks there. */
  lemma FirstAltAt(s: string, i: nat, alt: nat)
    requires alt < 3 && i <= |s| && MatchAt(s, i, TypeAlternatives[alt]).Some?
    ensures MatchFirstAt(s, i, TypeAlternatives) == Some((alt, MatchAt(s, i, TypeAlternatives[alt]).value))
  {
    var r := MatchFirstAt(s, i, TypeAlternatives);
    assert r.Some?;
    if r.value.0 != alt {
      AltsExclusive(s, i, alt, r.value.0);
    }
  }

  /**
   * When no alternative of `RE_TYPE` matches before `i` and one matches at `i`, with any
   * case and any whitespace between its words, the type is the one that alternative
   * stands for: an earlier `TYPE:` tag that does not match is passed over.
   */
  lemma TypeFound(s: string, i: nat, alt: nat)
    requires alt < 3 && i <= |s| && MatchAt(s, i, TypeAlternatives[alt]).Some?
    requires forall j | 0 <= j < i :: MatchFirstAt(s, j, TypeAlternatives).None?
    ensures TypeOf(s) == Some(TypeOfAlt(alt))
  {
    FirstAltAt(s, i, alt);
    SearchFromFinds(s, TypeAlternatives, 0, i);
  }

  /** The words of the TYPE line for each type, between `TYPE: ` and ` IN THIS FILE`. */
  function TypeWords(t: CoverageType): string {
    match t
    case WholeFile => "WHOLE CODE"
    case Above50 => "ABOVE 50%"
    case Down50 => "DOWN 50%"
  }

  /** The TYPE line an annotation writer puts in a header for each type. */
  function TypeLine(t: CoverageType): string {
    "TYPE: " + TypeWords(t) + " IN THIS FILE"
  }

  /** The alternative of `RE_TYPE` that stands for each type. */
  function AltOf(t: CoverageType): (alt: nat)
    ensures alt < 3 && TypeOfAlt(alt) == t
  {
    match t
    case WholeFile => 0
    case Above50 => 1
    case Down50 => 2
  }

  /** Where the three parts of a TYPE line stand in a text that starts with it. */
  lemma {:induction false} TypeLineParts(s: string, t: CoverageType)
    requires StartsWith(s, TypeLine(t))
    ensures var n := |TypeWords(t)|;
      19 + n <= |s| && s[..6] == "TYPE: " && s[6..6 + n] == TypeWords(t) && s[6 + n..19 + n] == " IN THIS FILE"
  {
    var w, line := TypeWords(t), TypeLine(t);
    var n := |w|;
    assert s[..19 + n] == line;
    SliceWithin(s, 0, 19 + n, 0, 6);
    SliceWithin(s, 0, 19 + n, 6, 6 + n);
    SliceWithin(s, 0, 19 + n, 6 + n, 19 + n);
    assert line[..6] == "TYPE: " && line[6..6 + n] == w && line[6 + n..19 + n] == " IN THIS FILE";
  }

  /** `TYPE:` and one space at the start, before a word. */
  lemma {:induction false} TypeTagPlaced(s: string)
    requires |s| > 6 && s[..6] == "TYPE: " && !IsSpace(s[6])
    ensures LitAt(s, 0, "TYPE:") && RunLength(s, 5, Space) == 1
  {
    assert s[0..5] == s[..6][0..5] == "TYPE:";
    LitFromSlice(s, 0, "TYPE:");
    assert s[5] == s[..6][5] == ' ';
    SingleSpace(s, 5);
  }

  /** The words and single spaces of ` IN THIS FILE` at `o`. */
  lemma {:induction false} TailFacts(s: string, o: nat)
    requires o + 13 <= |s| && s[o..o + 13] == " IN THIS FILE"
    ensures RunLength(s, o, Space) == 1 && RunLength(s, o + 3, Space) == 1 && RunLength(s, o + 8, Space) == 1
    ensures LitAt(s, o + 1, "IN") && LitAt(s, o + 4, "THIS") && LitAt(s, o + 9, "FILE")
  {
    var t := s[o..o + 13];
    assert s[o] == t[0] == ' ' && s[o + 1] == t[1] == 'I';
    assert s[o + 3] == t[3] == ' ' && s[o + 4] == t[4] == 'T';
    assert s[o + 8] == t[8] == ' ' && s[o + 9] == t[9] == 'F';
    SingleSpace(s, o);
    SingleSpace(s, o + 3);
    SingleSpace(s, o + 8);
    SliceWithin(s, o, 13, 1, 3);
    SliceWithin(s, o, 13, 4, 8);
    SliceWithin(s, o, 13, 9, 13);
    assert t[1..3] == "IN" && t[4..8] == "THIS" && t[9..13] == "FILE";
    LitFromSlice(s, o + 1, "IN");
    LitFromSlice(s, o + 4, "THIS");
    LitFromSlice(s, o + 9, "FILE");
  }

  /** The words ` IN THIS FILE` at `o` are matched by the last six tokens of each alternative. */
  lemma {:induction false} TypeTail(s: string, p: Pattern, k: nat, o: nat)
    requires k + 6 == |p| && o + 13 <= |s| && s[o..o + 13] == " IN THIS FILE"
    requires p[k] == Spaces(true) && p[k + 1] == Lit("IN") && p[k + 2] == Spaces(true)
    requires p[k + 3] == Lit("THIS") && p[k + 4] == Spaces(true) && p[k + 5] == Lit("FILE")
    ensures MatchTokens(s, o, p, k) == Some(Match(o + 13, []))
  {
    TailFacts(s, o);
    TokenStep(s, p, k + 5, o + 9, o + 13);
    TokenStep(s, p, k + 4, o + 8, o + 9);
    TokenStep(s, p, k + 3, o + 4, o + 8);
    TokenStep(s, p, k + 2, o + 3, o + 4);
    TokenStep(s, p, k + 1, o + 1, o + 3);
    TokenStep(s, p, k, o, o + 1);
  }

  /** The words and the space of `WHOLE CODE` at position 6. */
  lemma {:induction false} WholeWords(s: string)
    requires 16 < |s| && s[6..16] == "WHOLE CODE"
    ensures !IsSpace(s[6]) && LitAt(s, 6, "WHOLE") && RunLength(s, 11, Space) == 1 && LitAt(s, 12, "CODE")
  {
    var w := s[6..16];
    assert s[6] == w[0] == 'W' && s[11] == w[5] == ' ' && s[12] == w[6] == 'C';
    SliceWithin(s, 6, 10, 0, 5);
    SliceWithin(s, 6, 10, 6, 10);
    assert w[0..5] == "WHOLE" && w[6..10] == "CODE";
    LitFromSlice(s, 6, "WHOLE");
    LitFromSlice(s, 12, "CODE");
    SingleSpace(s, 11);
  }

  /** The first alternative matches `TYPE: WHOLE CODE IN THIS FILE`. */
  lemma {:induction false} WholeTypeMatches(s: string)
    requires 29 <= |s| && s[..6] == "TYPE: " && s[6..16] == "WHOLE CODE" && s[16..29] == " IN THIS FILE"
    ensures MatchAt(s, 0, TypeAlternatives[0]).Some?
  {
    var p := TypeAlternatives[0];
    WholeWords(s);
    TypeTagPlaced(s);
    TypeTail(s, p, 5, 16);
    TokenStep(s, p, 4, 12, 16);
    TokenStep(s, p, 3, 11, 12);
    TokenStep(s, p, 2, 6, 11);
    TokenStep(s, p, 1, 5, 6);
    TokenStep(s, p, 0, 0, 5);
  }

  /** The words, the space and the `%` of `ABOVE 50%` at position 6. */
  lemma {:induction false} AboveWords(s: string)
    requires 15 < |s| && s[6..15] == "ABOVE 50%"
    ensures !IsSpace(s[6]) && LitAt(s, 6, "ABOVE") && RunLength(s, 11, Space) == 1 && LitAt(s, 12, "50") && s[14] == '%'
  {
    var w := s[6..15];
    assert s[6] == w[0] == 'A' && s[11] == w[5] == ' ' && s[12] == w[6] == '5' && s[14] == w[8] == '%';
    SliceWithin(s, 6, 9, 0, 5);
    SliceWithin(s, 6, 9, 6, 8);
    assert w[0..5] == "ABOVE" && w[6..8] == "50";
    LitFromSlice(s, 6, "ABOVE");
    LitFromSlice(s, 12, "50");
    SingleSpace(s, 11);
  }

  /** The second alternative matches `TYPE: ABOVE 50% IN THIS FILE`. */
  lemma {:induction false} AboveTypeMatches(s: string)
    requires 28 <= |s| && s[..6] == "TYPE: " && s[6..15] == "ABOVE 50%" && s[15..28] == " IN THIS FILE"
    ensures MatchAt(s, 0, TypeAlternatives[1]).Some?
  {
    var p := TypeAlternatives[1];
    AboveWords(s);
    TypeTagPlaced(s);
    TypeTail(s, p, 6, 15);
    TokenStep(s, p, 5, 14, 15);
    TokenStep(s, p, 4, 12, 14);
    TokenStep(s, p, 3, 11, 12);
    TokenStep(s, p, 2, 6, 11);
    TokenStep(s, p, 1, 5, 6);
    TokenStep(s, p, 0, 0, 5);
  }

  /** The words, the space and the `%` of `DOWN 50%` at position 6. */
  lemma {:induction false} DownWords(s: string)
    requires 14 < |s| && s[6..14] == "DOWN 50%"
    ensures !IsSpace(s[6]) && LitAt(s, 6, "DOWN") && RunLength(s, 10, Space) == 1 && LitAt(s, 11, "50") && s[13] == '%'
  {
    var w := s[6..14];
    assert s[6] == w[0] == 'D' && s[10] == w[4] == ' ' && s[11] == w[5] == '5' && s[13] == w[7] == '%';
    SliceWithin(s, 6, 8, 0, 4);
    SliceWithin(s, 6, 8, 5, 7);
    assert w[0..4] == "DOWN" && w[5..7] == "50";
    LitFromSlice(s, 6, "DOWN");
    LitFromSlice(s, 11, "50");
    SingleSpace(s, 10);
  }

  /** The third alternative matches `TYPE: DOWN 50% IN THIS FILE`. */
  lemma {:induction false} DownTypeMatches(s: string)
    requires 27 <= |s| && s[..6] == "TYPE: " && s[6..14] == "DOWN 50%" && s[14..27] == " IN THIS FILE"
    ensures MatchAt(s, 0, TypeAlternatives[2]).Some?
  {
    var p := TypeAlternatives[2];
    DownWords(s);
    TypeTagPlaced(s);
    TypeTail(s, p, 6, 14);
    TokenStep(s, p, 5, 13, 14);
    TokenStep(s, p, 4, 11, 13);
    TokenStep(s, p, 3, 10, 11);
    TokenStep(s, p, 2, 6, 10);
    TokenStep(s, p, 1, 5, 6);
    TokenStep(s, p, 0, 0, 5);
  }

  /** A header text that starts with the TYPE line of a type has that type. */
  lemma TypeLineType(s: string, t: CoverageType)
    requires StartsWith(s, TypeLine(t))
    ensures TypeOf(s) == Some(t)
  {
    TypeLineParts(s, t);
    match t {
      case WholeFile => WholeTypeMatches(s);
      case Above50 => AboveTypeMatches(s);
      case Down50 => DownTypeMatches(s);
    }
    TypeFound(s, 0, AltOf(t));
  }

  // ---------------------------------------------------------------------------------
  // Section lines and entry lines
  // ---------------------------------------------------------------------------------

  /** The case-sensitive section test made on a stripped line, in the source's order. */
  function SectionOf(line: string): Option<Section> {
    if StartsWith(line, "METHOD") || StartsWith(line, "FUNCTION") then Some(Methods)
    else if StartsWith(line, "STRUCT") || StartsWith(line, "OBJECT") then Some(Structs)
    else if StartsWith(line, "TRAIT") || StartsWith(line, "INTERFACE") then Some(Traits)
    else if StartsWith(line, "IMPORTED") then Some(Libraries)
    else None
  }

  /** The quotes that may surround an item's name. */
  const Quotes := "`'\""

  /** `WHOLE\s+CODE\s+IN\s+THE\s+<KIND>\s+[`'"]?(\w+)[`'"]?`. */
  function WholePattern(kind: string): Pattern {
    [Lit("WHOLE"), Spaces(true), Lit("CODE"), Spaces(true), Lit("IN"), Spaces(true),
     Lit("THE"), Spaces(true), Lit(kind), Spaces(true), Maybe(Quotes), Group(Word), Maybe(Quotes)]
  }

  /** `(\d+)\s*~\s*(\d+)\s+LINE\s+CODE\s+IN\s+THE\s+<KIND>\s+[`'"]?(\w+)[`'"]?`. */
  function PartialPattern(kind: string): Pattern {
    [Group(Digit), Spaces(false), Lit("~"), Spaces(false), Group(Digit), Spaces(true),
     Lit("LINE"), Spaces(true), Lit("CODE"), Spaces(true), Lit("IN"), Spaces(true),
     Lit("THE"), Spaces(true), Lit(kind), Spaces(true), Maybe(Quotes), Group(Word), Maybe(Quotes)]
  }

  lemma WholeGroups(kind: string)
    ensures GroupCount(WholePattern(kind)) == 1
  {
    var p := WholePattern(kind);
    assert GroupsFrom(p, 13) == 0;
    assert GroupsFrom(p, 12) == 0;
    assert GroupsFrom(p, 11) == 1;
    assert GroupsFrom(p, 10) == 1;
    assert GroupsFrom(p, 9) == 1;
    assert GroupsFrom(p, 8) == 1;
    assert GroupsFrom(p, 7) == 1;
    assert GroupsFrom(p, 6) == 1;
    assert GroupsFrom(p, 5) == 1;
    assert GroupsFrom(p, 4) == 1;
    assert GroupsFrom(p, 3) == 1;
    assert GroupsFrom(p, 2) == 1;
    assert GroupsFrom(p, 1) == 1;
    assert GroupsFrom(p, 0) == 1;
  }

  lemma PartialGroups(kind: string)
    ensures GroupCount(PartialPattern(kind)) == 3
  {
    var p := PartialPattern(kind);
    assert GroupsFrom(p, 19) == 0;
    assert GroupsFrom(p, 18) == 0;
    assert GroupsFrom(p, 17) == 1;
    assert GroupsFrom(p, 16) == 1;
    assert GroupsFrom(p, 15) == 1;
    assert GroupsFrom(p, 14) == 1;
    assert GroupsFrom(p, 13) == 1;
    assert GroupsFrom(p, 12) == 1;
    assert GroupsFrom(p, 11) == 1;
    assert GroupsFrom(p, 10) == 1;
    assert GroupsFrom(p, 9) == 1;
    assert GroupsFrom(p, 8) == 1;
    assert GroupsFrom(p, 7) == 1;
    assert GroupsFrom(p, 6) == 1;
    assert GroupsFrom(p, 5) == 1;
    assert GroupsFrom(p, 4) == 2;
    assert GroupsFrom(p, 3) == 2;
    assert GroupsFrom(p, 2) == 2;
    assert GroupsFrom(p, 1) == 2;
    assert GroupsFrom(p, 0) == 3;
  }

  /** `int(digits)` for a run of decimal digits. */
  function DecimalValue(digits: string): nat
    decreases |digits|
  {
    if digits == [] then 0
    else
      var d := digits[|digits| - 1];
      10 * DecimalValue(digits[..|digits| - 1]) + (if IsDigit(d) then d as int - '0' as int else 0)
  }

  /** The groups of the match that `Search(s, p)` found. */
  lemma SearchGroups(s: string, p: Pattern)
    requires Search(s, p).Some?
    ensures |Search(s, p).value.m.groups| == GroupCount(p)
    ensures forall g | 0 <= g < GroupCount(p) :: Search(s, p).value.m.groups[g] != []
  {
    var found := Search(s, p).value;
    assert MatchAt(s, found.start, [p][found.alt]) == Some(found.m);
  }

  /**
   * The entry an entry text yields for `kind` ("METHOD", "STRUCT" or "TRAIT"): the WHOLE
   * pattern is tried first, then the PARTIAL pattern, each searched anywhere in the text.
   */
  function EntryOf(kind: string, text: string): (r: Option<Entry>)
    ensures r.Some? ==> r.value.name != []
  {
    match Search(text, WholePattern(kind))
    case Some(found) =>
      WholeGroups(kind);
      SearchGroups(text, WholePattern(kind));
      Some(Entry(found.m.groups[0], Whole))
    case None =>
      match Search(text, PartialPattern(kind))
      case None => None
      case Some(found) =>
        PartialGroups(kind);
        SearchGroups(text, PartialPattern(kind));
        var g := found.m.groups;
        Some(Entry(g[2], Partial(DecimalValue(g[0]), DecimalValue(g[1]))))
  }

  /**
   * The library entry of a line: `RE_LIBRARY` searched in the whole stripped line; the
   * name is the shortest run before a colon, the reason the stripped rest of the line.
   */
  function LibraryOf(line: string): (r: Option<Library>)
    requires '\n' !in line
    ensures r.Some? ==> r.value.name != [] && AllNonSpace(r.value.name) && NoEdgeSpace(r.value.reason)
  {
    match LibrarySearchFrom(line, 0)
    case None => None
    case Some(i) =>
      var (k, j) := LibraryAt(line, i).value;
      Some(Library(line[k..j], Trim(line[j + 1..])))
  }

  /** `line.lstrip("- ").strip()`: the text of an entry line after its dash. */
  function EntryText(line: string): string {
    Trim(LStripChars(line, "- "))
  }

  lemma TrimKeepsNoNewline(s: string)
    requires '\n' !in s
    ensures '\n' !in Trim(s)
  {
    TrimSlice(s);
    SliceLacks(Trim(s), s, '\n');
  }

  // ---------------------------------------------------------------------------------
  // The line loop, as a specification
  // ---------------------------------------------------------------------------------

  function EntryCount(st: ParseState): nat {
    |st.methods| + |st.structs| + |st.traits| + |st.libraries|
  }

  predicate IsPrefix<T(==)>(a: seq<T>, b: seq<T>) {
    |a| <= |b| && b[..|a|] == a
  }

  /** Every list of `st` is a prefix of the same list of `st2`. */
  predicate Extends(st: ParseState, st2: ParseState) {
    IsPrefix(st.methods, st2.methods) && IsPrefix(st.structs, st2.structs)
    && IsPrefix(st.traits, st2.traits) && IsPrefix(st.libraries, st2.libraries)
  }

  /** A state with the same four lists extends and is extended by the state it came from. */
  lemma SameLists(st: ParseState, st2: ParseState)
    requires st.methods == st2.methods && st.structs == st2.structs
    requires st.traits == st2.traits && st.libraries == st2.libraries
    ensures Extends(st, st2) && EntryCount(st2) == EntryCount(st)
  {
    assert st.methods[..|st.methods|] == st.methods && st.structs[..|st.structs|] == st.structs;
    assert st.traits[..|st.traits|] == st.traits && st.libraries[..|st.libraries|] == st.libraries;
  }

  /** A list with the found item, if any, appended. */
  function AddFound<T>(list: seq<T>, found: Option<T>): (r: seq<T>)
    ensures IsPrefix(list, r) && |list| <= |r| <= |list| + 1
    ensures |r| == |list| + 1 <==> found.Some?
  {
    match found
    case Some(x) => PrefixAppend(list, x); list + [x]
    case None => assert list[..|list|] == list; list
  }

  lemma PrefixAppend<T>(a: seq<T>, x: T)
    ensures IsPrefix(a, a + [x])
  {
    assert (a + [x])[..|a|] == a;
  }

  /**
   * What a `-` line does: in a section, the entry the line yields, if any, is appended to
   * that section's list; before any section line, nothing happens.
   */
  function AddEntry(st: ParseState, line: string): (r: ParseState)
    requires '\n' !in line
    ensures r.section == st.section
    ensures Extends(st, r) && EntryCount(r) <= EntryCount(st) + 1
    ensures EntryCount(r) == EntryCount(st) + 1 ==> st.section.Some?
  {
    var text := EntryText(line);
    match st.section
    case None => SameLists(st, st); st
    case Some(Methods) => SameLists(st, st); st.(methods := AddFound(st.methods, EntryOf("METHOD", text)))
    case Some(Structs) => SameLists(st, st); st.(structs := AddFound(st.structs, EntryOf("STRUCT", text)))
    case Some(Traits) => SameLists(st, st); st.(traits := AddFound(st.traits, EntryOf("TRAIT", text)))
    case Some(Libraries) => SameLists(st, st); st.(libraries := AddFound(st.libraries, LibraryOf(line)))
  }

  /**
   * One pass of the loop body on one line of the header: a section line switches the
   * section; a `-` line may add an entry; every other line changes nothing.
   */
  function ParseLine(st: ParseState, raw: string): (r: ParseState)
    requires '\n' !in raw
    ensures r.section == if SectionOf(Trim(raw)).Some? then SectionOf(Trim(raw)) else st.section
    ensures Extends(st, r) && EntryCount(r) <= EntryCount(st) + 1
    ensures EntryCount(r) == EntryCount(st) + 1 ==>
      SectionOf(Trim(raw)).None? && StartsWith(Trim(raw), "-") && st.section.Some?
  {
    var line := Trim(raw);
    match SectionOf(line)
    case Some(section) => SameLists(st, st.(section := Some(section))); st.(section := Some(section))
    case None =>
      if StartsWith(line, "-") then
        TrimKeepsNoNewline(raw);
        AddEntry(st, line)
      else SameLists(st, st); st
  }

  predicate NoNewlines(lines: seq<string>) {
    forall k | 0 <= k < |lines| :: '\n' !in lines[k]
  }

  lemma NoNewlinesTake(lines: seq<string>, n: nat)
    requires NoNewlines(lines) && n <= |lines|
    ensures NoNewlines(lines[..n])
  {
    assert forall k | 0 <= k < n :: lines[..n][k] == lines[k];
  }

  /** The loop state after the given lines, taken in order from `Start`. */
  function ParseLines(lines: seq<string>): ParseState
    requires NoNewlines(lines)
    decreases |lines|
  {
    if lines == [] then Start
    else ParseLine(ParseLines(lines[..|lines| - 1]), lines[|lines| - 1])
  }

  /** One more line is one more pass of the loop body. */
  lemma ParseLinesStep(lines: seq<string>, i: nat)
    requires NoNewlines(lines) && i < |lines|
    ensures NoNewlines(lines[..i]) && NoNewlines(lines[..i + 1])
    ensures ParseLines(lines[..i + 1]) == ParseLine(ParseLines(lines[..i]), lines[i])
  {
    NoNewlinesTake(lines, i);
    NoNewlinesTake(lines, i + 1);
    assert lines[..i + 1][..i] == lines[..i];
  }

  /** The parse of a header text. */
  function Parse(text: string): Header {
    var st := ParseLines(Split(text));
    Header(TypeOf(text), st.methods, st.structs, st.traits, st.libraries)
  }

  // ---------------------------------------------------------------------------------
  // The loop itself
  // ---------------------------------------------------------------------------------

  /**
   * The body of the loop of `parse_header` on the line `lines[i]`, given the current section
   * and lists after the lines before it.
   */
  method ParseOneLine(lines: seq<string>, i: nat, section: Option<Section>, methods: seq<Entry>,
                      structs: seq<Entry>, traits: seq<Entry>, libraries: seq<Library>)
    returns (section': Option<Section>, methods': seq<Entry>, structs': seq<Entry>, traits': seq<Entry>,
             libraries': seq<Library>)
    requires NoNewlines(lines) && i < |lines|
    requires ParseLines(lines[..i]) == ParseState(section, methods, structs, traits, libraries)
    ensures NoNewlines(lines[..i + 1])
    ensures ParseLines(lines[..i + 1]) == ParseState(section', methods', structs', traits', libraries')
  {
    ParseLinesStep(lines, i);
    var raw := lines[i];
    section', methods', structs', traits', libraries' := section, methods, structs, traits, libraries;
    var line := Trim(raw);
    var header := SectionOf(line);
    if header.Some? {
      section' := header;
      return;
    }
    if !StartsWith(line, "-") {
      return;
    }
    TrimKeepsNoNewline(raw);
    var text := EntryText(line);
    match section {
      case None =>
      case Some(Methods) =>
        var e := EntryOf("METHOD", text);
        if e.Some? {
          methods' := methods + [e.value];
        }
      case Some(Structs) =>
        var e := EntryOf("STRUCT", text);
        if e.Some? {
          structs' := structs + [e.value];
        }
      case Some(Traits) =>
        var e := EntryOf("TRAIT", text);
        if e.Some? {
          traits' := traits + [e.value];
        }
      case Some(Libraries) =>
        var l := LibraryOf(line);
        if l.Some? {
          libraries' := libraries + [l.value];
        }
    }
  }

  /** `parse_header`, with its loop over the lines and its current section. */
  method ParseHeader(text: string) returns (r: Header)
    ensures r == Parse(text)
  {
    var kind := TypeOf(text);
    var lines := Split(text);
    var section: Option<Section> := None;
    var methods, structs, traits, libraries := [], [], [], [];
    var i := 0;
    NoNewlinesTake(lines, 0);
    while i < |lines|
      invariant 0 <= i <= |lines| && NoNewlines(lines[..i])
      invariant ParseLines(lines[..i]) == ParseState(section, methods, structs, traits, libraries)
    {
      section, methods, structs, traits, libraries := ParseOneLine(lines, i, section, methods, structs, traits, libraries);
      i := i + 1;
    }
    assert lines[..i] == lines;
    r := Header(kind, methods, structs, traits, libraries);
  }

  // ---------------------------------------------------------------------------------
  // Properties of the parse
  // ---------------------------------------------------------------------------------

  /** Lines whose stripped text starts with a dash: the only lines that can yield entries. */
  function DashLines(lines: seq<string>): nat
    decreases |lines|
  {
    if lines == [] then 0
    else DashLines(lines[..|lines| - 1]) + (if StartsWith(Trim(lines[|lines| - 1]), "-") then 1 else 0)
  }

  /** Each line yields at most one entry, and only a dash line yields one. */
  lemma {:induction false} AtMostOnePerLine(lines: seq<string>)
    requires NoNewlines(lines)
    ensures EntryCount(ParseLines(lines)) <= DashLines(lines) <= |lines|
    decreases |lines|
  {
    if lines != [] {
      AtMostOnePerLine(lines[..|lines| - 1]);
    }
  }

  lemma ExtendsTrans(a: ParseState, b: ParseState, c: ParseState)
    requires Extends(a, b) && Extends(b, c)
    ensures Extends(a, c)
  {
    assert c.methods[..|a.methods|] == c.methods[..|b.methods|][..|a.methods|];
    assert c.structs[..|a.structs|] == c.structs[..|b.structs|][..|a.structs|];
    assert c.traits[..|a.traits|] == c.traits[..|b.traits|][..|a.traits|];
    assert c.libraries[..|a.libraries|] == c.libraries[..|b.libraries|][..|a.libraries|];
  }

  /** Entries are only ever appended: the parse of a prefix is extended by the whole parse. */
  lemma {:induction false} SourceOrder(lines: seq<string>, n: nat)
    requires NoNewlines(lines) && n <= |lines|
    ensures Extends(ParseLines(lines[..n]), ParseLines(lines))
    decreases |lines| - n
  {
    NoNewlinesTake(lines, n);
    if n < |lines| {
      NextLine(lines, n);
      SourceOrder(lines, n + 1);
      ExtendsTrans(ParseLines(lines[..n]), ParseLines(lines[..n + 1]), ParseLines(lines));
    } else {
      assert lines[..n] == lines;
    }
  }

  /** One more line extends the parse. */
  lemma NextLine(lines: seq<string>, n: nat)
    requires NoNewlines(lines) && n < |lines|
    ensures NoNewlines(lines[..n]) && NoNewlines(lines[..n + 1])
    ensures Extends(ParseLines(lines[..n]), ParseLines(lines[..n + 1]))
  {
    ParseLinesStep(lines, n);
  }

  /** Without a section line nothing is collected: entries need a section first. */
  lemma {:induction false} NoSectionNoEntries(lines: seq<string>)
    requires NoNewlines(lines)
    requires forall k | 0 <= k < |lines| :: SectionOf(Trim(lines[k])).None?
    ensures ParseLines(lines) == Start
    decreases |lines|
  {
    if lines != [] {
      NoSectionNoEntries(lines[..|lines| - 1]);
    }
  }

  /** A text that does not start with `t`'s first character does not start with `t`. */
  lemma FirstCharDiffers(s: string, t: string)
    requires t != [] && (s == [] || s[0] != t[0])
    ensures !StartsWith(s, t)
  {
    if |t| <= |s| {
      assert s[..|t|][0] == s[0];
    }
  }

  /** A text whose second character differs from `t`'s does not start with `t`. */
  lemma SecondCharDiffers(s: string, t: string)
    requires |t| >= 2 && (|s| < 2 || s[1] != t[1])
    ensures !StartsWith(s, t)
  {
    if |t| <= |s| {
      assert s[..|t|][1] == s[1];
    }
  }

  /**
   * Section lines are matched case-sensitively: every keyword starts with an upper-case
   * letter, so a line that starts with anything else, a lower-case letter included, is
   * never a section line.
   */
  lemma NotSectionLine(line: string)
    requires line == [] || !('A' <= line[0] <= 'Z')
    ensures SectionOf(line) == None
  {
    FirstCharDiffers(line, "METHOD");
    FirstCharDiffers(line, "FUNCTION");
    FirstCharDiffers(line, "STRUCT");
    FirstCharDiffers(line, "OBJECT");
    FirstCharDiffers(line, "TRAIT");
    FirstCharDiffers(line, "INTERFACE");
    FirstCharDiffers(line, "IMPORTED");
  }

  /** A line that starts with METHOD or FUNCTION opens the method section. */
  lemma MethodSectionLines(rest: string)
    ensures SectionOf("METHOD" + rest) == Some(Methods)
    ensures SectionOf("FUNCTION" + rest) == Some(Methods)
  {
    assert ("METHOD" + rest)[..6] == "METHOD";
    assert ("FUNCTION" + rest)[..8] == "FUNCTION";
    FirstCharDiffers("FUNCTION" + rest, "METHOD");
  }

  /** A line that starts with STRUCT or OBJECT opens the struct section. */
  lemma StructSectionLines(rest: string)
    ensures SectionOf("STRUCT" + rest) == Some(Structs)
    ensures SectionOf("OBJECT" + rest) == Some(Structs)
  {
    assert ("STRUCT" + rest)[..6] == "STRUCT";
    FirstCharDiffers("STRUCT" + rest, "METHOD");
    FirstCharDiffers("STRUCT" + rest, "FUNCTION");
    assert ("OBJECT" + rest)[..6] == "OBJECT";
    FirstCharDiffers("OBJECT" + rest, "METHOD");
    FirstCharDiffers("OBJECT" + rest, "FUNCTION");
    FirstCharDiffers("OBJECT" + rest, "STRUCT");
  }

  /** A line that starts with TRAIT or INTERFACE opens the trait section. */
  lemma TraitSectionLines(rest: string)
    ensures SectionOf("TRAIT" + rest) == Some(Traits)
    ensures SectionOf("INTERFACE" + rest) == Some(Traits)
  {
    assert ("TRAIT" + rest)[..5] == "TRAIT";
    FirstCharDiffers("TRAIT" + rest, "METHOD");
    FirstCharDiffers("TRAIT" + rest, "FUNCTION");
    FirstCharDiffers("TRAIT" + rest, "STRUCT");
    FirstCharDiffers("TRAIT" + rest, "OBJECT");
    assert ("INTERFACE" + rest)[..9] == "INTERFACE";
    FirstCharDiffers("INTERFACE" + rest, "METHOD");
    FirstCharDiffers("INTERFACE" + rest, "FUNCTION");
    FirstCharDiffers("INTERFACE" + rest, "STRUCT");
    FirstCharDiffers("INTERFACE" + rest, "OBJECT");
    FirstCharDiffers("INTERFACE" + rest, "TRAIT");
  }

  /** A line that starts with IMPORTED opens the library section. */
  lemma LibrarySectionLine(rest: string)
    ensures SectionOf("IMPORTED" + rest) == Some(Libraries)
  {
    assert ("IMPORTED" + rest)[..8] == "IMPORTED";
    FirstCharDiffers("IMPORTED" + rest, "METHOD");
    FirstCharDiffers("IMPORTED" + rest, "FUNCTION");
    FirstCharDiffers("IMPORTED" + rest, "STRUCT");
    FirstCharDiffers("IMPORTED" + rest, "OBJECT");
    FirstCharDiffers("IMPORTED" + rest, "TRAIT");
    SecondCharDiffers("IMPORTED" + rest, "INTERFACE");
  }

  /** A pattern that opens with a literal cannot be found where that literal never occurs. */
  lemma SearchNeedsLead(s: string, p: Pattern)
    requires |p| > 0 && p[0].Lit?
    requires forall j | 0 <= j <= |s| :: !LitAt(s, j, p[0].text)
    ensures Search(s, p) == None
  {
    forall j | 0 <= j <= |s|
      ensures MatchFirstAt(s, j, [p]).None?
    {
      assert MatchTokens(s, j, p, 0).None?;
    }
  }

  /** A found match at the very start is the search result. */
  lemma SearchAtStart(s: string, p: Pattern, m: Match)
    requires MatchAt(s, 0, p) == Some(m)
    ensures Search(s, p) == Some(Found(0, 0, m))
  {
    assert [p][0] == p;
  }

  /** `int` of a run of digits, on the two bounds of a `12~34` entry. */
  lemma DecimalExamples()
    ensures DecimalValue("12") == 12 && DecimalValue("34") == 34
  {
    assert "12"[..1] == "1" && "1"[..0] == "";
    assert "34"[..1] == "3" && "3"[..0] == "";
  }

  // ---------------------------------------------------------------------------------
  // Entry texts that parse
  // ---------------------------------------------------------------------------------

  /** An optional quote around an item's name: nothing, or one of the three quotes. */
  predicate QuoteMark(q: string) {
    q == [] || (|q| == 1 && q[0] in Quotes)
  }

  /** A name the `(\w+)` group captures whole. */
  predicate WordName(name: string) {
    name != [] && forall k | 0 <= k < |name| :: IsWordChar(name[k])
  }

  /** Where the parts of `WHOLE CODE IN THE <kind> <q><name><q><post>` stand. */
  lemma {:induction false} WholeLayout(s: string, kind: string, q: string, name: string, post: string)
    requires s == "WHOLE CODE IN THE " + kind + " " + q + name + (q + post)
    ensures var a, b := 18 + |kind|, 19 + |kind| + |q|;
      && |s| == b + |name| + |q| + |post| && s[..18] == "WHOLE CODE IN THE " && s[18..a] == kind
      && s[a] == ' ' && s[a + 1..b] == q && s[b..b + |name|] == name && s[b + |name|..] == q + post
  {
  }

  /** The literal words of `WHOLE CODE IN THE ` at the start of `s`. */
  lemma {:induction false} WholeLeadWords(s: string)
    requires |s| >= 18 && s[..18] == "WHOLE CODE IN THE "
    ensures LitAt(s, 0, "WHOLE") && LitAt(s, 6, "CODE") && LitAt(s, 11, "IN") && LitAt(s, 14, "THE")
  {
    var lead := s[..18];
    assert s[0..5] == lead[0..5] == "WHOLE";
    assert s[6..10] == lead[6..10] == "CODE";
    assert s[11..13] == lead[11..13] == "IN";
    assert s[14..17] == lead[14..17] == "THE";
    LitFromSlice(s, 0, "WHOLE");
    LitFromSlice(s, 6, "CODE");
    LitFromSlice(s, 11, "IN");
    LitFromSlice(s, 14, "THE");
  }

  /** The single spaces of `WHOLE CODE IN THE ` at the start of `s`. */
  lemma {:induction false} WholeLeadSpaces(s: string)
    requires |s| > 18 && s[..18] == "WHOLE CODE IN THE " && !IsSpace(s[18])
    ensures RunLength(s, 5, Space) == 1 && RunLength(s, 10, Space) == 1
    ensures RunLength(s, 13, Space) == 1 && RunLength(s, 17, Space) == 1
  {
    var lead := s[..18];
    assert s[5] == lead[5] == ' ' && s[6] == lead[6] == 'C';
    assert s[10] == lead[10] == ' ' && s[11] == lead[11] == 'I';
    assert s[13] == lead[13] == ' ' && s[14] == lead[14] == 'T';
    assert s[17] == lead[17] == ' ';
    SingleSpace(s, 5);
    SingleSpace(s, 10);
    SingleSpace(s, 13);
    SingleSpace(s, 17);
  }

  /** The kind at `o`, the space after it and the optional opening quote. */
  lemma {:induction false} KindAt(s: string, o: nat, kind: string, q: string, name: string)
    requires o + |kind| + 1 + |q| + |name| <= |s| && s[o..o + |kind|] == kind
    requires s[o + |kind|] == ' ' && s[o + |kind| + 1..o + |kind| + 1 + |q|] == q
    requires s[o + |kind| + 1 + |q|..o + |kind| + 1 + |q| + |name|] == name
    requires kind != [] && !IsSpace(kind[0]) && QuoteMark(q) && WordName(name)
    ensures !IsSpace(s[o]) && LitAt(s, o, kind) && RunLength(s, o + |kind|, Space) == 1
    ensures (o + |kind| + 1 < |s| && s[o + |kind| + 1] in Quotes) == (q != [])
  {
    var a, b := o + |kind|, o + |kind| + 1 + |q|;
    assert s[o] == s[o..a][0];
    LitFromSlice(s, o, kind);
    if q == [] {
      assert s[a + 1] == s[b..b + |name|][0] == name[0];
    } else {
      assert s[a + 1] == s[a + 1..b][0] == q[0];
    }
    assert !IsSpace(s[a + 1]);
    SingleSpace(s, a);
  }

  /** The name is the whole run of word characters after the optional quote. */
  lemma {:induction false} WholeName(s: string, b: nat, q: string, name: string, post: string)
    requires b + |name| <= |s| && s[b..b + |name|] == name && s[b + |name|..] == q + post
    requires QuoteMark(q) && WordName(name) && (post == [] || !IsWordChar(post[0]))
    ensures RunLength(s, b, Word) == |name|
  {
    assert forall k | b <= k < b + |name| :: s[k] == s[b..b + |name|][k - b];
    if b + |name| < |s| {
      var c := s[b + |name|];
      assert c == (q + post)[0];
      assert !IsWordChar(c);
    }
    RunLengthIs(s, b, Word, |name|);
  }

  /** The lead words of the WHOLE pattern fit their positions once the rest of the plan does. */
  lemma {:induction false} WholePlanHead(s: string, p: Pattern, pos: seq<nat>)
    requires |p| == 13 && |pos| == 14 && 18 <= |s|
    requires p[0] == Lit("WHOLE") && p[2] == Lit("CODE") && p[4] == Lit("IN") && p[6] == Lit("THE")
    requires p[1] == Spaces(true) && p[3] == Spaces(true) && p[5] == Spaces(true) && p[7] == Spaces(true)
    requires pos[0] == 0 && pos[1] == 5 && pos[2] == 6 && pos[3] == 10 && pos[4] == 11
    requires pos[5] == 13 && pos[6] == 14 && pos[7] == 17 && pos[8] == 18
    requires LitAt(s, 0, "WHOLE") && LitAt(s, 6, "CODE") && LitAt(s, 11, "IN") && LitAt(s, 14, "THE")
    requires RunLength(s, 5, Space) == 1 && RunLength(s, 10, Space) == 1
    requires RunLength(s, 13, Space) == 1 && RunLength(s, 17, Space) == 1
    requires Planned(s, p, pos, 8)
    ensures Planned(s, p, pos, 0)
  {
    assert Planned(s, p, pos, 7);
    assert Planned(s, p, pos, 6);
    assert Planned(s, p, pos, 5);
    assert Planned(s, p, pos, 4);
    assert Planned(s, p, pos, 3);
    assert Planned(s, p, pos, 2);
    assert Planned(s, p, pos, 1);
  }

  /** The last five tokens, kind, space, quote, name and quote, fit their positions. */
  lemma {:induction false} KindPlanTail(s: string, p: Pattern, pos: seq<nat>, j: nat, o: nat, kind: string, b: nat, e: nat)
    requires |p| == j + 5 && |pos| == |p| + 1 && o + |kind| + 1 <= b < e <= |s|
    requires p[j] == Lit(kind) && p[j + 1] == Spaces(true) && p[j + 2] == Maybe(Quotes)
    requires p[j + 3] == Group(Word) && p[j + 4] == Maybe(Quotes)
    requires pos[j] == o && pos[j + 1] == o + |kind| && pos[j + 2] == o + |kind| + 1
    requires pos[j + 3] == b && pos[j + 4] == e
    requires pos[j + 5] == if e < |s| && s[e] in Quotes then e + 1 else e
    requires b == if o + |kind| + 1 < |s| && s[o + |kind| + 1] in Quotes then o + |kind| + 2 else o + |kind| + 1
    requires LitAt(s, o, kind) && RunLength(s, o + |kind|, Space) == 1 && RunLength(s, b, Word) == e - b
    ensures Planned(s, p, pos, j)
  {
    assert Planned(s, p, pos, j + 4);
    assert Planned(s, p, pos, j + 3);
    assert Planned(s, p, pos, j + 2);
    assert Planned(s, p, pos, j + 1);
  }

  /** The one group of a WHOLE plan captures the text between its two positions. */
  lemma {:induction false} WholeCaptures(s: string, p: Pattern, pos: seq<nat>)
    requires |p| == 13 && |pos| == 14 && pos[11] <= pos[12] <= |s|
    requires forall k | 0 <= k < 13 :: p[k].Group? <==> k == 11
    ensures Captures(s, p, pos, 0) == [s[pos[11]..pos[12]]]
  {
    assert Captures(s, p, pos, 12) == [];
    assert Captures(s, p, pos, 11) == [s[pos[11]..pos[12]]];
    var c := Captures(s, p, pos, 11);
    assert Captures(s, p, pos, 10) == c;
    assert Captures(s, p, pos, 9) == c;
    assert Captures(s, p, pos, 8) == c;
    assert Captures(s, p, pos, 7) == c;
    assert Captures(s, p, pos, 6) == c;
    assert Captures(s, p, pos, 5) == c;
    assert Captures(s, p, pos, 4) == c;
    assert Captures(s, p, pos, 3) == c;
    assert Captures(s, p, pos, 2) == c;
    assert Captures(s, p, pos, 1) == c;
  }

  /** Where each token of the WHOLE pattern ends, for a kind, a name from `b` to `e`. */
  function WholePositions(s: string, kind: string, b: nat, e: nat): (pos: seq<nat>)
    ensures |pos| == 14
  {
    [0, 5, 6, 10, 11, 13, 14, 17, 18, 18 + |kind|, 19 + |kind|, b, e, if e < |s| && s[e] in Quotes then e + 1 else e]
  }

  lemma {:induction false} WholePlanned(s: string, kind: string, b: nat, e: nat)
    requires 18 + |kind| + 1 <= b < e <= |s|
    requires b == if 19 + |kind| < |s| && s[19 + |kind|] in Quotes then 20 + |kind| else 19 + |kind|
    requires LitAt(s, 0, "WHOLE") && LitAt(s, 6, "CODE") && LitAt(s, 11, "IN") && LitAt(s, 14, "THE")
    requires RunLength(s, 5, Space) == 1 && RunLength(s, 10, Space) == 1
    requires RunLength(s, 13, Space) == 1 && RunLength(s, 17, Space) == 1
    requires LitAt(s, 18, kind) && RunLength(s, 18 + |kind|, Space) == 1 && RunLength(s, b, Word) == e - b
    ensures Planned(s, WholePattern(kind), WholePositions(s, kind, b, e), 0)
  {
    var p, pos := WholePattern(kind), WholePositions(s, kind, b, e);
    KindPlanTail(s, p, pos, 8, 18, kind, b, e);
    WholePlanHead(s, p, pos);
  }

  lemma {:induction false} WholeCaptured(s: string, kind: string, b: nat, e: nat)
    requires b <= e <= |s|
    ensures Captures(s, WholePattern(kind), WholePositions(s, kind, b, e), 0) == [s[b..e]]
  {
    WholeCaptures(s, WholePattern(kind), WholePositions(s, kind, b, e));
  }

  /** The WHOLE pattern matches at the start of a text laid out as the plan says. */
  lemma {:induction false} WholeMatch(s: string, kind: string, b: nat, e: nat)
    requires 18 + |kind| + 1 <= b < e <= |s|
    requires b == if 19 + |kind| < |s| && s[19 + |kind|] in Quotes then 20 + |kind| else 19 + |kind|
    requires LitAt(s, 0, "WHOLE") && LitAt(s, 6, "CODE") && LitAt(s, 11, "IN") && LitAt(s, 14, "THE")
    requires RunLength(s, 5, Space) == 1 && RunLength(s, 10, Space) == 1
    requires RunLength(s, 13, Space) == 1 && RunLength(s, 17, Space) == 1
    requires LitAt(s, 18, kind) && RunLength(s, 18 + |kind|, Space) == 1 && RunLength(s, b, Word) == e - b
    ensures MatchAt(s, 0, WholePattern(kind)) == Some(Match(if e < |s| && s[e] in Quotes then e + 1 else e, [s[b..e]]))
  {
    WholePlanned(s, kind, b, e);
    WholeCaptured(s, kind, b, e);
    MatchPlan(s, WholePattern(kind), WholePositions(s, kind, b, e), 0);
  }

  /** The facts about a WHOLE entry text that the plan of its match needs. */
  lemma {:induction false} WholeText(s: string, kind: string, q: string, name: string, post: string)
    requires s == "WHOLE CODE IN THE " + kind + " " + q + name + (q + post)
    requires kind != [] && !IsSpace(kind[0]) && QuoteMark(q) && WordName(name)
    requires post == [] || !IsWordChar(post[0])
    ensures var b := 19 + |kind| + |q|;
      && b + |name| <= |s| && s[b..b + |name|] == name
      && b == (if 19 + |kind| < |s| && s[19 + |kind|] in Quotes then 20 + |kind| else 19 + |kind|)
      && LitAt(s, 0, "WHOLE") && LitAt(s, 6, "CODE") && LitAt(s, 11, "IN") && LitAt(s, 14, "THE")
      && RunLength(s, 5, Space) == 1 && RunLength(s, 10, Space) == 1
      && RunLength(s, 13, Space) == 1 && RunLength(s, 17, Space) == 1
      && LitAt(s, 18, kind) && RunLength(s, 18 + |kind|, Space) == 1 && RunLength(s, b, Word) == |name|
  {
    var b := 19 + |kind| + |q|;
    WholeLayout(s, kind, q, name, post);
    KindAt(s, 18, kind, q, name);
    WholeName(s, b, q, name, post);
    WholeLeadWords(s);
    WholeLeadSpaces(s);
  }

  /** A text whose search for the WHOLE pattern succeeds is a whole entry for the captured name. */
  lemma {:induction false} WholeFound(kind: string, text: string, f: Found)
    requires Search(text, WholePattern(kind)) == Some(f)
    ensures |f.m.groups| == 1 && EntryOf(kind, text) == Some(Entry(f.m.groups[0], Whole))
  {
    WholeGroups(kind);
    SearchGroups(text, WholePattern(kind));
  }

  /** A WHOLE entry text parses to the name it gives. */
  lemma {:induction false} WholeTextParses(s: string, kind: string, q: string, name: string, post: string)
    requires s == "WHOLE CODE IN THE " + kind + " " + q + name + (q + post)
    requires kind != [] && !IsSpace(kind[0]) && QuoteMark(q) && WordName(name)
    requires post == [] || !IsWordChar(post[0])
    ensures EntryOf(kind, s) == Some(Entry(name, Whole))
  {
    var b := 19 + |kind| + |q|;
    var e := b + |name|;
    WholeText(s, kind, q, name, post);
    WholeMatch(s, kind, b, e);
    var m := Match(if e < |s| && s[e] in Quotes then e + 1 else e, [name]);
    SearchAtStart(s, WholePattern(kind), m);
    WholeFound(kind, s, Found(0, 0, m));
  }


  /** A run of digits the `(\d+)` group captures whole. */
  predicate DigitRun(d: string) {
    d != [] && forall k | 0 <= k < |d| :: IsDigit(d[k])
  }

  /** A text in which the word `WHOLE` occurs nowhere, in any case. */
  predicate NoWholeWord(t: string) {
    forall j | 0 <= j <= |t| :: !LitAt(t, j, "WHOLE")
  }

  /** Where the parts of `<d1>~<d2> LINE CODE IN THE <kind> <q><name><q><post>` stand. */
  lemma {:induction false} PartialLayout(s: string, d1: string, d2: string, kind: string, q: string, name: string, post: string)
    requires s == d1 + "~" + d2 + " LINE CODE IN THE " + kind + " " + q + name + (q + post)
    ensures var c := |d1| + 1 + |d2|;
      var a, b := c + 18 + |kind|, c + 19 + |kind| + |q|;
      && |s| == b + |name| + |q| + |post| && s[..|d1|] == d1 && s[|d1|] == '~' && s[|d1| + 1..c] == d2
      && s[c..c + 18] == " LINE CODE IN THE " && s[c + 18..a] == kind && s[a] == ' '
      && s[a + 1..b] == q && s[b..b + |name|] == name && s[b + |name|..] == q + post
  {
  }

  /** The first digit run and the tilde after it. */
  lemma {:induction false} FirstBound(s: string, d1: string)
    requires |d1| < |s| && s[..|d1|] == d1 && s[|d1|] == '~' && DigitRun(d1)
    ensures RunLength(s, 0, Digit) == |d1| && RunLength(s, |d1|, Space) == 0 && LitAt(s, |d1|, "~")
  {
    var n1 := |d1|;
    assert forall k | 0 <= k < n1 :: s[k] == s[..n1][k];
    RunLengthIs(s, 0, Digit, n1);
    RunLengthIs(s, n1, Space, 0);
    assert s[n1..n1 + 1] == "~";
    LitFromSlice(s, n1, "~");
  }

  /** The second digit run, from `i` up to the space at `c`. */
  lemma {:induction false} SecondBound(s: string, d2: string, i: nat, c: nat)
    requires c == i + |d2| < |s| && s[i..c] == d2 && IsSpace(s[c]) && DigitRun(d2)
    ensures RunLength(s, i, Space) == 0 && RunLength(s, i, Digit) == |d2|
  {
    assert s[i] == s[i..c][0] == d2[0];
    RunLengthIs(s, i, Space, 0);
    assert forall k | i <= k < c :: s[k] == s[i..c][k - i];
    RunLengthIs(s, i, Digit, |d2|);
  }

  /** A slice of a slice is a slice. */
  lemma {:induction false} SliceWithin(s: string, c: nat, n: nat, i: nat, j: nat)
    requires c + n <= |s| && i <= j <= n
    ensures s[c + i..c + j] == s[c..c + n][i..j]
  {
    var u, w := s[c + i..c + j], s[c..c + n][i..j];
    assert forall k | 0 <= k < j - i :: u[k] == s[c + i + k] == w[k];
  }

  /** The literal words of ` LINE CODE IN THE ` at `c`. */
  lemma {:induction false} PartialLeadWords(s: string, c: nat)
    requires c + 18 <= |s| && s[c..c + 18] == " LINE CODE IN THE "
    ensures LitAt(s, c + 1, "LINE") && LitAt(s, c + 6, "CODE") && LitAt(s, c + 11, "IN") && LitAt(s, c + 14, "THE")
  {
    var lead := s[c..c + 18];
    SliceWithin(s, c, 18, 1, 5);
    SliceWithin(s, c, 18, 6, 10);
    SliceWithin(s, c, 18, 11, 13);
    SliceWithin(s, c, 18, 14, 17);
    assert lead[1..5] == "LINE" && lead[6..10] == "CODE" && lead[11..13] == "IN" && lead[14..17] == "THE";
    LitFromSlice(s, c + 1, "LINE");
    LitFromSlice(s, c + 6, "CODE");
    LitFromSlice(s, c + 11, "IN");
    LitFromSlice(s, c + 14, "THE");
  }

  /** The single spaces of ` LINE CODE IN THE ` at `c`. */
  lemma {:induction false} PartialLeadSpaces(s: string, c: nat)
    requires c + 18 < |s| && s[c..c + 18] == " LINE CODE IN THE " && !IsSpace(s[c + 18])
    ensures RunLength(s, c, Space) == 1 && RunLength(s, c + 5, Space) == 1 && RunLength(s, c + 10, Space) == 1
    ensures RunLength(s, c + 13, Space) == 1 && RunLength(s, c + 17, Space) == 1
  {
    var lead := s[c..c + 18];
    assert s[c] == lead[0] == ' ' && s[c + 1] == lead[1] == 'L';
    assert s[c + 5] == lead[5] == ' ' && s[c + 6] == lead[6] == 'C';
    assert s[c + 10] == lead[10] == ' ' && s[c + 11] == lead[11] == 'I';
    assert s[c + 13] == lead[13] == ' ' && s[c + 14] == lead[14] == 'T';
    assert s[c + 17] == lead[17] == ' ';
    SingleSpace(s, c);
    SingleSpace(s, c + 5);
    SingleSpace(s, c + 10);
    SingleSpace(s, c + 13);
    SingleSpace(s, c + 17);
  }

  /** The two bounds, the tilde and the space after them fit their positions. */
  lemma {:induction false} PartialPlanHead(s: string, p: Pattern, pos: seq<nat>, n1: nat, c: nat)
    requires |p| == 19 && |pos| == 20 && 0 < n1 && n1 + 1 < c < |s|
    requires p[0] == Group(Digit) && p[1] == Spaces(false) && p[2] == Lit("~")
    requires p[3] == Spaces(false) && p[4] == Group(Digit) && p[5] == Spaces(true)
    requires pos[0] == 0 && pos[1] == n1 && pos[2] == n1 && pos[3] == n1 + 1 && pos[4] == n1 + 1
    requires pos[5] == c && pos[6] == c + 1
    requires RunLength(s, 0, Digit) == n1 && RunLength(s, n1, Space) == 0 && LitAt(s, n1, "~")
    requires RunLength(s, n1 + 1, Space) == 0 && RunLength(s, n1 + 1, Digit) == c - n1 - 1
    requires RunLength(s, c, Space) == 1
    requires Planned(s, p, pos, 6)
    ensures Planned(s, p, pos, 0)
  {
    assert Planned(s, p, pos, 5);
    assert Planned(s, p, pos, 4);
    assert Planned(s, p, pos, 3);
    assert Planned(s, p, pos, 2);
    assert Planned(s, p, pos, 1);
  }

  /** The words `LINE CODE IN THE` and their spaces fit their positions. */
  lemma {:induction false} PartialPlanMid(s: string, p: Pattern, pos: seq<nat>, c: nat)
    requires |p| == 19 && |pos| == 20 && c + 18 <= |s|
    requires p[6] == Lit("LINE") && p[8] == Lit("CODE") && p[10] == Lit("IN") && p[12] == Lit("THE")
    requires p[7] == Spaces(true) && p[9] == Spaces(true) && p[11] == Spaces(true) && p[13] == Spaces(true)
    requires pos[6] == c + 1 && pos[7] == c + 5 && pos[8] == c + 6 && pos[9] == c + 10 && pos[10] == c + 11
    requires pos[11] == c + 13 && pos[12] == c + 14 && pos[13] == c + 17 && pos[14] == c + 18
    requires LitAt(s, c + 1, "LINE") && LitAt(s, c + 6, "CODE") && LitAt(s, c + 11, "IN") && LitAt(s, c + 14, "THE")
    requires RunLength(s, c + 5, Space) == 1 && RunLength(s, c + 10, Space) == 1
    requires RunLength(s, c + 13, Space) == 1 && RunLength(s, c + 17, Space) == 1
    requires Planned(s, p, pos, 14)
    ensures Planned(s, p, pos, 6)
  {
    assert Planned(s, p, pos, 13);
    assert Planned(s, p, pos, 12);
    assert Planned(s, p, pos, 11);
    assert Planned(s, p, pos, 10);
    assert Planned(s, p, pos, 9);
    assert Planned(s, p, pos, 8);
    assert Planned(s, p, pos, 7);
  }

  /** The three groups of a partial plan capture the texts between their positions. */
  lemma {:induction false} PartialCaptures(s: string, p: Pattern, pos: seq<nat>)
    requires |p| == 19 && |pos| == 20
    requires pos[0] <= pos[1] <= |s| && pos[4] <= pos[5] <= |s| && pos[17] <= pos[18] <= |s|
    requires forall k | 0 <= k < 19 :: p[k].Group? <==> k == 0 || k == 4 || k == 17
    ensures Captures(s, p, pos, 0) == [s[pos[0]..pos[1]], s[pos[4]..pos[5]], s[pos[17]..pos[18]]]
  {
    assert Captures(s, p, pos, 18) == [];
    var c3 := Captures(s, p, pos, 17);
    assert c3 == [s[pos[17]..pos[18]]];
    assert Captures(s, p, pos, 16) == c3;
    assert Captures(s, p, pos, 15) == c3;
    assert Captures(s, p, pos, 14) == c3;
    assert Captures(s, p, pos, 13) == c3;
    assert Captures(s, p, pos, 12) == c3;
    assert Captures(s, p, pos, 11) == c3;
    assert Captures(s, p, pos, 10) == c3;
    assert Captures(s, p, pos, 9) == c3;
    assert Captures(s, p, pos, 8) == c3;
    assert Captures(s, p, pos, 7) == c3;
    assert Captures(s, p, pos, 6) == c3;
    assert Captures(s, p, pos, 5) == c3;
    var c2 := Captures(s, p, pos, 4);
    assert c2 == [s[pos[4]..pos[5]]] + c3;
    assert Captures(s, p, pos, 3) == c2;
    assert Captures(s, p, pos, 2) == c2;
    assert Captures(s, p, pos, 1) == c2;
  }

  /** Where each token of the partial pattern ends, for bounds ending at `n1` and `c`. */
  function PartialPositions(s: string, kind: string, n1: nat, c: nat, b: nat, e: nat): (pos: seq<nat>)
    ensures |pos| == 20
  {
    [0, n1, n1, n1 + 1, n1 + 1, c, c + 1, c + 5, c + 6, c + 10, c + 11, c + 13, c + 14, c + 17, c + 18,
     c + 18 + |kind|, c + 19 + |kind|, b, e, if e < |s| && s[e] in Quotes then e + 1 else e]
  }

  lemma {:induction false} PartialCaptured(s: string, kind: string, n1: nat, c: nat, b: nat, e: nat)
    requires n1 + 1 <= c <= b <= e <= |s|
    ensures Captures(s, PartialPattern(kind), PartialPositions(s, kind, n1, c, b, e), 0) == [s[0..n1], s[n1 + 1..c], s[b..e]]
  {
    PartialCaptures(s, PartialPattern(kind), PartialPositions(s, kind, n1, c, b, e));
  }

  /** The kind, the optional quotes and the name, laid out from `o`, fit the last five tokens. */
  lemma {:induction false} KindPlanned(s: string, p: Pattern, pos: seq<nat>, j: nat, o: nat,
                                       kind: string, q: string, name: string, post: string)
    requires |p| == j + 5 && |pos| == |p| + 1
    requires p[j] == Lit(kind) && p[j + 1] == Spaces(true) && p[j + 2] == Maybe(Quotes)
    requires p[j + 3] == Group(Word) && p[j + 4] == Maybe(Quotes)
    requires var b := o + |kind| + 1 + |q|;
      && pos[j] == o && pos[j + 1] == o + |kind| && pos[j + 2] == o + |kind| + 1
      && pos[j + 3] == b && pos[j + 4] == b + |name|
      && b + |name| <= |s| && pos[j + 5] == (if b + |name| < |s| && s[b + |name|] in Quotes then b + |name| + 1 else b + |name|)
      && s[o..o + |kind|] == kind && s[o + |kind|] == ' ' && s[o + |kind| + 1..b] == q
      && s[b..b + |name|] == name && s[b + |name|..] == q + post
    requires kind != [] && !IsSpace(kind[0]) && QuoteMark(q) && WordName(name)
    requires post == [] || !IsWordChar(post[0])
    ensures Planned(s, p, pos, j)
  {
    var b := o + |kind| + 1 + |q|;
    KindAt(s, o, kind, q, name);
    WholeName(s, b, q, name, post);
    KindPlanTail(s, p, pos, j, o, kind, b, b + |name|);
  }

  /** The words ` LINE CODE IN THE ` at `c` fit tokens 5 to 13 of the partial pattern. */
  lemma {:induction false} LeadPlanned(s: string, p: Pattern, pos: seq<nat>, c: nat)
    requires |p| == 19 && |pos| == 20 && c + 18 < |s|
    requires s[c..c + 18] == " LINE CODE IN THE " && !IsSpace(s[c + 18])
    requires p[6] == Lit("LINE") && p[8] == Lit("CODE") && p[10] == Lit("IN") && p[12] == Lit("THE")
    requires p[7] == Spaces(true) && p[9] == Spaces(true) && p[11] == Spaces(true) && p[13] == Spaces(true)
    requires pos[6] == c + 1 && pos[7] == c + 5 && pos[8] == c + 6 && pos[9] == c + 10 && pos[10] == c + 11
    requires pos[11] == c + 13 && pos[12] == c + 14 && pos[13] == c + 17 && pos[14] == c + 18
    requires Planned(s, p, pos, 14)
    ensures Planned(s, p, pos, 6) && RunLength(s, c, Space) == 1
  {
    PartialLeadWords(s, c);
    PartialLeadSpaces(s, c);
    PartialPlanMid(s, p, pos, c);
  }

  /** The bounds `<d1>~<d2>` and the space after them fit the first six tokens. */
  lemma {:induction false} BoundsPlanned(s: string, p: Pattern, pos: seq<nat>, d1: string, d2: string, c: nat)
    requires |p| == 19 && |pos| == 20 && c == |d1| + 1 + |d2| < |s|
    requires s[..|d1|] == d1 && s[|d1|] == '~' && s[|d1| + 1..c] == d2 && RunLength(s, c, Space) == 1
    requires DigitRun(d1) && DigitRun(d2)
    requires p[0] == Group(Digit) && p[1] == Spaces(false) && p[2] == Lit("~")
    requires p[3] == Spaces(false) && p[4] == Group(Digit) && p[5] == Spaces(true)
    requires pos[0] == 0 && pos[1] == |d1| && pos[2] == |d1| && pos[3] == |d1| + 1 && pos[4] == |d1| + 1
    requires pos[5] == c && pos[6] == c + 1
    requires Planned(s, p, pos, 6)
    ensures Planned(s, p, pos, 0)
  {
    FirstBound(s, d1);
    SecondBound(s, d2, |d1| + 1, c);
    PartialPlanHead(s, p, pos, |d1|, c);
  }

  /** The tokens of the partial pattern for `kind`, one by one. */
  predicate PartialShaped(p: Pattern, kind: string) {
    && |p| == 19 && p[0] == Group(Digit) && p[1] == Spaces(false) && p[2] == Lit("~")
    && p[3] == Spaces(false) && p[4] == Group(Digit) && p[5] == Spaces(true)
    && p[6] == Lit("LINE") && p[8] == Lit("CODE") && p[10] == Lit("IN") && p[12] == Lit("THE")
    && p[7] == Spaces(true) && p[9] == Spaces(true) && p[11] == Spaces(true) && p[13] == Spaces(true)
    && p[14] == Lit(kind) && p[15] == Spaces(true) && p[16] == Maybe(Quotes)
    && p[17] == Group(Word) && p[18] == Maybe(Quotes)
  }

  /** The positions of a partial plan, one by one. */
  predicate PartialPlaced(pos: seq<nat>, kind: string, n1: nat, c: nat, b: nat, e: nat, last: nat) {
    && |pos| == 20
    && pos[0] == 0 && pos[1] == n1 && pos[2] == n1 && pos[3] == n1 + 1 && pos[4] == n1 + 1
    && pos[5] == c && pos[6] == c + 1
    && pos[7] == c + 5 && pos[8] == c + 6 && pos[9] == c + 10 && pos[10] == c + 11
    && pos[11] == c + 13 && pos[12] == c + 14 && pos[13] == c + 17 && pos[14] == c + 18
    && pos[15] == c + 18 + |kind| && pos[16] == c + 19 + |kind| && pos[17] == b && pos[18] == e && pos[19] == last
  }

  lemma PartialShapeOf(kind: string)
    ensures PartialShaped(PartialPattern(kind), kind)
  {
  }

  lemma PartialPlacedOf(s: string, kind: string, n1: nat, c: nat, b: nat, e: nat)
    ensures PartialPlaced(PartialPositions(s, kind, n1, c, b, e), kind, n1, c, b, e, if e < |s| && s[e] in Quotes then e + 1 else e)
  {
  }

  /** Every token of a partial pattern fits its position in a partial entry text laid out as given. */
  lemma {:induction false} PartialPlan(s: string, p: Pattern, pos: seq<nat>, d1: string, d2: string, kind: string, q: string, name: string, post: string)
    requires var c := |d1| + 1 + |d2|;
      var a, b := c + 18 + |kind|, c + 19 + |kind| + |q|;
      && |s| == b + |name| + |q| + |post| && s[..|d1|] == d1 && s[|d1|] == '~' && s[|d1| + 1..c] == d2
      && s[c..c + 18] == " LINE CODE IN THE " && s[c + 18..a] == kind && s[a] == ' '
      && s[a + 1..b] == q && s[b..b + |name|] == name && s[b + |name|..] == q + post
      && PartialShaped(p, kind)
      && PartialPlaced(pos, kind, |d1|, c, b, b + |name|, if b + |name| < |s| && s[b + |name|] in Quotes then b + |name| + 1 else b + |name|)
    requires DigitRun(d1) && DigitRun(d2)
    requires kind != [] && !IsSpace(kind[0]) && QuoteMark(q) && WordName(name)
    requires post == [] || !IsWordChar(post[0])
    ensures Planned(s, p, pos, 0)
  {
    var n1, c := |d1|, |d1| + 1 + |d2|;
    assert s[c + 18] == s[c + 18..c + 18 + |kind|][0] == kind[0];
    KindPlanned(s, p, pos, 14, c + 18, kind, q, name, post);
    LeadPlanned(s, p, pos, c);
    BoundsPlanned(s, p, pos, d1, d2, c);
  }

  /** The partial pattern matches at the start of a partial entry text, capturing its bounds and name. */
  lemma {:induction false} PartialMatch(s: string, d1: string, d2: string, kind: string, q: string, name: string, post: string)
    requires s == d1 + "~" + d2 + " LINE CODE IN THE " + kind + " " + q + name + (q + post)
    requires DigitRun(d1) && DigitRun(d2)
    requires kind != [] && !IsSpace(kind[0]) && QuoteMark(q) && WordName(name)
    requires post == [] || !IsWordChar(post[0])
    ensures var e := |d1| + 1 + |d2| + 19 + |kind| + |q| + |name|;
      && e <= |s|
      && MatchAt(s, 0, PartialPattern(kind)) == Some(Match(if e < |s| && s[e] in Quotes then e + 1 else e, [d1, d2, name]))
  {
    var n1, c := |d1|, |d1| + 1 + |d2|;
    var b := c + 19 + |kind| + |q|;
    var e := b + |name|;
    PartialLayout(s, d1, d2, kind, q, name, post);
    PartialShapeOf(kind);
    PartialPlacedOf(s, kind, n1, c, b, e);
    PartialPlan(s, PartialPattern(kind), PartialPositions(s, kind, n1, c, b, e), d1, d2, kind, q, name, post);
    MatchPlan(s, PartialPattern(kind), PartialPositions(s, kind, n1, c, b, e), 0);
    PartialCaptured(s, kind, n1, c, b, e);
  }

  /** Without the word `WHOLE` the WHOLE pattern is found nowhere. */
  lemma {:induction false} WholeAbsent(s: string, kind: string)
    requires NoWholeWord(s)
    ensures Search(s, WholePattern(kind)) == None
  {
    assert WholePattern(kind)[0] == Lit("WHOLE");
    SearchNeedsLead(s, WholePattern(kind));
  }

  /** A text where the WHOLE pattern is absent and the partial one found is a partial entry. */
  lemma {:induction false} PartialFound(kind: string, text: string, f: Found)
    requires Search(text, WholePattern(kind)) == None && Search(text, PartialPattern(kind)) == Some(f)
    ensures |f.m.groups| == 3
    ensures EntryOf(kind, text) == Some(Entry(f.m.groups[2], Partial(DecimalValue(f.m.groups[0]), DecimalValue(f.m.groups[1]))))
  {
    PartialGroups(kind);
    SearchGroups(text, PartialPattern(kind));
  }

  /** The partial pattern is found at the start of a partial entry text, with its three groups. */
  lemma {:induction false} PartialSearched(s: string, d1: string, d2: string, kind: string, q: string, name: string, post: string)
      returns (f: Found)
    requires s == d1 + "~" + d2 + " LINE CODE IN THE " + kind + " " + q + name + (q + post)
    requires DigitRun(d1) && DigitRun(d2)
    requires kind != [] && !IsSpace(kind[0]) && QuoteMark(q) && WordName(name)
    requires post == [] || !IsWordChar(post[0])
    ensures Search(s, PartialPattern(kind)) == Some(f) && f.m.groups == [d1, d2, name]
  {
    var e := |d1| + 1 + |d2| + 19 + |kind| + |q| + |name|;
    PartialMatch(s, d1, d2, kind, q, name, post);
    var m := Match(if e < |s| && s[e] in Quotes then e + 1 else e, [d1, d2, name]);
    SearchAtStart(s, PartialPattern(kind), m);
    f := Found(0, 0, m);
  }

  /** A partial entry text in which the WHOLE pattern is found nowhere parses to its name and bounds. */
  lemma {:induction false} PartialEntryFound(s: string, d1: string, d2: string, kind: string, q: string, name: string, post: string)
    requires s == d1 + "~" + d2 + " LINE CODE IN THE " + kind + " " + q + name + (q + post)
    requires DigitRun(d1) && DigitRun(d2)
    requires kind != [] && !IsSpace(kind[0]) && QuoteMark(q) && WordName(name)
    requires post == [] || !IsWordChar(post[0])
    requires Search(s, WholePattern(kind)) == None
    ensures EntryOf(kind, s) == Some(Entry(name, Partial(DecimalValue(d1), DecimalValue(d2))))
  {
    var f := PartialSearched(s, d1, d2, kind, q, name, post);
    PartialFound(kind, s, f);
  }

  /** A partial entry text without the word WHOLE parses to its name and its two bounds. */
  lemma {:induction false} PartialTextParses(s: string, d1: string, d2: string, kind: string, q: string, name: string, post: string)
    requires s == d1 + "~" + d2 + " LINE CODE IN THE " + kind + " " + q + name + (q + post)
    requires DigitRun(d1) && DigitRun(d2)
    requires kind != [] && !IsSpace(kind[0]) && QuoteMark(q) && WordName(name)
    requires post == [] || !IsWordChar(post[0])
    requires NoWholeWord(s)
    ensures EntryOf(kind, s) == Some(Entry(name, Partial(DecimalValue(d1), DecimalValue(d2))))
  {
    WholeAbsent(s, kind);
    PartialEntryFound(s, d1, d2, kind, q, name, post);
  }

  /**
   * The WHOLE pattern is found nowhere in a text whose `w`s, if any, all lie in a tail
   * without whitespace: `WHOLE` would have to be followed by whitespace there.
   */
  lemma {:induction false} WholeNowhere(s: string, h: string, z: string, kind: string)
    requires s == h + z && 'w' !in h && 'W' !in h && forall k | 0 <= k < |z| :: !IsSpace(z[k])
    ensures Search(s, WholePattern(kind)) == None
  {
    var p := WholePattern(kind);
    assert p[0] == Lit("WHOLE") && p[1] == Spaces(true) && [p][0] == p;
    assert forall k | 0 <= k < |h| :: Lower(s[k]) != 'w' by {
      forall k | 0 <= k < |h| ensures Lower(s[k]) != 'w' {
        assert s[k] == h[k] && h[k] in h;
      }
    }
    assert forall k | |h| <= k < |s| :: !IsSpace(s[k]) by {
      forall k | |h| <= k < |s| ensures !IsSpace(s[k]) {
        assert s[k] == z[k - |h|];
      }
    }
    forall j | 0 <= j <= |s|
      ensures MatchFirstAt(s, j, [p]).None?
    {
      if LitAt(s, j, "WHOLE") {
        assert Lower(s[j + 0]) == Lower("WHOLE"[0]);
        assert RunLength(s, j + 5, Space) == 0;
      }
      assert MatchTokens(s, j, p, 0).None?;
    }
    SearchFromNone(s, [p], 0);
  }

  // ---------------------------------------------------------------------------------
  // Entry lines that parse
  // ---------------------------------------------------------------------------------

  /** `lstrip("- ")` takes exactly the dash and the space off `- <s>` when `s` starts with neither. */
  lemma DashSpaceStripped(s: string)
    requires s != [] && s[0] != '-' && s[0] != ' '
    ensures LStripChars("- " + s, "- ") == s
  {
    var chars := "- ";
    assert chars == ['-', ' '];
    assert s[0] !in chars;
    PairStripped('-', ' ', s, chars);
  }

  /** `lstrip` takes two leading characters from `chars` off a text that starts outside it. */
  lemma PairStripped(x: char, y: char, s: string, chars: string)
    requires x in chars && y in chars && (s == [] || s[0] !in chars)
    ensures LStripChars([x, y] + s, chars) == s
  {
    var line := [x, y] + s;
    assert line[1..] == [y] + s && ([y] + s)[1..] == s;
    LStripStep(line, chars);
    LStripStep([y] + s, chars);
    LStripStop(s, chars);
  }

  /** `- <s>` has no newline and no whitespace at its ends when `s` has none. */
  lemma DashLineShape(s: string)
    requires s != [] && NoEdgeSpace(s) && '\n' !in s
    ensures var line := "- " + s;
      '\n' !in line && NoEdgeSpace(line) && line[0] == '-' && line[..1] == "-"
  {
    var line := "- " + s;
    assert forall c | c in line :: c == '-' || c == ' ' || c in s;
    assert line[|line| - 1] == s[|s| - 1];
  }

  /**
   * A `- ` line whose text starts with neither a dash nor a space and has no whitespace at
   * its ends is an entry line, and its entry text is that text.
   */
  lemma EntryLine(st: ParseState, s: string)
    requires s != [] && s[0] != '-' && NoEdgeSpace(s) && '\n' !in s
    ensures '\n' !in "- " + s
    ensures ParseLine(st, "- " + s) == AddEntry(st, "- " + s)
    ensures EntryText("- " + s) == s
  {
    DashLineShape(s);
    EntryLineRoute(st, "- " + s);
    DashSpaceStripped(s);
    TrimNoEdge(s);
  }

  /** A line that starts with a dash and has no whitespace at its ends goes to `AddEntry`. */
  lemma EntryLineRoute(st: ParseState, line: string)
    requires '\n' !in line && NoEdgeSpace(line) && line != [] && line[0] == '-' && line[..1] == "-"
    ensures ParseLine(st, line) == AddEntry(st, line)
  {
    TrimNoEdge(line);
    NotSectionLine(line);
  }

  /** The text of a WHOLE entry has no newline and no whitespace at its ends. */
  lemma {:induction false} WholeEntryShape(kind: string, q: string, name: string)
    requires '\n' !in kind && QuoteMark(q) && WordName(name)
    ensures var s := "WHOLE CODE IN THE " + kind + " " + q + name + q;
      s[0] == 'W' && NoEdgeSpace(s) && '\n' !in s
  {
    var s := "WHOLE CODE IN THE " + kind + " " + q + name + q;
    var lead := "WHOLE CODE IN THE " + kind + " ";
    assert s == lead + (q + name + q);
    TailShape(lead, q, name);
  }

  /** `<q><name><q>` after a head without a newline: no newline, and its end is not whitespace. */
  lemma {:induction false} TailShape(head: string, q: string, name: string)
    requires '\n' !in head && QuoteMark(q) && WordName(name)
    ensures var s := head + (q + name + q);
      '\n' !in s && !IsSpace(s[|s| - 1])
  {
    var t := q + name + q;
    var s := head + t;
    assert forall k | 0 <= k < |t| :: t[k] in Quotes || IsWordChar(t[k]) by {
      forall k | 0 <= k < |t| ensures t[k] in Quotes || IsWordChar(t[k]) {
        if k < |q| {
          assert t[k] == q[k];
        } else if k < |q| + |name| {
          assert t[k] == name[k - |q|];
        } else {
          assert t[k] == q[k - |q| - |name|];
        }
      }
    }
    assert '\n' !in s by {
      forall k | 0 <= k < |s| ensures s[k] != '\n' {
        if k < |head| {
          assert s[k] == head[k] && head[k] in head;
        } else {
          assert s[k] == t[k - |head|];
        }
      }
    }
    assert s[|s| - 1] == t[|t| - 1];
  }

  /** The word an entry line names the kind of each entry section with. */
  function KindWord(section: Section): string
    requires section != Libraries
  {
    match section
    case Methods => "METHOD"
    case Structs => "STRUCT"
    case Traits => "TRAIT"
  }

  /** The state with `e` appended to the list of `section`. */
  function Appended(st: ParseState, section: Section, e: Entry): ParseState
    requires section != Libraries
  {
    match section
    case Methods => st.(methods := st.methods + [e])
    case Structs => st.(structs := st.structs + [e])
    case Traits => st.(traits := st.traits + [e])
  }

  /** In a method, struct or trait section, the line `- <s>` appends the entry that `s` yields. */
  lemma KindLineAdds(st: ParseState, section: Section, s: string, line: string, e: Entry)
    requires section != Libraries && st.section == Some(section)
    requires s != [] && s[0] != '-' && NoEdgeSpace(s) && '\n' !in s && line == "- " + s
    requires EntryOf(KindWord(section), s) == Some(e)
    ensures '\n' !in line && ParseLine(st, line) == Appended(st, section, e)
  {
    EntryLine(st, s);
  }

  /** The dash and space of an entry line in front of the fixed start of a whole-method text. */
  lemma DashedHeads()
    ensures "- WHOLE CODE IN THE METHOD " == "- " + "WHOLE CODE IN THE METHOD "
  {
  }

  /** A dash and a space in front of `<head><q><name><q>`, with the dash joined to the head. */
  lemma DashJoin(s: string, head: string, dashHead: string, q: string, name: string)
    requires s == head + q + name + q && dashHead == "- " + head
    ensures "- " + s == dashHead + q + name + q
  {
  }

  /**
   * In the method section, the line `- WHOLE CODE IN THE METHOD <q><name><q>` appends the
   * whole-method entry for `name`, and changes nothing else.
   */
  lemma WholeMethodLine(st: ParseState, q: string, name: string)
    requires st.section == Some(Methods) && QuoteMark(q) && WordName(name)
    ensures '\n' !in "- WHOLE CODE IN THE METHOD " + q + name + q
    ensures ParseLine(st, "- WHOLE CODE IN THE METHOD " + q + name + q) ==
      st.(methods := st.methods + [Entry(name, Whole)])
  {
    var s := "WHOLE CODE IN THE METHOD " + q + name + q;
    WholeMethodText(s, q, name);
    DashedHeads();
    DashJoin(s, "WHOLE CODE IN THE METHOD ", "- WHOLE CODE IN THE METHOD ", q, name);
    KindLineAdds(st, Methods, s, "- WHOLE CODE IN THE METHOD " + q + name + q, Entry(name, Whole));
  }

  /** The text of a whole-method entry line is an entry text that yields the whole entry. */
  lemma WholeMethodText(s: string, q: string, name: string)
    requires s == "WHOLE CODE IN THE METHOD " + q + name + q && QuoteMark(q) && WordName(name)
    ensures s != [] && s[0] != '-' && NoEdgeSpace(s) && '\n' !in s
    ensures EntryOf("METHOD", s) == Some(Entry(name, Whole))
  {
    WholeEntryShape("METHOD", q, name);
    assert s == "WHOLE CODE IN THE " + "METHOD" + " " + q + name + (q + "");
    WholeTextParses(s, "METHOD", q, name, "");
  }

  /** `<d1>~<d2> LINE CODE IN THE <kind> ` holds no newline. */
  lemma {:induction false} PartialHeadShape(d1: string, d2: string, kind: string)
    requires DigitRun(d1) && DigitRun(d2) && '\n' !in kind
    ensures '\n' !in d1 + "~" + d2 + " LINE CODE IN THE " + kind + " "
  {
    var head := d1 + "~" + d2 + " LINE CODE IN THE " + kind + " ";
    var c := |d1| + 1 + |d2| + 18;
    forall k | 0 <= k < |head| ensures head[k] != '\n' {
      if k < |d1| {
        assert head[k] == d1[k];
      } else if |d1| < k < |d1| + 1 + |d2| {
        assert head[k] == d2[k - |d1| - 1];
      } else if c <= k < c + |kind| {
        assert head[k] == kind[k - c];
      }
    }
  }

  /**
   * In the struct section, the line `- <d1>~<d2> LINE CODE IN THE STRUCT <q><name><q>`
   * appends the partial-struct entry for `name` with its two bounds, when the word WHOLE
   * does not occur in its text.
   */
  lemma PartialStructLine(st: ParseState, d1: string, d2: string, q: string, name: string)
    requires st.section == Some(Structs) && DigitRun(d1) && DigitRun(d2) && QuoteMark(q) && WordName(name)
    requires NoWholeWord(d1 + "~" + d2 + " LINE CODE IN THE STRUCT " + q + name + q)
    ensures '\n' !in "- " + d1 + "~" + d2 + " LINE CODE IN THE STRUCT " + q + name + q
    ensures ParseLine(st, "- " + d1 + "~" + d2 + " LINE CODE IN THE STRUCT " + q + name + q) ==
      st.(structs := st.structs + [Entry(name, Partial(DecimalValue(d1), DecimalValue(d2)))])
  {
    var head := d1 + "~" + d2 + " LINE CODE IN THE STRUCT ";
    var s := head + q + name + q;
    var e := Entry(name, Partial(DecimalValue(d1), DecimalValue(d2)));
    assert s == d1 + "~" + d2 + " LINE CODE IN THE STRUCT " + q + name + q;
    PartialStructText(s, d1, d2, q, name);
    DashJoin(s, head, "- " + d1 + "~" + d2 + " LINE CODE IN THE STRUCT ", q, name);
    KindLineAdds(st, Structs, s, "- " + d1 + "~" + d2 + " LINE CODE IN THE STRUCT " + q + name + q, e);
  }

  /** The text of a partial-struct entry line is an entry text that yields the partial entry. */
  lemma PartialStructText(s: string, d1: string, d2: string, q: string, name: string)
    requires s == d1 + "~" + d2 + " LINE CODE IN THE STRUCT " + q + name + q
    requires DigitRun(d1) && DigitRun(d2) && QuoteMark(q) && WordName(name) && NoWholeWord(s)
    ensures s != [] && s[0] != '-' && NoEdgeSpace(s) && '\n' !in s
    ensures EntryOf("STRUCT", s) == Some(Entry(name, Partial(DecimalValue(d1), DecimalValue(d2))))
  {
    assert s == d1 + "~" + d2 + " LINE CODE IN THE " + "STRUCT" + " " + q + name + q;
    WholeAbsent(s, "STRUCT");
    PartialKindText(s, d1, d2, "STRUCT", q, name);
  }

  /** The text of a whole entry line of any kind yields the whole entry. */
  lemma WholeKindText(s: string, kind: string, q: string, name: string)
    requires s == "WHOLE CODE IN THE " + kind + " " + q + name + q
    requires kind != [] && !IsSpace(kind[0]) && '\n' !in kind && QuoteMark(q) && WordName(name)
    ensures s != [] && s[0] != '-' && NoEdgeSpace(s) && '\n' !in s
    ensures EntryOf(kind, s) == Some(Entry(name, Whole))
  {
    WholeEntryShape(kind, q, name);
    assert s == "WHOLE CODE IN THE " + kind + " " + q + name + (q + "");
    WholeTextParses(s, kind, q, name, "");
  }

  /** The text of a partial entry line of any kind, where WHOLE is not found, yields the partial entry. */
  lemma PartialKindText(s: string, d1: string, d2: string, kind: string, q: string, name: string)
    requires s == d1 + "~" + d2 + " LINE CODE IN THE " + kind + " " + q + name + q
    requires DigitRun(d1) && DigitRun(d2) && QuoteMark(q) && WordName(name)
    requires kind != [] && !IsSpace(kind[0]) && '\n' !in kind
    requires Search(s, WholePattern(kind)) == None
    ensures s != [] && s[0] != '-' && NoEdgeSpace(s) && '\n' !in s
    ensures EntryOf(kind, s) == Some(Entry(name, Partial(DecimalValue(d1), DecimalValue(d2))))
  {
    PartialEntryShape(s, d1, d2, kind, q, name);
    assert q + "" == q;
    PartialEntryFound(s, d1, d2, kind, q, name, "");
  }

  /** A partial entry text starts with a digit, ends with a quote and holds no newline. */
  lemma {:induction false} PartialEntryShape(s: string, d1: string, d2: string, kind: string, q: string, name: string)
    requires s == d1 + "~" + d2 + " LINE CODE IN THE " + kind + " " + q + name + q
    requires DigitRun(d1) && DigitRun(d2) && QuoteMark(q) && WordName(name) && '\n' !in kind
    ensures s != [] && s[0] != '-' && NoEdgeSpace(s) && '\n' !in s
  {
    var head := d1 + "~" + d2 + " LINE CODE IN THE " + kind + " ";
    assert s == head + (q + name + q);
    PartialHeadShape(d1, d2, kind);
    TailShape(head, q, name);
    assert s[0] == d1[0];
  }

  /** A text without the letter `w` in either case holds no `WHOLE`. */
  lemma NoLetterNoWhole(t: string)
    requires forall k | 0 <= k < |t| :: Lower(t[k]) != 'w'
    ensures NoWholeWord(t)
  {
    forall j | 0 <= j <= |t| ensures !LitAt(t, j, "WHOLE") {
      if j < |t| {
        assert Lower(t[j + 0]) != Lower("WHOLE"[0]);
      }
    }
  }

  /** A typical whole-method line, in the method section. */
  lemma MethodLineExample(st: ParseState)
    requires st.section == Some(Methods)
    ensures var line := "- WHOLE CODE IN THE METHOD `foo`";
      '\n' !in line && ParseLine(st, line) == st.(methods := st.methods + [Entry("foo", Whole)])
  {
    assert "- WHOLE CODE IN THE METHOD " + "`" + "foo" + "`" == "- WHOLE CODE IN THE METHOD `foo`";
    WholeMethodLine(st, "`", "foo");
  }

  /** The example struct line, cut into the parts `PartialStructLine` names. */
  lemma StructExampleParts()
    ensures "- 12~34 LINE CODE IN THE STRUCT Bar" == "- " + "12" + "~" + "34" + " LINE CODE IN THE STRUCT " + "" + "Bar" + ""
  {
  }

  /** The example struct text holds no `WHOLE`. */
  lemma StructExampleNoWhole()
    ensures NoWholeWord("12" + "~" + "34" + " LINE CODE IN THE STRUCT " + "" + "Bar" + "")
  {
    NoLetterNoWhole("12" + "~" + "34" + " LINE CODE IN THE STRUCT " + "" + "Bar" + "");
  }

  /** A typical partial-struct line, in the struct section. */
  lemma StructLineExample(st: ParseState)
    requires st.section == Some(Structs)
    ensures var line := "- 12~34 LINE CODE IN THE STRUCT Bar";
      '\n' !in line && ParseLine(st, line) == st.(structs := st.structs + [Entry("Bar", Partial(12, 34))])
  {
    StructExampleParts();
    StructExampleNoWhole();
    PartialStructLine(st, "12", "34", "", "Bar");
    DecimalExamples();
  }
}
