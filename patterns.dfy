/**
 * The fixed regular expressions of the annotation engine and of the hook, written as
 * token sequences that are matched from a position, and Python's `re.search`: the
 * leftmost position at which one of the alternatives matches.
 *
 * Every greedy run in these patterns (`\s+`, `\s*`, `\d+`, `\w+`, an optional quote or
 * `%`) is followed by a token whose first character cannot belong to that run, so a
 * regex engine never needs to backtrack into a run; matching each token greedily and
 * failing at the first token that does not fit gives the same match and the same
 * groups. Letters compare ASCII case-insensitively, as under `re.IGNORECASE`.
 */
module Patterns {
  import opened Wrappers
  import opened Strings

  datatype CharClass = Space | Digit | Word | NonSpace | Exactly(c: char)

  /** `\s`, `\d`, `\w` and `\S` on ASCII, and a single given character. */
  predicate InClass(c: char, cls: CharClass) {
    match cls
    case Space => IsSpace(c)
    case Digit => IsDigit(c)
    case Word => IsWordChar(c)
    case NonSpace => !IsSpace(c)
    case Exactly(d) => c == d
  }

  /** Length of the longest run of characters of class `cls` that starts at `i`. */
  function RunLength(s: string, i: nat, cls: CharClass): (n: nat)
    requires i <= |s|
    ensures i + n <= |s|
    ensures forall k | i <= k < i + n :: InClass(s[k], cls)
    ensures i + n == |s| || !InClass(s[i + n], cls)
    decreases |s| - i
  {
    if i < |s| && InClass(s[i], cls) then 1 + RunLength(s, i + 1, cls) else 0
  }

  datatype Token =
    | Lit(text: string)         // the text itself, ASCII case-insensitively
    | Spaces(atLeastOne: bool)  // `\s+` when atLeastOne, else `\s*`
    | Maybe(choices: string)    // `[...]?`: one of the choices, or nothing
    | Group(cls: CharClass)     // `(\d+)` or `(\w+)`: a captured non-empty run

  type Pattern = seq<Token>

  /** Where a match ends and what its groups captured, in order. */
  datatype Match = Match(end: nat, groups: seq<string>)

  /** The literal `t` occurs at position `i` of `s`, ignoring ASCII case. */
  predicate LitAt(s: string, i: nat, t: string) {
    i + |t| <= |s| && forall k | 0 <= k < |t| :: Lower(s[i + k]) == Lower(t[k])
  }

  /** How many capturing groups the tokens `p[k..]` hold. */
  function GroupsFrom(p: Pattern, k: nat): nat
    decreases |p| - k
  {
    if k >= |p| then 0 else (if p[k].Group? then 1 else 0) + GroupsFrom(p, k + 1)
  }

  function GroupCount(p: Pattern): nat {
    GroupsFrom(p, 0)
  }

  /** Matches the tokens `p[k..]` one after the other from position `i`. */
  function MatchTokens(s: string, i: nat, p: Pattern, k: nat): (r: Option<Match>)
    requires i <= |s| && k <= |p|
    ensures r.Some? ==> i <= r.value.end <= |s| && |r.value.groups| == GroupsFrom(p, k)
    ensures r.Some? ==> forall g | 0 <= g < |r.value.groups| :: r.value.groups[g] != []
    decreases |p| - k
  {
    if k == |p| then Some(Match(i, []))
    else match p[k]
      case Lit(t) =>
        if LitAt(s, i, t) then MatchTokens(s, i + |t|, p, k + 1) else None
      case Spaces(atLeastOne) =>
        var n := RunLength(s, i, Space);
        if atLeastOne && n == 0 then None else MatchTokens(s, i + n, p, k + 1)
      case Maybe(choices) =>
        if i < |s| && s[i] in choices then MatchTokens(s, i + 1, p, k + 1) else MatchTokens(s, i, p, k + 1)
      case Group(cls) =>
        var n := RunLength(s, i, cls);
        if n == 0 then None
        else match MatchTokens(s, i + n, p, k + 1)
          case None => None
          case Some(m) => Some(Match(m.end, [s[i..i + n]] + m.groups))
  }

  /** Matches the whole pattern `p` from position `i`: the match and its groups, or `None`. */
  function MatchAt(s: string, i: nat, p: Pattern): (r: Option<Match>)
    requires i <= |s|
    ensures r.Some? ==> i <= r.value.end <= |s| && |r.value.groups| == GroupCount(p)
    ensures r.Some? ==> forall g | 0 <= g < |r.value.groups| :: r.value.groups[g] != []
  {
    MatchTokens(s, i, p, 0)
  }

  /** `RunLength` is characterised by its contract: any run length meeting it is the one. */
  lemma {:induction false} RunLengthIs(s: string, i: nat, cls: CharClass, n: nat)
    requires i + n <= |s|
    requires forall k | i <= k < i + n :: InClass(s[k], cls)
    requires i + n == |s| || !InClass(s[i + n], cls)
    ensures RunLength(s, i, cls) == n
    decreases n
  {
    if n > 0 {
      RunLengthIs(s, i + 1, cls, n - 1);
    }
  }

  /** Token `t`, matched greedily from `i`, ends at `j`. */
  predicate Fits(s: string, i: nat, t: Token, j: nat) {
    i <= |s| &&
    match t
    case Lit(x) => LitAt(s, i, x) && j == i + |x|
    case Spaces(atLeastOne) => j == i + RunLength(s, i, Space) && (!atLeastOne || j > i)
    case Maybe(choices) => j == (if i < |s| && s[i] in choices then i + 1 else i)
    case Group(cls) => j == i + RunLength(s, i, cls) && j > i
  }

  /** What the group tokens of `p[k..]` capture when token `j` spans `pos[j]` to `pos[j + 1]`. */
  function Captures(s: string, p: Pattern, pos: seq<nat>, k: nat): seq<string>
    requires |pos| == |p| + 1
    decreases |p| - k
  {
    if k >= |p| then []
    else
      var here := if p[k].Group? && pos[k] <= pos[k + 1] <= |s| then [s[pos[k]..pos[k + 1]]] else [];
      here + Captures(s, p, pos, k + 1)
  }

  /** A captured text in front of the groups of a match. */
  function Prepend(text: string, r: Option<Match>): Option<Match> {
    match r
    case None => None
    case Some(m) => Some(Match(m.end, [text] + m.groups))
  }

  /** One token that fits: the match goes on from where the token ends. */
  lemma TokenStep(s: string, p: Pattern, k: nat, i: nat, j: nat)
    requires k < |p| && Fits(s, i, p[k], j)
    ensures i <= j <= |s|
    ensures !p[k].Group? ==> MatchTokens(s, i, p, k) == MatchTokens(s, j, p, k + 1)
    ensures p[k].Group? ==> MatchTokens(s, i, p, k) == Prepend(s[i..j], MatchTokens(s, j, p, k + 1))
  {
  }

  /** A slice of `s` equal to `t` is an occurrence of `t`. */
  lemma LitFromSlice(s: string, i: nat, t: string)
    requires i + |t| <= |s| && s[i..i + |t|] == t
    ensures LitAt(s, i, t)
  {
    var u := s[i..i + |t|];
    assert forall k | 0 <= k < |t| :: t[k] == u[k] == s[i + k];
  }

  /** A space followed by something else is a run of one space. */
  lemma SingleSpace(s: string, i: nat)
    requires i < |s| && s[i] == ' ' && (i + 1 == |s| || !IsSpace(s[i + 1]))
    ensures RunLength(s, i, Space) == 1
  {
    RunLengthIs(s, i, Space, 1);
  }

  /** Every token from `k` on fits between consecutive positions of `pos`. */
  predicate Planned(s: string, p: Pattern, pos: seq<nat>, k: nat)
    requires |pos| == |p| + 1
    decreases |p| - k
  {
    k >= |p| || (Fits(s, pos[k], p[k], pos[k + 1]) && Planned(s, p, pos, k + 1))
  }

  /**
   * When every token from `k` on fits between consecutive positions, the match from
   * `pos[k]` ends at the last position and captures what the groups span.
   */
  lemma {:induction false} MatchPlan(s: string, p: Pattern, pos: seq<nat>, k: nat)
    requires |pos| == |p| + 1 && k <= |p| && pos[k] <= |s|
    requires Planned(s, p, pos, k)
    ensures MatchTokens(s, pos[k], p, k) == Some(Match(pos[|p|], Captures(s, p, pos, k)))
    decreases |p| - k
  {
    if k < |p| {
      TokenStep(s, p, k, pos[k], pos[k + 1]);
      MatchPlan(s, p, pos, k + 1);
      if !p[k].Group? {
        var rest := Captures(s, p, pos, k + 1);
        assert [] + rest == rest;
      }
    }
  }

  /** The first of the alternatives `alts` that matches at `i`, with its index. */
  function MatchFirstAt(s: string, i: nat, alts: seq<Pattern>): (r: Option<(nat, Match)>)
    requires i <= |s|
    ensures r.Some? ==> r.value.0 < |alts| && MatchAt(s, i, alts[r.value.0]) == Some(r.value.1)
    ensures r.Some? ==> forall b | 0 <= b < r.value.0 :: MatchAt(s, i, alts[b]).None?
    ensures r.None? ==> forall b | 0 <= b < |alts| :: MatchAt(s, i, alts[b]).None?
    decreases |alts|
  {
    if alts == [] then None
    else match MatchAt(s, i, alts[0])
      case Some(m) => Some((0, m))
      case None =>
        match MatchFirstAt(s, i, alts[1..])
        case None => None
        case Some(found) => Some((found.0 + 1, found.1))
  }

  /** A successful search: the position, the alternative that matched there, the match. */
  datatype Found = Found(start: nat, alt: nat, m: Match)

  /**
   * `re.search` from position `from`: the leftmost position at which some alternative
   * matches, and the first alternative that matches there.
   */
  function SearchFrom(s: string, alts: seq<Pattern>, from: nat): (r: Option<Found>)
    requires from <= |s|
    ensures r.Some? ==> from <= r.value.start <= |s|
    ensures r.Some? ==> MatchFirstAt(s, r.value.start, alts) == Some((r.value.alt, r.value.m))
    decreases |s| - from
  {
    match MatchFirstAt(s, from, alts)
    case Some(found) => Some(Found(from, found.0, found.1))
    case None => if from == |s| then None else SearchFrom(s, alts, from + 1)
  }

  /** Nothing matches before the position the search returns, nor anywhere when it fails. */
  lemma {:induction false} SearchFromLeftmost(s: string, alts: seq<Pattern>, from: nat, j: nat)
    requires from <= j <= |s|
    requires SearchFrom(s, alts, from).None? || j < SearchFrom(s, alts, from).value.start
    ensures MatchFirstAt(s, j, alts).None?
    decreases |s| - from
  {
    if MatchFirstAt(s, from, alts).None? && j > from {
      assert SearchFrom(s, alts, from) == SearchFrom(s, alts, from + 1);
      SearchFromLeftmost(s, alts, from + 1, j);
    }
  }

  /** A position where some alternative matches, with none before it, is what the search returns. */
  lemma {:induction false} SearchFromFinds(s: string, alts: seq<Pattern>, from: nat, i: nat)
    requires from <= i <= |s| && MatchFirstAt(s, i, alts).Some?
    requires forall j | from <= j < i :: MatchFirstAt(s, j, alts).None?
    ensures SearchFrom(s, alts, from) ==
      Some(Found(i, MatchFirstAt(s, i, alts).value.0, MatchFirstAt(s, i, alts).value.1))
    decreases i - from
  {
    if from < i {
      SearchFromFinds(s, alts, from + 1, i);
    }
  }

  /** A search fails when no alternative matches at any position from `from` on. */
  lemma {:induction false} SearchFromNone(s: string, alts: seq<Pattern>, from: nat)
    requires from <= |s|
    requires forall j | from <= j <= |s| :: MatchFirstAt(s, j, alts).None?
    ensures SearchFrom(s, alts, from).None?
    decreases |s| - from
  {
    if from < |s| {
      SearchFromNone(s, alts, from + 1);
    }
  }

  /** `re.search(pattern, s)` for a single pattern. */
  function Search(s: string, p: Pattern): Option<Found> {
    SearchFrom(s, [p], 0)
  }

  /**
   * `-\s*(\S+?):\s*(.+)` at position `i` of a line that holds no newline: a dash,
   * optional whitespace, then the SHORTEST non-empty run of non-whitespace that is
   * followed by a colon with at least one character after it; `(.+)` takes the rest of
   * the line. The result is where group 1 starts and where its colon stands.
   */
  function LibraryAt(s: string, i: nat): (r: Option<(nat, nat)>)
    requires i <= |s| && '\n' !in s
    ensures r.Some? ==> i < |s| && s[i] == '-' && i < r.value.0 < r.value.1 < |s| - 1
    ensures r.Some? ==> s[r.value.1] == ':' && AllNonSpace(s[r.value.0..r.value.1])
    ensures r.Some? ==> forall k | r.value.0 < k < r.value.1 :: s[k] != ':'
  {
    if i < |s| && s[i] == '-' then
      var k := i + 1 + RunLength(s, i + 1, Space);
      var n := RunLength(s, k, NonSpace);
      var j := if n < 2 then k + n else IndexOf(s[..k + n], ':', k + 1);
      if j < k + n && j + 1 < |s| then
        assert forall m | k <= m < j :: s[k..j][m - k] == s[m];
        Some((k, j))
      else None
    else None
  }

  predicate AllNonSpace(s: string) {
    forall k | 0 <= k < |s| :: !IsSpace(s[k])
  }

  /** `RE_LIBRARY.search(s)` from position `from`: the leftmost position that matches. */
  function LibrarySearchFrom(s: string, from: nat): (r: Option<nat>)
    requires from <= |s| && '\n' !in s
    ensures r.Some? ==> from <= r.value <= |s| && LibraryAt(s, r.value).Some?
    decreases |s| - from
  {
    if LibraryAt(s, from).Some? then Some(from)
    else if from == |s| then None
    else LibrarySearchFrom(s, from + 1)
  }

  /** No library entry starts before the position the search returns, nor anywhere when it fails. */
  lemma {:induction false} LibrarySearchLeftmost(s: string, from: nat, j: nat)
    requires from <= j <= |s| && '\n' !in s
    requires LibrarySearchFrom(s, from).None? || j < LibrarySearchFrom(s, from).value
    ensures LibraryAt(s, j).None?
    decreases |s| - from
  {
    if LibraryAt(s, from).None? && j > from {
      assert LibrarySearchFrom(s, from) == LibrarySearchFrom(s, from + 1);
      LibrarySearchLeftmost(s, from + 1, j);
    }
  }
}
