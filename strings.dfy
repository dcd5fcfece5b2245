/**
 * The character classes and the few Python `str` operations the engine relies on
 * (`strip`, `lstrip`, `in`, `startswith`, `split("\n")`, `"\n".join`, `int`), over ASCII.
 */
module Strings {

  /** Python's whitespace restricted to ASCII: space, tab, newline, return, \v and \f. */
  predicate IsSpace(c: char) {
    c == ' ' || c == '\t' || c == '\n' || c == '\r' || c == '\U{000B}' || c == '\U{000C}'
  }

  /** The regex class `\d` on ASCII. */
  predicate IsDigit(c: char) {
    '0' <= c <= '9'
  }

  /** The regex class `\w` on ASCII. */
  predicate IsWordChar(c: char) {
    'a' <= c <= 'z' || 'A' <= c <= 'Z' || IsDigit(c) || c == '_'
  }

  /** ASCII lower case; every other character is its own lower case. */
  function Lower(c: char): char {
    if 'A' <= c <= 'Z' then (c as int + 32) as char else c
  }

  /** `s.lower()` on ASCII. */
  function LowerString(s: string): string {
    seq(|s|, k requires 0 <= k < |s| => Lower(s[k]))
  }

  predicate AllSpace(s: string) {
    forall k | 0 <= k < |s| :: IsSpace(s[k])
  }

  /** Neither the first nor the last character is whitespace. */
  predicate NoEdgeSpace(s: string) {
    s == [] || (!IsSpace(s[0]) && !IsSpace(s[|s| - 1]))
  }

  /** `s.lstrip()`: the suffix of `s` left once its leading whitespace is gone. */
  function LStrip(s: string): (r: string)
    ensures |r| <= |s| && r == s[|s| - |r|..]
    ensures AllSpace(s[..|s| - |r|])
    ensures r == [] || !IsSpace(r[0])
    decreases |s|
  {
    if s != [] && IsSpace(s[0]) then LStrip(s[1..]) else s
  }

  /** `s.rstrip()`: the prefix of `s` left once its trailing whitespace is gone. */
  function RStrip(s: string): (r: string)
    ensures |r| <= |s| && r == s[..|r|]
    ensures AllSpace(s[|r|..])
    ensures r == [] || !IsSpace(r[|r| - 1])
    decreases |s|
  {
    if s != [] && IsSpace(s[|s| - 1]) then RStrip(s[..|s| - 1]) else s
  }

  /** How many characters `Trim` removes from the front of `s`. */
  function TrimStart(s: string): nat {
    |s| - |LStrip(s)|
  }

  /**
   * `s.strip()`: the slice of `s` that remains once whitespace is removed from both
   * ends; only whitespace is removed, and none is left at either end.
   */
  function Trim(s: string): (r: string)
    ensures NoEdgeSpace(r)
  {
    var l := LStrip(s);
    var r := RStrip(l);
    assert r != [] ==> r[0] == l[0];
    r
  }

  /** `Trim(s)` is the slice of `s` at `TrimStart(s)`, and only whitespace lies around it. */
  lemma TrimShape(s: string)
    ensures TrimStart(s) + |Trim(s)| <= |s| && Trim(s) == s[TrimStart(s)..TrimStart(s) + |Trim(s)|]
    ensures AllSpace(s[..TrimStart(s)]) && AllSpace(s[TrimStart(s) + |Trim(s)|..])
  {
    var l := LStrip(s);
    var r := RStrip(l);
    assert Trim(s) == r && TrimStart(s) == |s| - |l|;
    SuffixPrefix(s, l, r);
  }

  /** A prefix `r` of a suffix `l` of `s` is a slice of `s`, followed by the rest of `l`. */
  lemma SuffixPrefix(s: string, l: string, r: string)
    requires |l| <= |s| && l == s[|s| - |l|..] && |r| <= |l| && r == l[..|r|]
    ensures var i := |s| - |l|; r == s[i..i + |r|] && s[i + |r|..] == l[|r|..]
  {
  }

  /** Stripping a string that has no whitespace at either end leaves it unchanged. */
  lemma TrimNoEdge(s: string)
    requires NoEdgeSpace(s)
    ensures Trim(s) == s
  {
    if s != [] {
      assert LStrip(s) == s;
      assert RStrip(s) == s;
    }
  }

  /** `s.lstrip(chars)`: drops every leading character that occurs in `chars`. */
  function LStripChars(s: string, chars: string): (r: string)
    ensures |r| <= |s| && r == s[|s| - |r|..]
    ensures forall k | 0 <= k < |s| - |r| :: s[k] in chars
    ensures r == [] || r[0] !in chars
    decreases |s|
  {
    if s != [] && s[0] in chars then LStripChars(s[1..], chars) else s
  }

  /** One step of `lstrip`: a leading character from `chars` goes. */
  lemma LStripStep(s: string, chars: string)
    requires s != [] && s[0] in chars
    ensures LStripChars(s, chars) == LStripChars(s[1..], chars)
  {
  }

  /** `lstrip` stops at the first character outside `chars`. */
  lemma LStripStop(s: string, chars: string)
    requires s == [] || s[0] !in chars
    ensures LStripChars(s, chars) == s
  {
  }

  predicate StartsWith(s: string, prefix: string) {
    |prefix| <= |s| && s[..|prefix|] == prefix
  }

  predicate EndsWith(s: string, suffix: string) {
    |suffix| <= |s| && s[|s| - |suffix|..] == suffix
  }

  /** Python's `t in s`: `t` occurs somewhere in `s` as a contiguous substring. */
  predicate Contains(s: string, t: string)
    decreases |s|
  {
    StartsWith(s, t) || (s != [] && Contains(s[1..], t))
  }

  /** `Contains` holds exactly when `t` starts at some position of `s`. */
  lemma {:induction false} ContainsAt(s: string, t: string)
    ensures Contains(s, t) <==> exists i | 0 <= i <= |s| :: StartsWith(s[i..], t)
    decreases |s|
  {
    assert s[0..] == s;
    if s != [] {
      ContainsAt(s[1..], t);
      forall i | 1 <= i <= |s|
        ensures s[i..] == s[1..][i - 1..]
      {
      }
      if Contains(s[1..], t) {
        var i :| 0 <= i <= |s[1..]| && StartsWith(s[1..][i..], t);
        assert StartsWith(s[i + 1..], t);
      }
      if exists i | 0 <= i <= |s| :: StartsWith(s[i..], t) {
        var i :| 0 <= i <= |s| && StartsWith(s[i..], t);
        if i > 0 {
          assert StartsWith(s[1..][i - 1..], t);
        }
      }
    }
  }

  /** A string that lacks one of the characters of `t` does not contain `t`. */
  lemma {:induction false} NotContains(s: string, t: string, k: nat)
    requires k < |t| && t[k] !in s
    ensures !Contains(s, t)
    decreases |s|
  {
    if |t| <= |s| {
      assert s[..|t|][k] == s[k] && s[k] in s;
    }
    if s != [] {
      assert forall c | c in s[1..] :: c in s;
      NotContains(s[1..], t, k);
    }
  }

  /** Index of the first `c` in `s` at or after `from`, or `|s|` when there is none. */
  function IndexOf(s: string, c: char, from: nat): (k: nat)
    requires from <= |s|
    ensures from <= k <= |s|
    ensures k < |s| ==> s[k] == c
    ensures forall j | from <= j < k :: s[j] != c
    decreases |s| - from
  {
    if from == |s| || s[from] == c then from else IndexOf(s, c, from + 1)
  }

  /** `s.split("\n")`: never empty, and no piece holds a newline. */
  function Split(s: string): (r: seq<string>)
    ensures |r| >= 1
    ensures forall k | 0 <= k < |r| :: '\n' !in r[k]
    decreases |s|
  {
    var j := IndexOf(s, '\n', 0);
    if j == |s| then [s] else [s[..j]] + Split(s[j + 1..])
  }

  /** `"\n".join(lines)`. */
  function Join(lines: seq<string>): string
    decreases |lines|
  {
    if |lines| == 0 then ""
    else if |lines| == 1 then lines[0]
    else lines[0] + "\n" + Join(lines[1..])
  }

  /** Splitting and joining again gives back the text. */
  lemma {:induction false} JoinSplit(s: string)
    ensures Join(Split(s)) == s
    decreases |s|
  {
    var j := IndexOf(s, '\n', 0);
    if j < |s| {
      JoinSplit(s[j + 1..]);
      assert s == s[..j] + "\n" + s[j + 1..];
    }
  }

  /** `IndexOf` is characterised by its contract: any index meeting it is the one. */
  lemma {:induction false} IndexOfIs(s: string, c: char, from: nat, k: nat)
    requires from <= k <= |s|
    requires k < |s| ==> s[k] == c
    requires forall j | from <= j < k :: s[j] != c
    ensures IndexOf(s, c, from) == k
    decreases k - from
  {
    if from < k {
      IndexOfIs(s, c, from + 1, k);
    }
  }

  /** A text without `c`, then `c`: the first `c` is the one after the text. */
  lemma FirstNewline(first: string, rest: string)
    requires '\n' !in first
    ensures IndexOf(first + "\n" + rest, '\n', 0) == |first|
  {
    var s := first + "\n" + rest;
    forall j | 0 <= j < |first|
      ensures s[j] != '\n'
    {
      assert s[j] == first[j];
    }
    IndexOfIs(s, '\n', 0, |first|);
  }

  /** A text without a newline is split into itself alone. */
  lemma SplitNoNewline(s: string)
    requires '\n' !in s
    ensures Split(s) == [s]
  {
    IndexOfIs(s, '\n', 0, |s|);
  }

  /** Joining newline-free lines and splitting again gives back the lines. */
  lemma {:induction false} SplitJoin(lines: seq<string>)
    requires |lines| >= 1
    requires forall k | 0 <= k < |lines| :: '\n' !in lines[k]
    ensures Split(Join(lines)) == lines
    decreases |lines|
  {
    if |lines| == 1 {
      SplitNoNewline(lines[0]);
    } else {
      var first, rest := lines[0], Join(lines[1..]);
      var s := first + "\n" + rest;
      assert Join(lines) == s;
      FirstNewline(first, rest);
      assert s[..|first|] == first;
      assert s[|first| + 1..] == rest;
      assert Split(s) == [first] + Split(rest);
      SplitJoin(lines[1..]);
      assert lines == [first] + lines[1..];
    }
  }
}
