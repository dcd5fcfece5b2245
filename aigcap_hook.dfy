/**
 * The Write/Edit hook: which paths it looks at, and what it answers for a Write (before
 * the file is written, from the new content) and for an Edit or MultiEdit (after the
 * edit, from the first 50 lines on disk). What standard input decodes to and the text
 * read from disk are inputs; the disk text is `None` when the path is not a readable
 * regular file, which the hook's own exception handler turns into silence.
 */
module AigcapHook {
  import opened Wrappers
  import opened Strings
  import opened Patterns
  import opened Languages

  /** `CODE_EXTENSIONS`. */
  const CodeExtensions: set<string> := {
    ".rs", ".c", ".h", ".cpp", ".hpp", ".java",
    ".js", ".jsx", ".ts", ".tsx",
    ".go", ".swift", ".kt", ".scala", ".cs",
    ".py", ".rb", ".sh", ".bash",
    ".css", ".scss",
    ".sql", ".lua", ".hs",
    ".html", ".xml", ".svg", ".vue"
  }

  /** `SKIP_PATTERNS`, in order. */
  const SkipPatterns: seq<string> := [
    "node_modules", ".git", "__pycache__",
    "target/debug", "target/release", "dist/", "build/",
    "package.json", "package-lock.json", "Cargo.lock", "yarn.lock",
    "Cargo.toml", "pyproject.toml", "go.mod", "go.sum",
    "tsconfig.json", ".eslintrc", ".prettierrc",
    "CLAUDE.md", "AIGCAP_PROTOCOL.md", "README.md", "CHANGELOG.md", "LICENSE",
    ".env", ".gitignore", ".dockerignore",
    "Makefile", "Dockerfile", "docker-compose",
    "__init__.py"
  ]

  /** `REVIEWED-BY-HUMAN\s*:\s*NO` and `...YES`, case-insensitive. */
  function ReviewedAs(answer: string): Pattern {
    [Lit("REVIEWED-BY-HUMAN"), Spaces(false), Lit(":"), Spaces(false), Lit(answer)]
  }

  /** The text holds the field with the given answer somewhere. */
  predicate Answers(s: string, answer: string) {
    Search(s, ReviewedAs(answer)).Some?
  }

  predicate HasNo(s: string) {
    Answers(s, "NO")
  }

  predicate HasYes(s: string) {
    Answers(s, "YES")
  }

  // ---------------------------------------------------------------------------------
  // Paths
  // ---------------------------------------------------------------------------------

  /** `os.path.basename` on POSIX: everything after the last slash. */
  function Basename(path: string): (r: string)
    ensures EndsWith(path, r) && forall k | 0 <= k < |r| :: r[k] != '/'
    ensures |r| == |path| || path[|path| - |r| - 1] == '/'
  {
    var sep := RFind(path, '/');
    var r := path[sep + 1..];
    assert path[|path| - |r|..] == r;
    r
  }

  /** Every character of `s` from `lo` up to `hi` is a dot. */
  predicate DotsOnly(s: string, lo: nat, hi: nat) {
    forall k | lo <= k < hi && k < |s| :: s[k] == '.'
  }

  /**
   * The extension of `os.path.splitext` on POSIX: from the last dot on, when that dot
   * lies after the last slash and some character between the two is not a dot;
   * otherwise empty.
   */
  function SplitExt(path: string): string {
    var sep := RFind(path, '/');
    var dot := RFind(path, '.');
    if dot > sep && !DotsOnly(path, sep + 1, dot) then path[dot..] else ""
  }

  /**
   * A non-empty extension starts at the last dot of the base name, and some character of
   * the base name before that dot is not a dot; a trailing dot gives ".".
   */
  lemma SplitExtFound(path: string)
    requires SplitExt(path) != ""
    ensures EndsWith(path, SplitExt(path)) && SplitExt(path)[0] == '.'
    ensures forall k | |path| - |SplitExt(path)| < k < |path| :: path[k] != '.' && path[k] != '/'
    ensures |path| - |Basename(path)| <= |path| - |SplitExt(path)|
    ensures !DotsOnly(path, |path| - |Basename(path)|, |path| - |SplitExt(path)|)
  {
    var sep := RFind(path, '/');
    var dot := RFind(path, '.');
    assert |Basename(path)| == |path| - sep - 1;
    assert |SplitExt(path)| == |path| - dot;
  }

  /** The extension is empty only when every dot of the base name has only dots before it. */
  lemma SplitExtEmpty(path: string)
    requires SplitExt(path) == ""
    ensures var start := |path| - |Basename(path)|;
      forall k | start <= k < |path| && path[k] == '.' :: DotsOnly(path, start, k)
  {
    var sep := RFind(path, '/');
    var dot := RFind(path, '.');
    assert |Basename(path)| == |path| - sep - 1;
  }

  /** The loop over the skip patterns: one of them occurs in the path or is its base name. */
  predicate SkipHit(path: string, base: string, patterns: seq<string>)
    decreases |patterns|
  {
    patterns != [] && (Contains(path, patterns[0]) || patterns[0] == base || SkipHit(path, base, patterns[1..]))
  }

  /** `should_check`. */
  predicate ShouldCheck(path: string) {
    if path == "" then false
    else if LowerString(SplitExt(path)) !in CodeExtensions then false
    else !SkipHit(path, Basename(path), SkipPatterns)
  }

  /** A suffix of a string occurs in it. */
  lemma SuffixContained(s: string, t: string)
    requires EndsWith(s, t)
    ensures Contains(s, t)
  {
    ContainsAt(s, t);
    assert StartsWith(s[|s| - |t|..], t);
  }

  lemma {:induction false} SkipHitIff(path: string, patterns: seq<string>)
    ensures SkipHit(path, Basename(path), patterns) <==> exists j | 0 <= j < |patterns| :: Contains(path, patterns[j])
    decreases |patterns|
  {
    if patterns != [] {
      SkipHitIff(path, patterns[1..]);
      if patterns[0] == Basename(path) {
        SuffixContained(path, Basename(path));
      }
      assert forall j | 1 <= j < |patterns| :: patterns[j] == patterns[1..][j - 1];
    }
  }

  /**
   * A path is checked exactly when it is non-empty, its lower-cased extension is a code
   * extension and no skip pattern occurs in it: comparing a pattern with the base name
   * adds nothing, since the base name occurs in the path.
   */
  lemma ShouldCheckIff(path: string)
    ensures ShouldCheck(path) <==>
      && path != ""
      && LowerString(SplitExt(path)) in CodeExtensions
      && forall j | 0 <= j < |SkipPatterns| :: !Contains(path, SkipPatterns[j])
  {
    SkipHitIff(path, SkipPatterns);
  }

  /** Every extension the hook checks is one the annotation engine knows. */
  lemma ExtensionsKnown()
    ensures forall ext | ext in CodeExtensions :: ext in LangMap
  {
  }

  /** The engine's extensions the hook does not check: YAML, TOML and R. */
  lemma ExtensionsUnchecked()
    ensures forall ext | ext in LangMap :: ext !in CodeExtensions <==> ext in {".yaml", ".yml", ".toml", ".r"}
  {
  }

  // ---------------------------------------------------------------------------------
  // The head of a file
  // ---------------------------------------------------------------------------------

  function NewlineCount(s: string): nat {
    multiset(s)['\n']
  }

  /**
   * `"".join(f.readline() for _ in range(n))`: the first `n` lines with their newlines, or
   * the whole text when it has fewer.
   */
  function Head(text: string, n: nat): (h: string)
    ensures StartsWith(text, h)
    ensures NewlineCount(h) <= n
    ensures n == 0 ==> h == []
    ensures h == text || (NewlineCount(h) == n && (h == [] || h[|h| - 1] == '\n'))
    decreases n
  {
    if n == 0 then ""
    else
      var k := IndexOf(text, '\n', 0);
      if k == |text| then text
      else
        var rest := Head(text[k + 1..], n - 1);
        HeadStep(text, k, rest, n);
        text[..k + 1] + rest
  }

  /** One line, up to and including its newline, in front of the head of the rest. */
  lemma HeadStep(text: string, k: nat, rest: string, n: nat)
    requires k < |text| && text[k] == '\n' && forall j | 0 <= j < k :: text[j] != '\n'
    requires StartsWith(text[k + 1..], rest) && NewlineCount(rest) < n
    requires rest == text[k + 1..] || (NewlineCount(rest) == n - 1 && (rest == [] || rest[|rest| - 1] == '\n'))
    ensures StartsWith(text, text[..k + 1] + rest) && NewlineCount(text[..k + 1] + rest) <= n
    ensures var h := text[..k + 1] + rest; h == text || (NewlineCount(h) == n && h != [] && h[|h| - 1] == '\n')
  {
    var line := text[..k + 1];
    assert line == text[..k] + ['\n'];
    assert multiset(text[..k])['\n'] == 0 by {
      assert forall c | c in text[..k] :: c != '\n';
    }
    assert multiset(line + rest) == multiset(text[..k]) + multiset(['\n']) + multiset(rest);
    assert text[..|line + rest|] == line + text[k + 1..][..|rest|];
    if rest == text[k + 1..] {
      assert line + rest == text;
    } else if rest == [] {
      assert line + rest == line && line[k] == '\n';
    } else {
      assert (line + rest)[|line + rest| - 1] == rest[|rest| - 1];
    }
  }

  /** What a prefix contains, the whole string contains. */
  lemma {:induction false} PrefixContains(s: string, h: string, t: string)
    requires StartsWith(s, h) && Contains(h, t)
    ensures Contains(s, t)
    decreases |h|
  {
    if StartsWith(h, t) {
      assert s[..|t|] == h[..|t|];
    } else {
      assert s[1..][..|h| - 1] == h[1..];
      PrefixContains(s[1..], h[1..], t);
    }
  }

  /** A banner seen in the head is in the file. */
  lemma HeadBanner(text: string, n: nat)
    requires Contains(Head(text, n), Banner)
    ensures Contains(text, Banner)
  {
    PrefixContains(text, Head(text, n), Banner);
  }

  // ---------------------------------------------------------------------------------
  // The decision
  // ---------------------------------------------------------------------------------

  /** A decoded JSON value, as far as the hook looks at it. */
  datatype Json =
    | JNull
    | JString(s: string)
      // A number or a boolean, with its truth value.
    | JScalar(truthy: bool)
      // An array or an object: whether it is non-empty, and its string elements or keys,
      // which is what Python's `in` tests on it.
    | JContainer(truthy: bool, members: set<string>)

  /** Python's truth value of a decoded value. */
  predicate Truthy(v: Json) {
    match v
    case JNull => false
    case JString(s) => s != ""
    case JScalar(t) => t
    case JContainer(t, _) => t
  }

  /** The fields of a `tool_input` object, each `None` when absent. */
  datatype ToolInput = ToolInput(filePath: Option<Json>, path: Option<Json>, content: Option<Json>)

  /** An absent `tool_input` is read as the empty object. */
  const NoInput := ToolInput(None, None, None)

  /**
   * What standard input decodes to: no JSON at all, a value that is not an object, or an
   * object with its tool name ("" when absent; a name that is not a string equals neither
   * "Write" nor "Edit", so another string stands for it) and its `tool_input`, `None` when
   * that is present but not an object.
   */
  datatype Stdin = NotJson | NotObject | Event(toolName: string, input: Option<ToolInput>)

  /** The six messages, each naming the path. */
  datatype Message =
    | WriteMissingBanner(path: string)
    | WriteHasYes(path: string)
    | WriteMissingNo(path: string)
    | EditNoHeader(path: string)
    | EditStillYes(path: string)
    | EditMissingField(path: string)

  datatype Outcome = Outcome(exitCode: nat, message: Option<Message>)

  /** The Write messages go to standard error, the Edit warnings to standard output. */
  predicate ToStderr(m: Message) {
    m.WriteMissingBanner? || m.WriteHasYes? || m.WriteMissingNo?
  }

  const Silent := Outcome(0, None)

  /** An uncaught exception: Python prints a traceback and exits with status 1. */
  const Crashed := Outcome(1, None)

  /** `tool_input.get("file_path") or tool_input.get("path", "")`. */
  function TargetPath(input: ToolInput): Json {
    if input.filePath.Some? && Truthy(input.filePath.value) then input.filePath.value
    else input.path.GetOr(JString(""))
  }

  /** The Write gate over the content about to be written. */
  function WriteVerdict(path: string, content: string): Outcome {
    if !Contains(content, Banner) then Outcome(2, Some(WriteMissingBanner(path)))
    else if HasYes(content) then Outcome(2, Some(WriteHasYes(path)))
    else if !HasNo(content) then Outcome(2, Some(WriteMissingNo(path)))
    else Silent
  }

  /** The Edit warnings over the first 50 lines after the edit; they never block. */
  function EditVerdict(path: string, head: string): Outcome {
    if !Contains(head, Banner) then Outcome(0, Some(EditNoHeader(path)))
    else if HasYes(head) && !HasNo(head) then Outcome(0, Some(EditStillYes(path)))
    else if !HasNo(head) && !HasYes(head) then Outcome(0, Some(EditMissingField(path)))
    else Silent
  }

  /**
   * `main`: the exit code and the message for what standard input holds and the file on
   * disk. A false target ends the hook before `should_check` looks at it; a true target
   * that is not a string makes `os.path.splitext` raise.
   */
  function Decide(stdin: Stdin, disk: Option<string>): Outcome {
    match stdin
    case NotJson => Silent
    case NotObject => Crashed
    case Event(name, input) =>
      if input.None? then Crashed
      else
        var target := TargetPath(input.value);
        if !Truthy(target) then Silent
        else if !target.JString? then Crashed
        else if !ShouldCheck(target.s) then Silent
        else Dispatch(name, input.value, target.s, disk)
  }

  /**
   * A `content` that the banner test `BANNER not in content` rejects with an exception:
   * `None`, a number or a boolean; or an array or object holding the banner, on which the
   * YES search then raises.
   */
  predicate ContentCrashes(c: Json) {
    c.JNull? || c.JScalar? || (c.JContainer? && Banner in c.members)
  }

  /** The Write gate on whatever `tool_input.get("content", "")` returned. */
  function WriteContent(path: string, c: Json): Outcome {
    match c
    case JString(text) => WriteVerdict(path, text)
    case JContainer(_, members) =>
      if Banner !in members then Outcome(2, Some(WriteMissingBanner(path))) else Crashed
    case _ => Crashed
  }

  /** The branches on the tool name, for a path that is checked. */
  function Dispatch(name: string, input: ToolInput, path: string, disk: Option<string>): Outcome {
    if name == "Write" then WriteContent(path, input.content.GetOr(JString("")))
    else if name == "Edit" || name == "MultiEdit" then
      match disk
      case None => Silent
      case Some(text) => EditVerdict(path, Head(text, 50))
    else Silent
  }

  /** A Write is let through exactly when the banner and NO are present and YES is absent. */
  lemma WriteAllowedIff(path: string, content: string)
    ensures WriteVerdict(path, content).exitCode == 0 <==>
      Contains(content, Banner) && !HasYes(content) && HasNo(content)
    ensures WriteVerdict(path, content).exitCode in {0, 2}
    ensures WriteVerdict(path, content).exitCode == 0 <==> WriteVerdict(path, content).message.None?
    ensures WriteVerdict(path, content).message.Some? ==> ToStderr(WriteVerdict(path, content).message.value)
  {
  }

  /** The reasons come in order: the banner first, then YES, then a missing NO. */
  lemma WritePriority(path: string, content: string)
    ensures !Contains(content, Banner) ==> WriteVerdict(path, content).message == Some(WriteMissingBanner(path))
    ensures Contains(content, Banner) && HasYes(content) ==>
      WriteVerdict(path, content).message == Some(WriteHasYes(path))
    ensures Contains(content, Banner) && !HasYes(content) && !HasNo(content) ==>
      WriteVerdict(path, content).message == Some(WriteMissingNo(path))
  {
  }

  /** The Edit warnings: exactly one for each failing condition, on standard output. */
  lemma EditWarnings(path: string, head: string)
    ensures EditVerdict(path, head).exitCode == 0
    ensures EditVerdict(path, head).message == Some(EditNoHeader(path)) <==> !Contains(head, Banner)
    ensures EditVerdict(path, head).message == Some(EditStillYes(path)) <==>
      Contains(head, Banner) && HasYes(head) && !HasNo(head)
    ensures EditVerdict(path, head).message == Some(EditMissingField(path)) <==>
      Contains(head, Banner) && !HasYes(head) && !HasNo(head)
    ensures EditVerdict(path, head).message.None? <==> Contains(head, Banner) && HasNo(head)
    ensures EditVerdict(path, head).message.Some? ==> !ToStderr(EditVerdict(path, head).message.value)
  {
  }

  /** The event a Write or an Edit on a checked string path reaches `Dispatch` with. */
  predicate Checked(stdin: Stdin) {
    && stdin.Event? && stdin.input.Some?
    && TargetPath(stdin.input.value).JString?
    && ShouldCheck(TargetPath(stdin.input.value).s)
  }

  /** A checked event is decided by `Dispatch` on its tool name, input and target path. */
  lemma DecideChecked(stdin: Stdin, disk: Option<string>)
    requires Checked(stdin)
    ensures Decide(stdin, disk) == Dispatch(stdin.toolName, stdin.input.value, TargetPath(stdin.input.value).s, disk)
  {
    var target := TargetPath(stdin.input.value);
    ShouldCheckIff(target.s);
    assert Truthy(target);
  }

  /** Only a Write on a checked path can block, and it then exits 2; nothing else exits 2. */
  lemma OnlyWriteBlocks(stdin: Stdin, disk: Option<string>)
    ensures Decide(stdin, disk).exitCode in {0, 1, 2}
    ensures Decide(stdin, disk).exitCode == 2 ==> Checked(stdin) && stdin.toolName == "Write"
  {
    if Checked(stdin) {
      DispatchExits(stdin.toolName, stdin.input.value, TargetPath(stdin.input.value).s, disk);
    }
  }

  lemma DispatchExits(name: string, input: ToolInput, path: string, disk: Option<string>)
    ensures Dispatch(name, input, path, disk).exitCode in {0, 1, 2}
    ensures Dispatch(name, input, path, disk).exitCode != 0 ==> name == "Write"
  {
    if name == "Write" {
      var c := input.content.GetOr(JString(""));
      if c.JString? {
        WriteAllowedIff(path, c.s);
      }
    } else if (name == "Edit" || name == "MultiEdit") && disk.Some? {
      EditWarnings(path, Head(disk.value, 50));
    }
  }

  /**
   * The hook crashes exactly when standard input is JSON but not an object, when
   * `tool_input` is not an object, when the target is true but not a string, or when a
   * Write on a checked path carries a content that the banner or YES test cannot take.
   */
  lemma CrashIff(stdin: Stdin, disk: Option<string>)
    ensures Decide(stdin, disk) == Crashed <==>
      || stdin.NotObject?
      || (stdin.Event? && stdin.input.None?)
      || (stdin.Event? && stdin.input.Some? && Truthy(TargetPath(stdin.input.value))
          && !TargetPath(stdin.input.value).JString?)
      || (Checked(stdin) && stdin.toolName == "Write"
          && ContentCrashes(stdin.input.value.content.GetOr(JString(""))))
  {
    match stdin
    case NotJson =>
    case NotObject =>
    case Event(name, input) =>
      if input.Some? && Checked(stdin) {
        var path := TargetPath(input.value).s;
        assert Decide(stdin, disk) == Dispatch(name, input.value, path, disk);
        if name == "Write" {
          WriteContentCrashIff(path, input.value.content.GetOr(JString("")));
        } else {
          DispatchExits(name, input.value, path, disk);
        }
      }
  }

  lemma WriteContentCrashIff(path: string, c: Json)
    ensures WriteContent(path, c) == Crashed <==> ContentCrashes(c)
  {
    if c.JString? {
      WriteAllowedIff(path, c.s);
    }
  }

  /** A Write whose content is `null` crashes on the banner test instead of being blocked. */
  lemma NullContentCrashes(stdin: Stdin, disk: Option<string>)
    requires Checked(stdin) && stdin.toolName == "Write" && stdin.input.value.content == Some(JNull)
    ensures Decide(stdin, disk) == Crashed
  {
    DecideChecked(stdin, disk);
  }

  /** An absent content is the empty text, which lacks the banner. */
  lemma AbsentContentBlocked(stdin: Stdin, disk: Option<string>)
    requires Checked(stdin) && stdin.toolName == "Write" && stdin.input.value.content.None?
    ensures Decide(stdin, disk) == Outcome(2, Some(WriteMissingBanner(TargetPath(stdin.input.value).s)))
  {
    DecideChecked(stdin, disk);
    NotContains("", Banner, 0);
  }

  /** Undecodable input, a false target, an unchecked path, another tool or a missing file: silence. */
  lemma SilentExits(stdin: Stdin, disk: Option<string>)
    ensures stdin.NotJson? ==> Decide(stdin, disk) == Silent
    ensures stdin.Event? && stdin.input.Some? && !Truthy(TargetPath(stdin.input.value)) ==> Decide(stdin, disk) == Silent
    ensures (stdin.Event? && stdin.input.Some? && TargetPath(stdin.input.value).JString?
             && !ShouldCheck(TargetPath(stdin.input.value).s)) ==> Decide(stdin, disk) == Silent
    ensures Checked(stdin) && stdin.toolName !in {"Write", "Edit", "MultiEdit"} ==> Decide(stdin, disk) == Silent
    ensures Checked(stdin) && stdin.toolName in {"Edit", "MultiEdit"} && disk.None? ==> Decide(stdin, disk) == Silent
  {
  }

  /** A false `file_path` (absent, null, "", 0, false, empty) falls back to `path`, and "" without it. */
  lemma PathFallback(input: ToolInput)
    ensures input.filePath.None? || !Truthy(input.filePath.value) ==>
      TargetPath(input) == input.path.GetOr(JString(""))
    ensures input.filePath.Some? && Truthy(input.filePath.value) ==> TargetPath(input) == input.filePath.value
  {
  }

  // ---------------------------------------------------------------------------------
  // The reviewed field
  // ---------------------------------------------------------------------------------

  /** A match somewhere makes the search succeed. */
  lemma SearchFinds(s: string, i: nat, p: Pattern)
    requires i <= |s| && MatchAt(s, i, p).Some?
    ensures Search(s, p).Some?
  {
    assert [p][0] == p;
    assert MatchFirstAt(s, i, [p]).Some?;
    if Search(s, p).None? {
      SearchFromLeftmost(s, [p], 0, i);
    }
  }

  /** The field matches where its parts stand: the name, spaces, a colon, spaces, the answer. */
  lemma FieldMatches(s: string, i: nat, answer: string, gap1: nat, gap2: nat)
    requires LitAt(s, i, "REVIEWED-BY-HUMAN")
    requires i + 17 <= |s| && RunLength(s, i + 17, Space) == gap1
    requires LitAt(s, i + 17 + gap1, ":")
    requires RunLength(s, i + 18 + gap1, Space) == gap2
    requires LitAt(s, i + 18 + gap1 + gap2, answer)
    ensures MatchAt(s, i, ReviewedAs(answer)).Some?
  {
    var b := i + 18 + gap1 + gap2;
    var p, pos := ReviewedAs(answer), [i, i + 17, i + 17 + gap1, i + 18 + gap1, b, b + |answer|];
    assert Planned(s, p, pos, 5);
    assert Planned(s, p, pos, 4);
    assert Planned(s, p, pos, 3);
    assert Planned(s, p, pos, 2);
    assert Planned(s, p, pos, 1);
    assert Planned(s, p, pos, 0);
    MatchPlan(s, p, pos, 0);
  }

  /** The field name stands where `REVIEWED-BY-HUMAN: <answer>` begins. */
  lemma FieldNameAt(s: string, pre: string, answer: string, post: string)
    requires s == pre + ("REVIEWED-BY-HUMAN: " + answer) + post
    ensures LitAt(s, |pre|, "REVIEWED-BY-HUMAN") && |pre| + 17 <= |s|
  {
    var t := "REVIEWED-BY-HUMAN: " + answer;
    assert forall k | 0 <= k < |t| :: s[|pre| + k] == t[k];
    assert "REVIEWED-BY-HUMAN" == t[..17];
    assert LitAt(s, |pre|, t[..17]);
  }

  /** The colon, the space and the answer follow the field name. */
  lemma FieldRestAt(s: string, pre: string, answer: string, post: string)
    requires s == pre + ("REVIEWED-BY-HUMAN: " + answer) + post
    requires answer != []
    ensures |pre| + 19 + |answer| <= |s| && LitAt(s, |pre| + 17, ":") && LitAt(s, |pre| + 19, answer)
    ensures s[|pre| + 17] == ':' && s[|pre| + 18] == ' ' && s[|pre| + 19] == answer[0]
  {
    var t := "REVIEWED-BY-HUMAN: " + answer;
    assert forall k | 0 <= k < |t| :: s[|pre| + k] == t[k];
    assert forall k | 0 <= k < |answer| :: t[19 + k] == answer[k];
  }

  /** Around `: x`, with `x` not a space, the runs of spaces are empty and one long. */
  lemma ColonSpaceRuns(s: string, i: nat)
    requires i + 2 < |s| && s[i] == ':' && s[i + 1] == ' ' && !IsSpace(s[i + 2])
    ensures RunLength(s, i, Space) == 0 && RunLength(s, i + 1, Space) == 1
  {
    RunLengthIs(s, i, Space, 0);
    RunLengthIs(s, i + 1, Space, 1);
  }

  /** `REVIEWED-BY-HUMAN: ` followed by an answer that does not start with a space matches it. */
  lemma AnswerFound(s: string, pre: string, answer: string, post: string)
    requires s == pre + ("REVIEWED-BY-HUMAN: " + answer) + post
    requires answer != [] && !IsSpace(answer[0])
    ensures Answers(s, answer)
  {
    FieldNameAt(s, pre, answer, post);
    FieldRestAt(s, pre, answer, post);
    ColonSpaceRuns(s, |pre| + 17);
    FieldMatches(s, |pre|, answer, 0, 1);
    SearchFinds(s, |pre|, ReviewedAs(answer));
  }

  /**
   * The answer is matched as a prefix: `REVIEWED-BY-HUMAN: NONE`, anywhere in the text,
   * counts as NO.
   */
  lemma NoneCountsAsNo(pre: string, post: string)
    ensures HasNo(pre + "REVIEWED-BY-HUMAN: NONE" + post)
  {
    assert "REVIEWED-BY-HUMAN: NONE" == "REVIEWED-BY-HUMAN: " + "NO" + "NE";
    AnswerFound(pre + "REVIEWED-BY-HUMAN: NONE" + post, pre, "NO", "NE" + post);
  }

  /** `REVIEWED-BY-HUMAN: YES`, anywhere in the text, is found as a YES. */
  lemma YesFound(pre: string, post: string)
    ensures HasYes(pre + "REVIEWED-BY-HUMAN: YES" + post)
  {
    AnswerFound(pre + "REVIEWED-BY-HUMAN: YES" + post, pre, "YES", post);
  }
}
