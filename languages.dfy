/**
 * Language detection: the extension table with each language's comment family, the
 * directory names excluded by default, the banner literal, and `Path(name).suffix`.
 */
module Languages {
  import opened Wrappers
  import opened Strings

  // The four comment dialects: `/* * */`, `#`, `--` and `<!-- -->`.
  datatype Family = Block | Hash | Dash | Html

  /** One row of the table: the language's display name, its family and its prefix. */
  datatype LangInfo = LangInfo(name: string, family: Family, prefix: string)

  /** `LANG_MAP`: lower-case extension, with its dot, to language. */
  const LangMap: map<string, LangInfo> := map[
    ".rs"    := LangInfo("Rust", Block, " *"),
    ".c"     := LangInfo("C", Block, " *"),
    ".h"     := LangInfo("C Header", Block, " *"),
    ".cpp"   := LangInfo("C++", Block, " *"),
    ".hpp"   := LangInfo("C++ Header", Block, " *"),
    ".java"  := LangInfo("Java", Block, " *"),
    ".js"    := LangInfo("JavaScript", Block, " *"),
    ".jsx"   := LangInfo("JSX", Block, " *"),
    ".ts"    := LangInfo("TypeScript", Block, " *"),
    ".tsx"   := LangInfo("TSX", Block, " *"),
    ".go"    := LangInfo("Go", Block, " *"),
    ".swift" := LangInfo("Swift", Block, " *"),
    ".kt"    := LangInfo("Kotlin", Block, " *"),
    ".scala" := LangInfo("Scala", Block, " *"),
    ".cs"    := LangInfo("C#", Block, " *"),
    ".css"   := LangInfo("CSS", Block, " *"),
    ".scss"  := LangInfo("SCSS", Block, " *"),
    ".py"    := LangInfo("Python", Hash, "#"),
    ".rb"    := LangInfo("Ruby", Hash, "#"),
    ".sh"    := LangInfo("Shell", Hash, "#"),
    ".bash"  := LangInfo("Bash", Hash, "#"),
    ".yaml"  := LangInfo("YAML", Hash, "#"),
    ".yml"   := LangInfo("YAML", Hash, "#"),
    ".toml"  := LangInfo("TOML", Hash, "#"),
    ".r"     := LangInfo("R", Hash, "#"),
    ".sql"   := LangInfo("SQL", Dash, "--"),
    ".lua"   := LangInfo("Lua", Dash, "--"),
    ".hs"    := LangInfo("Haskell", Dash, "--"),
    ".html"  := LangInfo("HTML", Html, ""),
    ".xml"   := LangInfo("XML", Html, ""),
    ".svg"   := LangInfo("SVG", Html, ""),
    ".vue"   := LangInfo("Vue", Html, "")
  ]

  /** `DEFAULT_EXCLUDE`: directory names the walk never descends into by default. */
  const DefaultExclude: set<string> := {
    "node_modules", ".git", ".svn", "__pycache__", ".mypy_cache",
    ".pytest_cache", "target", "build", "dist", ".next", ".nuxt",
    "vendor", ".venv", "venv", "env", ".env", ".idea", ".vscode",
    "coverage", ".coverage", "htmlcov"
  }

  /** `BANNER`: the literal that marks a file as carrying an annotation header. */
  const Banner := "THIS FILE INCLUDES AI GENERATED CODE"

  /** The prefix column that goes with each family in the table. */
  function FamilyPrefix(family: Family): string {
    match family
    case Block => " *"
    case Hash => "#"
    case Dash => "--"
    case Html => ""
  }

  /** Every row's prefix agrees with its family. */
  lemma TablePrefixes()
    ensures forall ext | ext in LangMap :: LangMap[ext].prefix == FamilyPrefix(LangMap[ext].family)
  {
  }

  /** Every key is a dot followed by at least one character, none of them a dot. */
  lemma TableKeys()
    ensures forall ext | ext in LangMap :: |ext| >= 2 && ext[0] == '.' && forall k | 1 <= k < |ext| :: ext[k] != '.'
  {
  }

  /** Python's `s.rfind(c)`: the last index of `c` in `s`, or -1. */
  function RFind(s: string, c: char): (r: int)
    ensures -1 <= r < |s|
    ensures r == -1 ==> c !in s
    ensures r >= 0 ==> s[r] == c && forall j | r < j < |s| :: s[j] != c
    decreases |s|
  {
    if s == [] then -1
    else if s[|s| - 1] == c then |s| - 1
    else RFind(s[..|s| - 1], c)
  }

  /**
   * `Path(name).suffix` for a file name: the text from the last dot on, when that dot
   * is neither the first nor the last character of the name; otherwise empty.
   */
  function Suffix(name: string): (r: string)
    ensures r == "" || (2 <= |r| < |name| && r[0] == '.' && '.' !in r[1..] && EndsWith(name, r))
    ensures r == "" <==> (forall i | 0 < i < |name| - 1 :: name[i] != '.') || (|name| > 0 && name[|name| - 1] == '.')
  {
    var i := RFind(name, '.');
    if 0 < i < |name| - 1 then name[i..] else ""
  }

  /** The table row for a file name: `LANG_MAP.get(Path(name).suffix.lower())`. */
  function LanguageOf(name: string): Option<LangInfo> {
    var ext := LowerString(Suffix(name));
    if ext in LangMap then Some(LangMap[ext]) else None
  }
}
