# AIGCAP annotation engine, modelled in Dafny

AIGCAP is the AI-Generated Code Annotation Protocol. A source file that contains
AI-generated code carries a comment header:

- a banner line, `THIS FILE INCLUDES AI GENERATED CODE`;
- a block between `========` separators;
- inside that block, a `TYPE:` line (whole file, above 50 % or below 50 %);
- sections listing methods, structs and traits, each written whole or as a line range;
- a section of imported libraries.

The project models two programs:

- the scanning engine of `tools/ai_coverage.py`, which finds, extracts and parses these
  headers, estimates how many lines are AI-written, and accumulates a project report;
- the editor hook `dot-claude/hooks/check_aigcap.py`. It blocks a Write whose content
  lacks the banner or the `REVIEWED-BY-HUMAN: NO` field, or carries
  `REVIEWED-BY-HUMAN: YES`. It warns after an Edit that leaves the header missing or
  still marked YES.

Modules, one per file, in dependency order:

- `Wrappers`: `Option`.
- `Strings`: ASCII character classes and Python's `strip`, `lstrip(chars)`, `in`,
  `split("\n")` and `"\n".join`, with `Split` and `Join` inverse to each other.
- `Languages`: the extension table `LANG_MAP`, `DEFAULT_EXCLUDE`, the banner and `Path.suffix`.
- `Patterns`: a small token matcher standing for the program's fixed regular
  expressions. It is case-insensitive, has `\s*`, `\s+`, optional quote characters and
  captured `\d+` and `\w+` runs, and searches leftmost with alternatives in order. The
  library pattern with its lazy `\S+?` gets a matcher of its own.
- `CommentStrip`: `strip_comment_prefix` for the block, hash, dash and markup comment
  families.
- `HeaderExtractor`: `extract_header_block`. It is an imperative scan with its loop
  invariants, proved equal to a declarative description built from three landmarks:
  the first separator, the first content line after it, and the first closing line after that.
- `HeaderParser`: `parse_header`. It is a loop over lines that keeps the current section
  and four growing lists, proved equal to a fold of a one-line step. The `TYPE:` search
  and the entry patterns are described at line level.
- `Estimator`: `estimate_ai_lines`, a method proved equal to a function.
- `Scanner`: `scan_directory`. `ProjectReport` is a class whose counters, lists and
  language breakdown are updated in place. Each step is proved against a fold over the
  walk's observations.
- `AigcapHook`: `should_check` and the decision that `main` makes, from decoded standard
  input and the text on disk to an exit code and a message.
- `RoundTrip`: a header writer. Whatever annotation it writes in any comment family,
  extraction and parsing give back exactly that annotation.

Inputs in place of I/O:

- The directory walk is a sequence of observations, one per listed file. Each holds
  the directory names on its way, the file name, the relative path, the text read
  (`None` when the read failed) and the non-blank line count.
- The hook receives what standard input decodes to and the text on disk, `None` when
  the path is not a readable file.
- The scan time and directory are plain strings.

## Model

| member | source | states |
|---|---|---|
| Languages.LanguageOf | tools/ai_coverage.py:357-363 | the table row for the lower-cased `Path.suffix` of a file name, or none; the suffix is stated by `Languages.Suffix`, and a file with no row is skipped by `Scanner.OutsideScanChangesNothing` |
| Languages.TablePrefixes | tools/ai_coverage.py:28-65 | every table entry's comment prefix is the one its family uses (` *`, `#`, `--`, empty) |
| Languages.TableKeys | tools/ai_coverage.py:28-65 | every key of the language table is a dot followed by at least one character and no further dot, so it is something `Path.suffix` can return |
| Languages.Suffix | tools/ai_coverage.py:357 | the suffix is empty or a dotted tail of the name with no other dot, shorter than the name; it is empty exactly when the name has no inner dot or ends in a dot |
| Languages.RFind | tools/ai_coverage.py:357 | the index of the last occurrence of a character, or -1 exactly when it does not occur |
| Strings.LStrip | tools/ai_coverage.py:161 | `lstrip()` returns a suffix of its input; everything removed is whitespace, and the result does not start with whitespace |
| Strings.RStrip | tools/ai_coverage.py:161 | `rstrip()` returns a prefix of its input; everything removed is whitespace, and the result does not end with whitespace |
| Strings.Trim | tools/ai_coverage.py:161 | `strip()` leaves no whitespace at either end |
| Strings.TrimShape | tools/ai_coverage.py:161 | `strip()` returns a slice of its input with only whitespace removed around it, and none left at either end |
| Strings.TrimNoEdge | tools/ai_coverage.py:177 | stripping text with no whitespace at its ends changes nothing |
| Strings.LStripChars | tools/ai_coverage.py:256 | `lstrip("- ")` removes exactly the longest leading run of dashes and spaces |
| Strings.IndexOf | tools/ai_coverage.py:185 | the first position at or after `from` holding the character, or the length when there is none |
| Strings.Split | tools/ai_coverage.py:185 | `split("\n")` returns at least one piece, and no piece contains a newline |
| Strings.JoinSplit | tools/ai_coverage.py:185 | joining the lines of a split text with newlines gives the text back |
| Strings.SplitJoin | tools/ai_coverage.py:211 | splitting lines joined with newlines, none containing a newline, gives the lines back |
| Strings.ContainsAt | tools/ai_coverage.py:182 | substring containment holds exactly when the text starts with the substring at some position |
| Patterns.RunLength | tools/ai_coverage.py:132-156 | a greedy character-class run: every character in it is of the class and the next one is not |
| Patterns.MatchTokens | tools/ai_coverage.py:132-156 | a match ends within the text and has one non-empty capture per group of the pattern |
| Patterns.MatchFirstAt | tools/ai_coverage.py:153-156 | at one position the first alternative that matches is chosen, and no earlier alternative matches there |
| Patterns.SearchFrom | tools/ai_coverage.py:225 | a found position lies at or after the start, and the first alternative that matches there is the one reported |
| Patterns.SearchFromLeftmost | tools/ai_coverage.py:225 | `search` returns the leftmost match: no alternative matches at any earlier position |
| Patterns.SearchFromFinds | tools/ai_coverage.py:225 | a match at `i` with none earlier is exactly what the search returns |
| Patterns.SearchFromNone | tools/ai_coverage.py:225 | with no match at any position, the search finds nothing |
| Patterns.MatchPlan | tools/ai_coverage.py:132-149 | a pattern matches at a position, with the stated captures, when each token fits the slice planned for it |
| Patterns.LibraryAt | tools/ai_coverage.py:150-152 | a library match starts with a dash; its name is a non-empty run of non-space characters with no colon after its first character, ended by the first such colon that has a character after it (the lazy `\S+?`) |
| Patterns.LibrarySearchFrom | tools/ai_coverage.py:295 | a found position lies at or after the start, and the library pattern matches there |
| Patterns.LibrarySearchLeftmost | tools/ai_coverage.py:295 | the library search returns the leftmost dash where the pattern matches |
| CommentStrip.StripCommentPrefix | tools/ai_coverage.py:159-177 | the result has no whitespace at either end and is never longer than the stripped line |
| CommentStrip.StripIsSlice | tools/ai_coverage.py:159-177 | in every family the result is a contiguous slice of the raw line |
| CommentStrip.StripRunShape | tools/ai_coverage.py:169-172 | hash and dash families: the result is a suffix of the stripped line. When that line opens with at least one `#` (or two `-`), what is removed is that whole run and whitespace; otherwise the line comes back merely stripped |
| CommentStrip.StripBlockShape | tools/ai_coverage.py:164-168 | block family: the stripped line is an opener, then the result, then a closer. The opener is `/*` followed by stars and whitespace, or stars and whitespace alone. The closer is stars and whitespace, then `*/` or nothing |
| CommentStrip.StripHtmlShape | tools/ai_coverage.py:173-175 | markup family: the stripped line is whitespace or `<!--` plus whitespace, then the result, then whitespace or whitespace plus `-->` |
| CommentStrip.StripDecorated | tools/ai_coverage.py:159-177 | a text decorated the way a header writer does it in any family (` * t`, `# t`, `-- t`, `<!-- t -->`) comes back unchanged |
| CommentStrip.StripUnmarked | tools/ai_coverage.py:159-177 | a line without its family's markers comes back merely stripped; in the dash family a single `-` survives |
| HeaderExtractor.ExtractHeader | tools/ai_coverage.py:180-211 | the declarative `extract_header_block`: none without the banner, else the joined header lines; the loop is proved equal to it by `ExtractHeaderBlock`, and its result is stated by `ExtractedLines`, `HeaderEmptyIff` and `RoundTrip.Extracted` |
| HeaderExtractor.HeaderLines | tools/ai_coverage.py:190-209 | the lines the extraction loop collects from the classified lines; stated by `HeaderAt` (the texts between the three landmarks), `HeaderEmptyIff` and `HeaderTextsClean`, and computed by `ScanLines` |
| HeaderExtractor.ExtractHeaderBlock | tools/ai_coverage.py:180-211 | the loop's result equals the declarative `ExtractHeader`: `None` without the banner, else the joined content lines between the first separator and the first closing separator after content |
| HeaderExtractor.ScanLines | tools/ai_coverage.py:190-209 | the scan collects exactly `HeaderLines` of the classified lines, breaking at the first closing separator after content |
| HeaderExtractor.ScanLine | tools/ai_coverage.py:191-209 | one iteration keeps the loop invariant or, when it breaks, has already collected the whole header |
| HeaderExtractor.CleanLine | tools/ai_coverage.py:191 | the cleaned line classifies as the precomputed classification of that line |
| HeaderExtractor.First | tools/ai_coverage.py:190-209 | the first index at or after `from` holding a line of the given kind, with no such line before it |
| HeaderExtractor.HeaderAt | tools/ai_coverage.py:190-209 | given the three landmarks (first separator, first content line after it, first closing separator after that), the header is exactly the content texts between the second and the third |
| HeaderExtractor.HeaderEmptyIff | tools/ai_coverage.py:211 | no header is returned exactly when no content line follows the first separator |
| HeaderExtractor.ContentOnlyFrom | tools/ai_coverage.py:209 | every text collected between two line positions is the text of a content line between them |
| HeaderExtractor.HeaderTextsClean | tools/ai_coverage.py:193-202 | header lines contain no newline, no banner and no separator |
| HeaderExtractor.ContentOnlySlice | tools/ai_coverage.py:209 | the texts collected between two positions are the content texts of that slice of lines |
| HeaderExtractor.FileHeaderClean | tools/ai_coverage.py:180-211 | for any file in any family, the header lines contain no newline, no banner and no separator |
| HeaderExtractor.HeaderRoundTrip | tools/ai_coverage.py:211 | splitting the joined header gives back its lines |
| HeaderExtractor.ExtractedLines | tools/ai_coverage.py:180-211 | an extracted header implies the file contains the banner; its lines are the collected lines and contain neither banner nor separator |
| HeaderParser.TypeOf | tools/ai_coverage.py:224-233 | the `RE_TYPE` search and its WHOLE / ABOVE / DOWN classification; stated by `TypeFound`, `NoTagNoType`, `AltsExclusive` and `TypeLineType` |
| HeaderParser.TypeFound | tools/ai_coverage.py:224-233 | when an alternative matches at a position and no match of `RE_TYPE` starts before it, that alternative decides the classification; an earlier `TYPE:` tag that does not match is passed over |
| HeaderParser.NoTagNoType | tools/ai_coverage.py:224-226 | without a `TYPE:` tag the classification stays unset |
| HeaderParser.AltsExclusive | tools/ai_coverage.py:153-156 | at most one of the three `TYPE:` alternatives matches at a position |
| HeaderParser.TypeLineType | tools/ai_coverage.py:224-233 | a header starting with `TYPE: WHOLE CODE IN THIS FILE`, `ABOVE 50% …` or `DOWN 50% …` is classified accordingly |
| HeaderParser.WholeTypeMatches | tools/ai_coverage.py:153-156 | the whole-file `TYPE:` phrase matches its alternative |
| HeaderParser.AboveTypeMatches | tools/ai_coverage.py:153-156 | the above-50 % `TYPE:` phrase matches its alternative |
| HeaderParser.DownTypeMatches | tools/ai_coverage.py:153-156 | the below-50 % `TYPE:` phrase matches its alternative |
| HeaderParser.SectionOf | tools/ai_coverage.py:239-251 | the section a stripped line opens, if any; stated per keyword by `MethodSectionLines`, `StructSectionLines`, `TraitSectionLines` and `LibrarySectionLine` |
| HeaderParser.MethodSectionLines | tools/ai_coverage.py:240-242 | lines starting `METHOD` or `FUNCTION` open the methods section |
| HeaderParser.StructSectionLines | tools/ai_coverage.py:243-245 | lines starting `STRUCT` or `OBJECT` open the structs section |
| HeaderParser.TraitSectionLines | tools/ai_coverage.py:246-248 | lines starting `TRAIT` or `INTERFACE` open the traits section |
| HeaderParser.LibrarySectionLine | tools/ai_coverage.py:249-251 | lines starting `IMPORTED` open the libraries section |
| HeaderParser.EntryText | tools/ai_coverage.py:256 | `line.lstrip("- ").strip()`; stated by `EntryLine` (a `- s` line gives back `s`) and `Strings.LStripChars` |
| HeaderParser.EntryOf | tools/ai_coverage.py:258-292 | an entry, whole or partial, always has a non-empty name |
| HeaderParser.LibraryOf | tools/ai_coverage.py:294-299 | a library's name is a non-empty run without whitespace; its reason has no whitespace at either end |
| HeaderParser.AddFound | tools/ai_coverage.py:258-299 | a list grows by exactly one element when an entry was found, and otherwise stays as it was |
| HeaderParser.AddEntry | tools/ai_coverage.py:253-299 | an entry line keeps the section, only appends, and adds at most one entry, only inside a section |
| HeaderParser.ParseLine | tools/ai_coverage.py:236-299 | one line either switches the section or appends at most one entry to the current section's list; nothing is ever removed |
| HeaderParser.ParseLines | tools/ai_coverage.py:235-299 | the loop over the header's lines as a fold of `ParseLine`; stated by `ParseLinesStep`, `AtMostOnePerLine`, `SourceOrder` and `NoSectionNoEntries` |
| HeaderParser.Parse | tools/ai_coverage.py:214-301 | `parse_header`: the type search, then the line fold; computed by `ParseHeader`, and given back from a written header by `RoundTrip.ReadBack` |
| HeaderParser.ParseLinesStep | tools/ai_coverage.py:236-299 | the state after `i+1` lines is one step from the state after `i` lines |
| HeaderParser.ParseOneLine | tools/ai_coverage.py:236-299 | the loop body takes the state after `i` lines to the state after `i+1` |
| HeaderParser.ParseHeader | tools/ai_coverage.py:214-301 | the method's result equals `Parse`: the type search, then the line fold |
| HeaderParser.AtMostOnePerLine | tools/ai_coverage.py:253-299 | a header yields no more entries than it has lines starting with `-` |
| HeaderParser.SourceOrder | tools/ai_coverage.py:236-299 | entries appear in source order: the lists after a prefix of the lines are prefixes of the final lists |
| HeaderParser.NoSectionNoEntries | tools/ai_coverage.py:253-258 | with no section line, no entry is recorded |
| HeaderParser.EntryLine | tools/ai_coverage.py:253-256 | a `- ` line is routed to the entry step, and its entry text is what follows the dash and space |
| HeaderParser.WholeTextParses | tools/ai_coverage.py:258-262 | `WHOLE CODE IN THE <KIND> <name>` parses as a whole entry of that name |
| HeaderParser.PartialEntryFound | tools/ai_coverage.py:263-268 | `<a>~<b> LINE CODE IN THE <KIND> <q><name><q>…` on which the WHOLE search fails parses as a partial entry with the `int` values of a and b, as the source tries the WHOLE pattern first |
| HeaderParser.PartialTextParses | tools/ai_coverage.py:263-268 | `<a>~<b> LINE CODE IN THE <KIND> <name>` with no `WHOLE` anywhere in the text, in any case, parses as a partial entry with bounds a and b (a corollary of `PartialEntryFound`) |
| HeaderParser.WholeKindText | tools/ai_coverage.py:258-285 | for every kind word, a quoted or bare whole phrase gives a whole entry of that name |
| HeaderParser.PartialKindText | tools/ai_coverage.py:263-292 | for every kind word, a partial phrase in which the WHOLE pattern is found nowhere (`Search(s, WholePattern(kind)) == None`) gives a partial entry with the decimal values of the bounds |
| HeaderParser.KindLineAdds | tools/ai_coverage.py:258-292 | an entry line inside a methods, structs or traits section appends its entry to that list alone |
| HeaderParser.WholeMethodLine | tools/ai_coverage.py:258-262 | `- WHOLE CODE IN THE METHOD <q>name<q>` appends a whole method |
| HeaderParser.PartialStructLine | tools/ai_coverage.py:275-280 | `- a~b LINE CODE IN THE STRUCT name` appends a partial struct with bounds a and b |
| HeaderParser.MethodLineExample | tools/ai_coverage.py:258-262 | ``- WHOLE CODE IN THE METHOD `foo` `` adds method `foo`, whole |
| HeaderParser.StructLineExample | tools/ai_coverage.py:275-280 | `- 12~34 LINE CODE IN THE STRUCT Bar` adds struct `Bar` with lines 12 to 34 |
| HeaderParser.DecimalExamples | tools/ai_coverage.py:267 | `int("12")` is 12 and `int("34")` is 34 |
| HeaderParser.NoLetterNoWhole | tools/ai_coverage.py:259-262 | text without the letter w cannot match a whole-entry pattern |
| Estimator.PartialLines | tools/ai_coverage.py:329-332 | the sum of `end - start + 1` over partial entries whose bounds are both non-zero; stated by `SumsAppend`, `ZeroBoundSkipped` and `RangesReplaceShare` |
| Estimator.WholeItems | tools/ai_coverage.py:329-334 | the number of whole entries, at most the number of entries; it adds up over concatenation (`SumsAppend`) |
| Estimator.EstimateAiLines | tools/ai_coverage.py:314-339 | the loop's result equals the estimate over the three lists together |
| Estimator.Estimate | tools/ai_coverage.py:314-339 | the estimate lies between 0 and the file's line count |
| Estimator.Above50Example | tools/ai_coverage.py:318-320 | a 200-line file above 50 % with no ranges is estimated at 150 lines |
| Estimator.WholeTakesAll | tools/ai_coverage.py:316-317 | a whole-file classification estimates every line |
| Estimator.UnknownTypeIsZero | tools/ai_coverage.py:323-324 | an unrecognised classification estimates 0 |
| Estimator.FallbackShares | tools/ai_coverage.py:318-322 | without usable ranges, above-50 gives three quarters and below-50 one quarter, never more than above-50 |
| Estimator.RangesReplaceShare | tools/ai_coverage.py:326-337 | with usable ranges the estimate is the range lines plus 20 per whole item, capped at the line count |
| Estimator.ZeroBoundSkipped | tools/ai_coverage.py:331 | a partial entry with a zero bound adds neither range lines nor a whole item |
| Estimator.SumsAppend | tools/ai_coverage.py:329-334 | range lines and whole items add up over concatenated lists |
| Estimator.ListOrderIrrelevant | tools/ai_coverage.py:329-334 | the estimate does not depend on the order of the three lists |
| Scanner.Candidate | tools/ai_coverage.py:351-363 | the table row of a file the walk reaches, when no directory on its way is excluded; stated by `OutsideScanChangesNothing` and `DefaultExcludedSkipped` |
| Scanner.Report | tools/ai_coverage.py:386-404 | the file report of a file with a header; stated by `UnknownTypeEstimatedAsDown50` and computed by `BuildReport` |
| Scanner.ScanStep | tools/ai_coverage.py:355-414 | the body of the walk's inner loop for one file; performed in place by `ProjectReport.AddFile`, and kept consistent by `StepConsistent` and `StepRowsAgree` |
| Scanner.ScanAll | tools/ai_coverage.py:344-416 | the totals after the whole walk, a fold of `ScanStep`; reached by `ScanDirectory` and stated by `ScanConsistent`, `ScanRowsAgree` and `BreakdownLanguages` |
| Scanner.ProjectReport.constructor | tools/ai_coverage.py:346-349 | a new report has the directory and time given and all totals zero or empty |
| Scanner.ProjectReport.AddFile | tools/ai_coverage.py:355-414 | one walked file changes the report as one step of the scan fold |
| Scanner.ProjectReport.ReadFile | tools/ai_coverage.py:362-370 | a counted file bumps the scanned count, then is read |
| Scanner.ProjectReport.ReadCounted | tools/ai_coverage.py:366-372 | a failed read leaves the report as it is; otherwise the header is extracted and recorded |
| Scanner.ProjectReport.RecordHeader | tools/ai_coverage.py:374-414 | a missing header is recorded as missing, a present one as a file report |
| Scanner.ProjectReport.RecordMissing | tools/ai_coverage.py:374-383 | a file without a header bumps the without-header count, lists the path and counts the file and its lines for its language |
| Scanner.ProjectReport.RecordReport | tools/ai_coverage.py:385-414 | a file with a header bumps the with-header count, appends its report and adds file, AI file, estimate and lines to its language |
| Scanner.BuildReport | tools/ai_coverage.py:386-404 | the file report holds the parsed lists, the stored type (`UNKNOWN` when unset) and the estimate made with the below-50 default |
| Scanner.ScanDirectory | tools/ai_coverage.py:344-416 | the returned report is fresh and its totals are the fold of the scan over all observations |
| Scanner.ScanConsistent | tools/ai_coverage.py:362-414 | after any scan: scanned files = with header + without header + failed reads; the report and missing lists have those counts; no language has more AI files than files or more AI lines than lines; no estimate exceeds its file's line count |
| Scanner.Bump | tools/ai_coverage.py:378-381 | one file adds its language to the breakdown and leaves every other language's row unchanged |
| Scanner.StepConsistent | tools/ai_coverage.py:355-414 | one walked file keeps the report's counts and bounds consistent |
| Scanner.StepRowsAgree | tools/ai_coverage.py:374-414 | one walked file keeps the breakdown's file counts in agreement with the scan's counts |
| Scanner.ScanRowsAgree | tools/ai_coverage.py:374-414 | summed over the languages of the breakdown, the file counts equal all files scanned with or without a header, and the AI-file counts equal the files with a header |
| Scanner.OutsideScanChangesNothing | tools/ai_coverage.py:353-360 | a file under an excluded directory or with an unknown extension changes nothing |
| Scanner.DefaultExcludedSkipped | tools/ai_coverage.py:67-72 | a file under a default-excluded directory is skipped whatever else is excluded |
| Scanner.ReadFailureCountsScanned | tools/ai_coverage.py:362-370 | an unreadable file is counted as scanned and changes nothing else |
| Scanner.UnknownTypeEstimatedAsDown50 | tools/ai_coverage.py:388-397 | a header without a classification is stored as `UNKNOWN` but estimated as below 50 % |
| Scanner.ScanFileKeys | tools/ai_coverage.py:378-381 | scanning one file adds at most its own language to the breakdown |
| Scanner.BreakdownLanguages | tools/ai_coverage.py:378-410 | every language in the breakdown is the name of some table entry |
| AigcapHook.SplitExt | dot-claude/hooks/check_aigcap.py:51 | the extension `os.path.splitext` returns; stated by `SplitExtFound` and `SplitExtEmpty` |
| AigcapHook.Basename | dot-claude/hooks/check_aigcap.py:54 | the base name is the tail of the path after its last slash |
| AigcapHook.SplitExtFound | dot-claude/hooks/check_aigcap.py:51 | a non-empty extension is a dotted tail of the base name with no further dot or slash, and not all of the base name before it is dots |
| AigcapHook.SplitExtEmpty | dot-claude/hooks/check_aigcap.py:51 | an empty extension means every dot of the base name has only dots before it |
| AigcapHook.SkipHitIff | dot-claude/hooks/check_aigcap.py:55-57 | a skip pattern hits exactly when some pattern occurs in the path; equality with the base name adds nothing |
| AigcapHook.ShouldCheck | dot-claude/hooks/check_aigcap.py:48-58 | `should_check`; what it decides is stated both ways by `ShouldCheckIff` |
| AigcapHook.ShouldCheckIff | dot-claude/hooks/check_aigcap.py:48-58 | a path is checked exactly when it is non-empty, its lower-cased extension is a code extension and no skip pattern occurs in it |
| AigcapHook.ExtensionsKnown | dot-claude/hooks/check_aigcap.py:20-28 | every extension the hook checks is in the scanner's language table |
| AigcapHook.ExtensionsUnchecked | dot-claude/hooks/check_aigcap.py:20-28 | the table's extensions that the hook does not check are exactly `.yaml`, `.yml`, `.toml` and `.r` |
| AigcapHook.Head | dot-claude/hooks/check_aigcap.py:116 | the first 50 lines: a prefix of the text with at most 50 newlines, the whole text or ending just after the 50th newline |
| AigcapHook.HeadBanner | dot-claude/hooks/check_aigcap.py:116-119 | a banner in the first 50 lines is a banner in the file |
| AigcapHook.WriteVerdict | dot-claude/hooks/check_aigcap.py:78-108 | the Write gate on string content; stated by `WriteAllowedIff` and `WritePriority` |
| AigcapHook.WriteContent | dot-claude/hooks/check_aigcap.py:76-108 | the Write gate on whatever the content field holds; stated by `WriteContentCrashIff`, `NullContentCrashes` and `AbsentContentBlocked` |
| AigcapHook.EditVerdict | dot-claude/hooks/check_aigcap.py:118-141 | the Edit warnings on the first 50 lines; stated by `EditWarnings` |
| AigcapHook.Dispatch | dot-claude/hooks/check_aigcap.py:74-145 | the choice between the Write gate, the Edit warnings and silence; stated by `DispatchExits` |
| AigcapHook.Decide | dot-claude/hooks/check_aigcap.py:61-145 | `main`, from decoded standard input and the file on disk to an outcome; stated by `DecideChecked`, `OnlyWriteBlocks`, `CrashIff` and `SilentExits` |
| AigcapHook.TargetPath | dot-claude/hooks/check_aigcap.py:69 | `file_path or path`; stated by `PathFallback` |
| AigcapHook.WriteAllowedIff | dot-claude/hooks/check_aigcap.py:75-108 | a Write passes exactly when the content has the banner, no YES and a NO; a blocked Write exits 2 with a message on standard error |
| AigcapHook.WritePriority | dot-claude/hooks/check_aigcap.py:78-106 | the checks come in order: missing banner, then YES present, then NO missing |
| AigcapHook.EditWarnings | dot-claude/hooks/check_aigcap.py:110-143 | an Edit always exits 0; each warning is issued exactly under its condition, on standard output; none when the banner and a NO are present |
| AigcapHook.DecideChecked | dot-claude/hooks/check_aigcap.py:61-75 | for a decodable event about a checked path, the outcome is the Write/Edit dispatch |
| AigcapHook.DispatchExits | dot-claude/hooks/check_aigcap.py:74-145 | the tool dispatch exits 0, 1 or 2, and non-zero only for a Write |
| AigcapHook.OnlyWriteBlocks | dot-claude/hooks/check_aigcap.py:61-145 | the exit code is 0, 1 or 2, and 2 only for a Write to a checked path |
| AigcapHook.CrashIff | dot-claude/hooks/check_aigcap.py:61-108 | the hook crashes exactly in these cases: standard input is not an object; `tool_input` is present but not an object; the path is truthy but not a string; or a Write's content crashes the checks (see `WriteContentCrashIff`) |
| AigcapHook.WriteContentCrashIff | dot-claude/hooks/check_aigcap.py:76-79 | a Write's verdict is a crash exactly when its content is null, a number or a boolean, or a list or object holding the banner, which passes the banner test and then fails in the pattern search |
| AigcapHook.NullContentCrashes | dot-claude/hooks/check_aigcap.py:76-79 | a Write whose content is JSON null crashes |
| AigcapHook.AbsentContentBlocked | dot-claude/hooks/check_aigcap.py:76-86 | a Write with no content is blocked for a missing banner |
| AigcapHook.SilentExits | dot-claude/hooks/check_aigcap.py:62-72 | undecodable input, an empty path, an unchecked path, another tool, or an unreadable file after an Edit all exit 0 silently |
| AigcapHook.PathFallback | dot-claude/hooks/check_aigcap.py:69 | `path` is used exactly when `file_path` is absent or falsy |
| AigcapHook.HasNo | dot-claude/hooks/check_aigcap.py:43 | the unanchored, case-insensitive `REVIEWED-BY-HUMAN\s*:\s*NO` search; stated by `AnswerFound` and `NoneCountsAsNo` |
| AigcapHook.HasYes | dot-claude/hooks/check_aigcap.py:44 | the `REVIEWED-BY-HUMAN\s*:\s*YES` search; stated by `AnswerFound` and `YesFound` |
| AigcapHook.FieldMatches | dot-claude/hooks/check_aigcap.py:43-44 | the field name, optional whitespace, a colon, optional whitespace and the answer match the field pattern |
| AigcapHook.AnswerFound | dot-claude/hooks/check_aigcap.py:43-44 | `REVIEWED-BY-HUMAN: <answer>` anywhere in the text matches the field pattern for that answer |
| AigcapHook.NoneCountsAsNo | dot-claude/hooks/check_aigcap.py:43 | `REVIEWED-BY-HUMAN: NONE` satisfies the NO pattern, since it is not anchored |
| AigcapHook.YesFound | dot-claude/hooks/check_aigcap.py:44 | `REVIEWED-BY-HUMAN: YES` anywhere in the text is found |
| RoundTrip.Decimal | tools/ai_coverage.py:267 | the written bound is a digit run whose `int` value is the number |
| RoundTrip.ItemParses | tools/ai_coverage.py:253-292 | each written entry line, whole or partial, appends exactly that entry to its section's list |
| RoundTrip.SectionParses | tools/ai_coverage.py:239-292 | a written section (kind word, then its entries) switches to that section and appends its entries in order |
| RoundTrip.BodyParses | tools/ai_coverage.py:236-299 | the written header body parses to the annotation's three lists and no libraries |
| RoundTrip.BodyType | tools/ai_coverage.py:224-233 | the written body's classification is the annotation's, and unset when none was written |
| RoundTrip.TextsStrip | tools/ai_coverage.py:159-177 | every written header line, decorated in any family, strips back to itself |
| RoundTrip.FileClassified | tools/ai_coverage.py:185-191 | the written file's lines, cleaned, are the header texts in order |
| RoundTrip.Extracted | tools/ai_coverage.py:180-211 | extracting from the written file returns exactly the written header body |
| RoundTrip.ReadBack | tools/ai_coverage.py:180-301 | in every comment family, extracting and parsing a written annotation gives back its classification and its method, struct and trait lists |

## Left out

- The HTML dashboard (`generate_html` and its helpers), `export_json`, and `main` with
  argparse in `tools/ai_coverage.py` are not part of this model: they render and print
  results and decide nothing modelled here.
- I/O is not modelled. In its place:
  - `os.walk`, `os.path.relpath`/`abspath`, file reads and `datetime.now` are the
    scanner's observations and strings;
  - `count_lines` is an input per file, the count of lines whose `strip()` is non-empty;
  - the hook's `json.load` of standard input and its read of the first 50 lines are
    inputs.
- Character handling is ASCII-only:
  - Whitespace is space, tab, newline, carriage return, vertical tab and form feed. `\w`
    is ASCII letters, digits and `_`. `IGNORECASE` and `.lower()`/`.upper()` fold ASCII
    letters only.
  - Python's Unicode classes are not modelled, nor is `split("\n")` on text read with
    universal newlines.
- The regular expressions are replaced by the token matcher in `Patterns`. For these
  fixed patterns, greedy matching without backtracking finds the same matches, because
  every greedy run is followed by a token that cannot start with a character of that run.
- Estimator.Estimate: `int(total * 0.75)` and `int(total * 0.25)` are modelled as
  `(3 * total) / 4` and `total / 4`. These agree with the floating-point products for
  realistic line counts, but not for counts large enough for the products to round.
- Scanner.ScanDirectory: the language breakdown is a map, so the insertion order of
  Python's dict, which only affects how the dashboard lists languages, is not kept.
- Scanner.ScanDirectory: `os.walk` pruning of excluded directories is stated per file:
  a file is visited when no directory on its way is excluded.
- AigcapHook.SplitExtFound: `os.path.splitext` is modelled with POSIX separators only.
- AigcapHook.EditWarnings: the hook's `try`/`except Exception: pass` around the Edit
  branch is modelled only for the one error it can meet in practice, an unreadable
  file. That case becomes `None` on disk and silence.
- AigcapHook.CrashIff: a crash (an uncaught exception) is modelled as exit status 1 with
  no message; the traceback text is not modelled.
- CommentStrip.StripBlockShape: the removed opener and closer are described by their
  characters: a slash only first or last, next to a star, otherwise stars and
  whitespace. This is a slightly larger set than the exact regular language of the
  three substitutions.
- CommentStrip.StripHtmlShape: the removed opener may be whitespace alone. That set
  includes the empty opener that actually occurs, since the line is stripped first.
- RoundTrip.ReadBack: the writer uses one layout:
  - the banner, a separator, an optional `TYPE:` line, the three sections
    `METHOD`/`STRUCT`/`TRAIT` and a closing separator;
  - backtick-quoted names made of word characters only;
  - no libraries section. Library reasons are free text, so they are covered by
    `LibraryOf` and not by the round trip.
- The breakdown's deduplication of libraries by name happens in the dashboard code and
  is not part of this model.
