/**
 * The counting and accumulation of `scan_directory`. The directory walk and the file
 * reads are inputs: one observation per file the walk lists, in walk order, with the
 * names of the directories between the scanned root and the file, the relative path,
 * the text read (or `None` when the read failed) and the file's non-blank line count.
 */
module Scanner {
  import opened Wrappers
  import opened Strings
  import opened Languages
  import opened HeaderExtractor
  import opened HeaderParser
  import opened Estimator

  datatype Observation = Observation(
    dirs: seq<string>,
    name: string,
    relPath: string,
    content: Option<string>,
    lineCount: nat)

  /** `FileReport`: one file that carries a header. */
  datatype FileReport = FileReport(
    path: string,
    language: string,
    typeCoverage: string,
    methods: seq<Entry>,
    structs: seq<Entry>,
    traits: seq<Entry>,
    libraries: seq<Library>,
    totalLines: nat,
    aiLinesEstimate: nat)

  /** One language's row of the breakdown: files, files with a header, estimated and total lines. */
  datatype LangStats = LangStats(total: nat, ai: nat, aiLines: nat, totalLines: nat)

  /** The part of `ProjectReport` that the scan changes. */
  datatype Totals = Totals(
    scanned: nat,
    withHeader: nat,
    withoutHeader: nat,
    files: seq<FileReport>,
    missing: seq<string>,
    breakdown: map<string, LangStats>)

  const NoTotals := Totals(0, 0, 0, [], [], map[])

  /** The walk reaches a file only when no directory on its way is excluded. */
  predicate Visited(o: Observation, exclude: set<string>) {
    forall k | 0 <= k < |o.dirs| :: o.dirs[k] !in exclude
  }

  /** The language of a file the scan counts: a visited file whose extension is in the table. */
  function Candidate(o: Observation, exclude: set<string>): Option<LangInfo> {
    if Visited(o, exclude) then LanguageOf(o.name) else None
  }

  /** Adds one file to a language's row, creating the row at zero first. */
  function Bump(breakdown: map<string, LangStats>, lang: string, withHeader: bool, aiLines: nat, lines: nat)
    : (r: map<string, LangStats>)
    ensures r.Keys == breakdown.Keys + {lang}
    ensures forall l | l in breakdown && l != lang :: r[l] == breakdown[l]
  {
    var prev := if lang in breakdown then breakdown[lang] else LangStats(0, 0, 0, 0);
    breakdown[lang := LangStats(prev.total + 1, prev.ai + (if withHeader then 1 else 0),
                                prev.aiLines + aiLines, prev.totalLines + lines)]
  }

  /** The TYPE stored in the report: the parsed one, or "UNKNOWN". */
  function StoredType(kind: Option<CoverageType>): string {
    match kind
    case Some(t) => TypeName(t)
    case None => "UNKNOWN"
  }

  /** The TYPE the estimate uses: the parsed one, or DOWN_50. */
  function EstimatedType(kind: Option<CoverageType>): string {
    match kind
    case Some(t) => TypeName(t)
    case None => "DOWN_50"
  }

  /** The report for a file with the header text `h`. */
  function Report(o: Observation, info: LangInfo, h: string): FileReport {
    var parsed := Parse(h);
    var ai := Estimate(o.lineCount, EstimatedType(parsed.kind), parsed.methods + parsed.structs + parsed.traits);
    FileReport(o.relPath, info.name, StoredType(parsed.kind), parsed.methods, parsed.structs,
               parsed.traits, parsed.libraries, o.lineCount, ai)
  }

  /** A file without a header: its path joins the missing list and its language's row. */
  function AddMissing(t: Totals, o: Observation, info: LangInfo): Totals {
    t.(withoutHeader := t.withoutHeader + 1, missing := t.missing + [o.relPath],
       breakdown := Bump(t.breakdown, info.name, false, 0, o.lineCount))
  }

  /** A file with a header: its report joins the list and its estimate its language's row. */
  function AddReport(t: Totals, info: LangInfo, report: FileReport): Totals {
    t.(withHeader := t.withHeader + 1, files := t.files + [report],
       breakdown := Bump(t.breakdown, info.name, true, report.aiLinesEstimate, report.totalLines))
  }

  /** What the extracted header, or its absence, does to the totals. */
  function Record(t: Totals, o: Observation, info: LangInfo, header: Option<string>): Totals {
    match header
    case None => AddMissing(t, o, info)
    case Some(h) => AddReport(t, info, Report(o, info, h))
  }

  /** A counted file: an unreadable one is left there, a read one is recorded. */
  function ReadContent(t: Totals, o: Observation, info: LangInfo): Totals {
    match o.content
    case None => t
    case Some(text) => Record(t, o, info, ExtractHeader(text, info.family))
  }

  /** A file of a known language: counted, then read, then recorded. */
  function ScanFile(t: Totals, o: Observation, info: LangInfo): Totals {
    ReadContent(t.(scanned := t.scanned + 1), o, info)
  }

  /** What one observation does to the totals: the body of the walk's inner loop. */
  function ScanStep(t: Totals, o: Observation, exclude: set<string>): Totals {
    match Candidate(o, exclude)
    case None => t
    case Some(info) => ScanFile(t, o, info)
  }

  /** The totals after the given observations, in order. */
  function ScanAll(obs: seq<Observation>, exclude: set<string>): Totals
    decreases |obs|
  {
    if obs == [] then NoTotals
    else ScanStep(ScanAll(obs[..|obs| - 1], exclude), obs[|obs| - 1], exclude)
  }

  /** `ProjectReport`, whose counters, lists and breakdown the scan updates in place. */
  class ProjectReport {
    const scanDirectory: string
    const scanTime: string
    var totalFilesScanned: nat
    var totalFilesWithAigcap: nat
    var totalFilesWithoutAigcap: nat
    var files: seq<FileReport>
    var filesWithoutHeader: seq<string>
    var languageBreakdown: map<string, LangStats>

    function Current(): Totals
      reads this
    {
      Totals(totalFilesScanned, totalFilesWithAigcap, totalFilesWithoutAigcap, files,
             filesWithoutHeader, languageBreakdown)
    }

    /** The absolute directory and the scan time are inputs. */
    constructor (directory: string, time: string)
      ensures scanDirectory == directory && scanTime == time
      ensures Current() == NoTotals
    {
      scanDirectory, scanTime := directory, time;
      totalFilesScanned, totalFilesWithAigcap, totalFilesWithoutAigcap := 0, 0, 0;
      files, filesWithoutHeader, languageBreakdown := [], [], map[];
    }

    /** One file of the walk, as the loop body handles it: the exclusion and extension tests. */
    method AddFile(o: Observation, exclude: set<string>)
      modifies this
      ensures Current() == ScanStep(old(Current()), o, exclude)
    {
      if !Visited(o, exclude) {
        return;
      }
      var ext := LowerString(Suffix(o.name));
      if ext !in LangMap {
        return;
      }
      ReadFile(o, LangMap[ext]);
    }

    /** A file of a known language: counted before it is read. */
    method ReadFile(o: Observation, info: LangInfo)
      modifies this
      ensures Current() == ScanFile(old(Current()), o, info)
    {
      totalFilesScanned := totalFilesScanned + 1;
      ReadCounted(o, info);
    }

    /** A counted file: nothing more when unreadable, else its header is extracted and recorded. */
    method ReadCounted(o: Observation, info: LangInfo)
      modifies this
      ensures Current() == ReadContent(old(Current()), o, info)
    {
      if o.content.None? {
        return;
      }
      var header := ExtractHeaderBlock(o.content.value, info.family);
      RecordHeader(o, info, header);
    }

    /** The two outcomes of a read file: no header, or a parsed and estimated one. */
    method RecordHeader(o: Observation, info: LangInfo, header: Option<string>)
      modifies this
      ensures Current() == Record(old(Current()), o, info, header)
    {
      if header.None? {
        RecordMissing(o, info);
      } else {
        var report := BuildReport(o, info, header.value);
        RecordReport(info, report);
      }
    }

    method RecordMissing(o: Observation, info: LangInfo)
      modifies this
      ensures Current() == AddMissing(old(Current()), o, info)
    {
      totalFilesWithoutAigcap := totalFilesWithoutAigcap + 1;
      filesWithoutHeader := filesWithoutHeader + [o.relPath];
      languageBreakdown := Bump(languageBreakdown, info.name, false, 0, o.lineCount);
    }

    method RecordReport(info: LangInfo, report: FileReport)
      modifies this
      ensures Current() == AddReport(old(Current()), info, report)
    {
      totalFilesWithAigcap := totalFilesWithAigcap + 1;
      files := files + [report];
      languageBreakdown := Bump(languageBreakdown, info.name, true, report.aiLinesEstimate, report.totalLines);
    }
  }

  /** The report of a file with a header: parsed, then estimated with UNKNOWN read as DOWN_50. */
  method BuildReport(o: Observation, info: LangInfo, h: string) returns (report: FileReport)
    ensures report == Report(o, info, h)
  {
    var parsed := ParseHeader(h);
    var aiLines := EstimateAiLines(o.lineCount, EstimatedType(parsed.kind), parsed.methods, parsed.structs, parsed.traits);
    report := FileReport(o.relPath, info.name, StoredType(parsed.kind), parsed.methods,
                         parsed.structs, parsed.traits, parsed.libraries, o.lineCount, aiLines);
  }

  /** `scan_directory` over the walk's observations. */
  method ScanDirectory(directory: string, time: string, obs: seq<Observation>, exclude: set<string>)
    returns (report: ProjectReport)
    ensures fresh(report) && report.scanDirectory == directory && report.scanTime == time
    ensures report.Current() == ScanAll(obs, exclude)
  {
    report := new ProjectReport(directory, time);
    var i := 0;
    while i < |obs|
      invariant 0 <= i <= |obs|
      invariant report.scanDirectory == directory && report.scanTime == time
      invariant report.Current() == ScanAll(obs[..i], exclude)
    {
      assert obs[..i + 1][..i] == obs[..i];
      report.AddFile(obs[i], exclude);
      i := i + 1;
    }
    assert obs[..i] == obs;
  }

  // ---------------------------------------------------------------------------------
  // Properties of the scan
  // ---------------------------------------------------------------------------------

  /** The observations the scan counts but cannot read. */
  function ReadFailures(obs: seq<Observation>, exclude: set<string>): nat
    decreases |obs|
  {
    if obs == [] then 0
    else
      var o := obs[|obs| - 1];
      ReadFailures(obs[..|obs| - 1], exclude) + (if Candidate(o, exclude).Some? && o.content.None? then 1 else 0)
  }

  /** The bookkeeping the scan keeps. */
  predicate Consistent(t: Totals) {
    && |t.files| == t.withHeader
    && |t.missing| == t.withoutHeader
    && (forall l | l in t.breakdown :: t.breakdown[l].ai <= t.breakdown[l].total)
    && (forall l | l in t.breakdown :: t.breakdown[l].aiLines <= t.breakdown[l].totalLines)
    && (forall k | 0 <= k < |t.files| :: t.files[k].aiLinesEstimate <= t.files[k].totalLines)
  }

  /** A new row, or a row grown by one file, keeps both bounds. */
  lemma BumpConsistent(t: Totals, lang: string, withHeader: bool, aiLines: nat, lines: nat)
    requires Consistent(t) && aiLines <= lines
    ensures var b := Bump(t.breakdown, lang, withHeader, aiLines, lines);
      (forall l | l in b :: b[l].ai <= b[l].total) && (forall l | l in b :: b[l].aiLines <= b[l].totalLines)
  {
  }

  lemma AddMissingConsistent(t: Totals, o: Observation, info: LangInfo)
    requires Consistent(t)
    ensures Consistent(AddMissing(t, o, info))
  {
    BumpConsistent(t, info.name, false, 0, o.lineCount);
  }

  lemma AddReportConsistent(t: Totals, info: LangInfo, report: FileReport)
    requires Consistent(t) && report.aiLinesEstimate <= report.totalLines
    ensures Consistent(AddReport(t, info, report))
  {
    BumpConsistent(t, info.name, true, report.aiLinesEstimate, report.totalLines);
    var files := t.files + [report];
    assert forall k | 0 <= k < |t.files| :: files[k] == t.files[k];
  }

  /** Recording a header, or its absence, keeps the bookkeeping. */
  lemma RecordConsistent(t: Totals, o: Observation, info: LangInfo, header: Option<string>)
    requires Consistent(t)
    ensures Consistent(Record(t, o, info, header))
  {
    match header
    case None =>
      AddMissingConsistent(t, o, info);
    case Some(h) =>
      AddReportConsistent(t, info, Report(o, info, h));
  }

  lemma ScanFileConsistent(t: Totals, o: Observation, info: LangInfo)
    requires Consistent(t)
    ensures Consistent(ScanFile(t, o, info))
  {
    match o.content
    case None =>
    case Some(text) =>
      RecordConsistent(t.(scanned := t.scanned + 1), o, info, ExtractHeader(text, info.family));
  }

  /** One step keeps the bookkeeping. */
  lemma StepConsistent(t: Totals, o: Observation, exclude: set<string>)
    requires Consistent(t)
    ensures Consistent(ScanStep(t, o, exclude))
  {
    match Candidate(o, exclude)
    case None =>
    case Some(info) =>
      ScanFileConsistent(t, o, info);
  }

  /**
   * After any walk: one report per file with a header, one path per file without one,
   * every scanned file is one of those two or a read failure, and in every language's row
   * no more files have a header than there are files and no more lines are estimated
   * than counted.
   */
  lemma {:induction false} ScanConsistent(obs: seq<Observation>, exclude: set<string>)
    ensures Consistent(ScanAll(obs, exclude))
    ensures ScanAll(obs, exclude).scanned ==
      ScanAll(obs, exclude).withHeader + ScanAll(obs, exclude).withoutHeader + ReadFailures(obs, exclude)
    decreases |obs|
  {
    if obs != [] {
      var init := obs[..|obs| - 1];
      ScanConsistent(init, exclude);
      StepConsistent(ScanAll(init, exclude), obs[|obs| - 1], exclude);
    }
  }

  /** A file under an excluded directory, or with an extension not in the table, changes nothing. */
  lemma OutsideScanChangesNothing(t: Totals, o: Observation, exclude: set<string>)
    requires !Visited(o, exclude) || LowerString(Suffix(o.name)) !in LangMap
    ensures ScanStep(t, o, exclude) == t
  {
  }

  /**
   * The command line's exclusion set is `DEFAULT_EXCLUDE` with the `--exclude` names added;
   * a file under one of the default directories is then never counted.
   */
  lemma DefaultExcludedSkipped(t: Totals, o: Observation, extra: set<string>, k: nat)
    requires k < |o.dirs| && o.dirs[k] in DefaultExclude
    ensures ScanStep(t, o, DefaultExclude + extra) == t
  {
    assert !Visited(o, DefaultExclude + extra);
  }

  /** The column-wise sum of the breakdown's rows. */
  ghost function Sum(b: map<string, LangStats>): LangStats
    decreases |b|
  {
    if b == map[] then LangStats(0, 0, 0, 0)
    else
      var l :| l in b;
      Plus(b[l], Sum(b - {l}))
  }

  function Plus(x: LangStats, y: LangStats): LangStats {
    LangStats(x.total + y.total, x.ai + y.ai, x.aiLines + y.aiLines, x.totalLines + y.totalLines)
  }

  /** The sum does not depend on which row is taken first. */
  lemma {:induction false} SumWithout(b: map<string, LangStats>, l: string)
    requires l in b
    ensures Sum(b) == Plus(b[l], Sum(b - {l}))
    decreases |b|
  {
    var j :| j in b && Sum(b) == Plus(b[j], Sum(b - {j}));
    if j != l {
      SumWithout(b - {j}, l);
      SumWithout(b - {l}, j);
      assert (b - {j})[l] == b[l] && (b - {l})[j] == b[j];
      assert b - {j} - {l} == b - {l} - {j};
      var rest := Sum(b - {j} - {l});
      assert Sum(b - {j}) == Plus(b[l], rest);
      assert Sum(b - {l}) == Plus(b[j], rest);
      assert Plus(b[j], Plus(b[l], rest)) == Plus(b[l], Plus(b[j], rest));
    }
  }

  /** Bumping a row adds the new file's counts to the column sums. */
  lemma BumpSum(b: map<string, LangStats>, lang: string, withHeader: bool, aiLines: nat, lines: nat)
    ensures Sum(Bump(b, lang, withHeader, aiLines, lines)) ==
      Plus(LangStats(1, if withHeader then 1 else 0, aiLines, lines), Sum(b))
  {
    var r := Bump(b, lang, withHeader, aiLines, lines);
    SumWithout(r, lang);
    assert r - {lang} == b - {lang};
    if lang in b {
      SumWithout(b, lang);
    } else {
      assert b - {lang} == b;
    }
  }

  /** The breakdown's file columns agree with the counters. */
  ghost predicate RowsAgree(t: Totals) {
    Sum(t.breakdown).total == t.withHeader + t.withoutHeader && Sum(t.breakdown).ai == t.withHeader
  }

  lemma StepRowsAgree(t: Totals, o: Observation, exclude: set<string>)
    requires RowsAgree(t)
    ensures RowsAgree(ScanStep(t, o, exclude))
  {
    match Candidate(o, exclude)
    case None =>
    case Some(info) =>
      match o.content
      case None =>
      case Some(text) =>
        var u := t.(scanned := t.scanned + 1);
        match ExtractHeader(text, info.family)
        case None =>
          BumpSum(u.breakdown, info.name, false, 0, o.lineCount);
        case Some(h) =>
          var report := Report(o, info, h);
          BumpSum(u.breakdown, info.name, true, report.aiLinesEstimate, report.totalLines);
  }

  /**
   * After any walk, the breakdown's file counts add up over the languages to the files
   * with a header plus those without, and its header counts to the files with one.
   */
  lemma {:induction false} ScanRowsAgree(obs: seq<Observation>, exclude: set<string>)
    ensures RowsAgree(ScanAll(obs, exclude))
    decreases |obs|
  {
    if obs != [] {
      var init := obs[..|obs| - 1];
      ScanRowsAgree(init, exclude);
      StepRowsAgree(ScanAll(init, exclude), obs[|obs| - 1], exclude);
    }
  }

  /** A file that was listed but could not be read is counted as scanned and nowhere else. */
  lemma ReadFailureCountsScanned(t: Totals, o: Observation, exclude: set<string>)
    requires Candidate(o, exclude).Some? && o.content.None?
    ensures ScanStep(t, o, exclude) == t.(scanned := t.scanned + 1)
  {
  }

  /** A header without TYPE is stored as "UNKNOWN" but estimated as DOWN_50. */
  lemma UnknownTypeEstimatedAsDown50(o: Observation, info: LangInfo, h: string)
    requires Parse(h).kind == None
    ensures Report(o, info, h).typeCoverage == "UNKNOWN"
    ensures Report(o, info, h).aiLinesEstimate ==
      Estimate(o.lineCount, "DOWN_50", Parse(h).methods + Parse(h).structs + Parse(h).traits)
  {
  }

  /** The rows a file can add: only its own language's. */
  lemma ScanFileKeys(t: Totals, o: Observation, info: LangInfo)
    ensures ScanFile(t, o, info).breakdown.Keys <= t.breakdown.Keys + {info.name}
  {
    match o.content
    case None =>
    case Some(text) =>
      match ExtractHeader(text, info.family)
      case None =>
      case Some(h) =>
  }

  /** Every row of the breakdown belongs to a language of the table. */
  lemma {:induction false} BreakdownLanguages(obs: seq<Observation>, exclude: set<string>)
    ensures forall l | l in ScanAll(obs, exclude).breakdown :: exists ext | ext in LangMap :: LangMap[ext].name == l
    decreases |obs|
  {
    if obs != [] {
      var init := obs[..|obs| - 1];
      BreakdownLanguages(init, exclude);
      var o := obs[|obs| - 1];
      match Candidate(o, exclude)
      case None =>
      case Some(info) =>
        ScanFileKeys(ScanAll(init, exclude), o, info);
        var ext := LowerString(Suffix(o.name));
        assert ext in LangMap && LangMap[ext] == info;
    }
  }
}
