/** The history of an ingestion run: de-duplicated issues, the command built from a cycle, its
    validation and sanitising, and the ids of its rows. Text redaction and the UUID5 hash are parameters. */
module RunHistory {
  import opened Text
  import opened Firsts
  import opened Fields
  import R = Redaction

  type Redactor = string -> string

  // ---------------------------------------------------------------- de-duplicated issues

  datatype CycleIssue = CycleIssue(family: Option<string>, stage: string, code: string, severity: string,
                                   field: Option<string>, message: string)

  datatype FamilyResult = FamilyResult(family: string, targetYear: int, latestYear: Option<int>, status: string,
                                       statuses: seq<Option<string>>, counts: seq<int>, metadata: R.Json,
                                       failures: seq<CycleIssue>)

  type IssueKey = (Option<string>, string, string, string)

  function KeyOf(issue: CycleIssue, r: Redactor): IssueKey { (issue.family, issue.stage, issue.code, r(issue.message)) }

  function Keyed(issues: seq<CycleIssue>, r: Redactor): (k: seq<(IssueKey, CycleIssue)>)
    ensures |k| == |issues| && forall i :: 0 <= i < |k| ==> k[i] == (KeyOf(issues[i], r), issues[i])
  {
    seq(|issues|, i requires 0 <= i < |issues| => (KeyOf(issues[i], r), issues[i]))
  }

  function FamilyFailures(families: seq<FamilyResult>): seq<CycleIssue> {
    if families == [] then [] else FamilyFailures(families[..|families| - 1]) + families[|families| - 1].failures
  }

  function IssuesOnce(issues: seq<CycleIssue>, r: Redactor): seq<(IssueKey, CycleIssue)> { Kept(Keyed(issues, r)) }

  /** seen holds the keys of the issues kept so far. */
  ghost predicate Tracks(seen: set<IssueKey>, issues: seq<CycleIssue>, all: seq<CycleIssue>, r: Redactor) {
    issues == Values(IssuesOnce(all, r)) && forall k :: k in seen <==> Get(IssuesOnce(all, r), k).Some?
  }

  lemma TracksMore(seen: set<IssueKey>, issues: seq<CycleIssue>, all: seq<CycleIssue>, issue: CycleIssue, r: Redactor)
    requires Tracks(seen, issues, all, r)
    ensures var key := KeyOf(issue, r);
            if key in seen then Tracks(seen, issues, all + [issue], r) else Tracks(seen + {key}, issues + [issue], all + [issue], r)
  {
    hide Kept, Get;
    var key := KeyOf(issue, r);
    var before := IssuesOnce(all, r);
    assert Keyed(all + [issue], r) == Keyed(all, r) + [(key, issue)];
    KeptMore(Keyed(all, r), (key, issue));
    if key !in seen {
      forall k ensures k in seen + {key} <==> Get(IssuesOnce(all + [issue], r), k).Some? { GetMore(before, (key, issue), k); }
    }
  }

  /** iter_deduplicated_ingestion_issues: the families' failures, then the run's own. */
  method Deduplicate(families: seq<FamilyResult>, failures: seq<CycleIssue>, r: Redactor) returns (issues: seq<CycleIssue>)
    ensures issues == Values(IssuesOnce(FamilyFailures(families) + failures, r))
  {
    hide Kept, Get, KeyOf, IssuesOnce;
    issues := [];
    var seen: set<IssueKey> := {};
    ghost var all: seq<CycleIssue> := [];
    NothingTracked(r);
    for f := 0 to |families|
      invariant all == FamilyFailures(families[..f]) && Tracks(seen, issues, all, r)
    {
      assert families[..f + 1][..f] == families[..f];
      var failed := families[f].failures;
      ghost var before := all;
      for i := 0 to |failed|
        invariant all == before + failed[..i] && Tracks(seen, issues, all, r)
      {
        TracksMore(seen, issues, all, failed[i], r);
        var key := KeyOf(failed[i], r);
        if key !in seen {
          seen := seen + {key};
          issues := issues + [failed[i]];
        }
        all := all + [failed[i]];
      }
      assert failed[..|failed|] == failed;
    }
    assert families[..|families|] == families;
    for i := 0 to |failures|
      invariant all == FamilyFailures(families) + failures[..i] && Tracks(seen, issues, all, r)
    {
      TracksMore(seen, issues, all, failures[i], r);
      var key := KeyOf(failures[i], r);
      if key !in seen {
        seen := seen + {key};
        issues := issues + [failures[i]];
      }
      all := all + [failures[i]];
    }
    assert failures[..|failures|] == failures;
  }

  lemma NothingTracked(r: Redactor)
    ensures Tracks({}, [], [], r)
  {
    assert Keyed([], r) == [];
  }

  // ---------------------------------------------------------------- the command

  datatype RunRecord = RunRecord(runId: string, startedAt: int, finishedAt: Option<int>, status: string, trigger: string,
                                 configHash: Option<string>, families: seq<string>, initialYear: Option<int>,
                                 cycleCount: Option<int>, totals: seq<int>, metadata: R.Json)

  datatype SourceResult = SourceResult(runId: string, family: string, targetYear: Option<int>, latestYear: Option<int>,
                                       status: string, statuses: seq<Option<string>>, counts: seq<int>, metadata: R.Json)

  datatype IssueRecord = IssueRecord(runId: string, stage: string, code: string, message: string, family: Option<string>,
                                     targetYear: Option<int>, severity: string, field: Option<string>, metadata: R.Json)

  datatype Command = Command(run: RunRecord, results: seq<SourceResult>, issues: seq<IssueRecord>)

  const NO_METADATA := R.Object(R.NoEntries)

  /** The year of the last result of a family. */
  function TargetYear(families: seq<FamilyResult>, family: string): Option<int> {
    if families == [] then None
    else
      var last := families[|families| - 1];
      if last.family == family then Some(last.targetYear) else TargetYear(families[..|families| - 1], family)
  }

  method TargetYears(families: seq<FamilyResult>) returns (years: map<string, int>)
    ensures forall f :: (if f in years then Some(years[f]) else None) == TargetYear(families, f)
  {
    years := map[];
    for i := 0 to |families|
      invariant forall f :: (if f in years then Some(years[f]) else None) == TargetYear(families[..i], f)
    {
      assert families[..i + 1][..i] == families[..i];
      years := years[families[i].family := families[i].targetYear];
    }
    assert families[..|families|] == families;
  }

  function IssueRecordOf(runId: string, issue: CycleIssue, families: seq<FamilyResult>, r: Redactor): IssueRecord {
    IssueRecord(runId, issue.stage, issue.code, r(issue.message), issue.family,
                if issue.family.Some? then TargetYear(families, issue.family.value) else None,
                issue.severity, issue.field, NO_METADATA)
  }

  /** The last count is that of the family's failures. */
  function SourceResultOf(runId: string, f: FamilyResult): SourceResult {
    SourceResult(runId, f.family, Some(f.targetYear), f.latestYear, f.status, f.statuses, f.counts + [|f.failures|], f.metadata)
  }

  function IssueRecords(runId: string, issues: seq<CycleIssue>, families: seq<FamilyResult>, r: Redactor): (records: seq<IssueRecord>)
    ensures |records| == |issues| && forall i :: 0 <= i < |issues| ==> records[i] == IssueRecordOf(runId, issues[i], families, r)
  {
    seq(|issues|, i requires 0 <= i < |issues| => IssueRecordOf(runId, issues[i], families, r))
  }

  /** build_ingestion_run_history_command_from_configured_cycle, the run record being given. */
  function CommandOf(run: RunRecord, families: seq<FamilyResult>, failures: seq<CycleIssue>, r: Redactor): Command {
    Command(run,
            seq(|families|, i requires 0 <= i < |families| => SourceResultOf(run.runId, families[i])),
            IssueRecords(run.runId, Values(IssuesOnce(FamilyFailures(families) + failures, r)), families, r))
  }

  // ---------------------------------------------------------------- sanitising

  function SanitizedIssue(x: IssueRecord, r: Redactor): IssueRecord {
    x.(message := r(x.message), metadata := R.Redact(x.metadata, r))
  }

  function SanitizedResult(x: SourceResult, r: Redactor): SourceResult { x.(metadata := R.Redact(x.metadata, r)) }

  function Sanitized(c: Command, r: Redactor): (s: Command)
    ensures |s.results| == |c.results| && |s.issues| == |c.issues|
  {
    Command(c.run.(metadata := R.Redact(c.run.metadata, r)),
            seq(|c.results|, i requires 0 <= i < |c.results| => SanitizedResult(c.results[i], r)),
            seq(|c.issues|, i requires 0 <= i < |c.issues| => SanitizedIssue(c.issues[i], r)))
  }

  // ---------------------------------------------------------------- validation

  datatype Place = OfRun | OfResult(index: nat) | OfIssue(index: nat)

  datatype Fault = RunIdRequired | StatusRequired | StageRequired | CodeRequired | MessageRequired | RunIdMismatch
                 | FamilyUnsupported | TargetYearRequired | PositiveRequired | NonNegativeRequired

  datatype Problem = Problem(fault: Fault, place: Place)

  const SOURCE_FAMILIES := ["ghg_protocol", "defra_desnz", "ipcc_efdb"]

  predicate IsSourceFamily(family: string) { family in SOURCE_FAMILIES }

  predicate IsIssueFamily(family: string) { IsSourceFamily(family) || family == "configured_runner" }

  function When(wrong: bool, fault: Fault, place: Place): seq<Problem> { if wrong then [Problem(fault, place)] else [] }

  predicate NotPositive(value: Option<int>) { value.Some? && value.value <= 0 }

  function Negatives(counts: seq<int>, place: Place): seq<Problem> {
    if counts == [] then [] else When(counts[0] < 0, NonNegativeRequired, place) + Negatives(counts[1..], place)
  }

  function Unsupported(families: seq<string>): seq<Problem> {
    if families == [] then [] else When(!IsSourceFamily(families[0]), FamilyUnsupported, OfRun) + Unsupported(families[1..])
  }

  function RunProblems(run: RunRecord): seq<Problem> {
    When(Strip(run.runId) == [], RunIdRequired, OfRun) + When(Strip(run.status) == [], StatusRequired, OfRun)
    + When(NotPositive(run.initialYear), PositiveRequired, OfRun)
    + When(run.cycleCount.Some? && run.cycleCount.value < 0, NonNegativeRequired, OfRun)
    + Negatives(run.totals, OfRun) + Unsupported(run.families)
  }

  function ResultProblems(run: RunRecord, x: SourceResult, i: nat): seq<Problem> {
    When(x.runId != run.runId, RunIdMismatch, OfResult(i)) + When(Strip(x.status) == [], StatusRequired, OfResult(i))
    + When(!IsSourceFamily(x.family), FamilyUnsupported, OfResult(i)) + When(x.targetYear.None?, TargetYearRequired, OfResult(i))
    + When(NotPositive(x.targetYear), PositiveRequired, OfResult(i)) + When(NotPositive(x.latestYear), PositiveRequired, OfResult(i))
    + Negatives(x.counts, OfResult(i))
  }

  function IssueProblems(run: RunRecord, x: IssueRecord, i: nat): seq<Problem> {
    When(x.runId != run.runId, RunIdMismatch, OfIssue(i))
    + When(x.family.Some? && !IsIssueFamily(x.family.value), FamilyUnsupported, OfIssue(i))
    + When(NotPositive(x.targetYear), PositiveRequired, OfIssue(i))
    + When(Strip(x.stage) == [], StageRequired, OfIssue(i)) + When(Strip(x.code) == [], CodeRequired, OfIssue(i))
    + When(Strip(x.message) == [], MessageRequired, OfIssue(i))
  }

  /** What a valid command looks like. */
  ghost predicate ValidRun(run: RunRecord) {
    && Strip(run.runId) != [] && Strip(run.status) != [] && (run.initialYear.Some? ==> run.initialYear.value > 0)
    && (run.cycleCount.Some? ==> run.cycleCount.value >= 0)
    && (forall n :: n in run.totals ==> n >= 0) && (forall f :: f in run.families ==> IsSourceFamily(f))
  }

  ghost predicate ValidResult(run: RunRecord, x: SourceResult) {
    && x.runId == run.runId && Strip(x.status) != [] && IsSourceFamily(x.family)
    && x.targetYear.Some? && x.targetYear.value > 0 && (x.latestYear.Some? ==> x.latestYear.value > 0) && (forall n :: n in x.counts ==> n >= 0)
  }

  ghost predicate ValidIssue(run: RunRecord, x: IssueRecord) {
    && x.runId == run.runId && (x.family.Some? ==> IsIssueFamily(x.family.value))
    && (x.targetYear.Some? ==> x.targetYear.value > 0)
    && Strip(x.stage) != [] && Strip(x.code) != [] && Strip(x.message) != []
  }

  ghost predicate ValidCommand(c: Command) {
    && ValidRun(c.run)
    && (forall i :: 0 <= i < |c.results| ==> ValidResult(c.run, c.results[i]))
    && (forall i :: 0 <= i < |c.issues| ==> ValidIssue(c.run, c.issues[i]))
  }

  lemma {:induction false} NoNegatives(counts: seq<int>, place: Place)
    ensures Negatives(counts, place) == [] <==> forall n :: n in counts ==> n >= 0
  {
    if counts != [] {
      NoNegatives(counts[1..], place);
      assert counts[0] in counts;
      assert forall n :: n in counts <==> n == counts[0] || n in counts[1..];
    }
  }

  lemma {:induction false} NoneUnsupported(families: seq<string>)
    ensures Unsupported(families) == [] <==> forall f :: f in families ==> IsSourceFamily(f)
  {
    hide IsSourceFamily;
    if families != [] {
      NoneUnsupported(families[1..]);
      assert families[0] in families;
      assert forall f :: f in families <==> f == families[0] || f in families[1..];
    }
  }

  lemma RunChecked(run: RunRecord)
    ensures RunProblems(run) == [] <==> ValidRun(run)
  {
    hide IsSourceFamily, Strip;
    NoNegatives(run.totals, OfRun);
    NoneUnsupported(run.families);
  }

  lemma ResultChecked(run: RunRecord, x: SourceResult, i: nat)
    ensures ResultProblems(run, x, i) == [] <==> ValidResult(run, x)
  {
    hide IsSourceFamily, Strip;
    NoNegatives(x.counts, OfResult(i));
  }

  lemma IssueChecked(run: RunRecord, x: IssueRecord, i: nat)
    ensures IssueProblems(run, x, i) == [] <==> ValidIssue(run, x)
  {
    hide IsIssueFamily, Strip;
  }

  predicate Below(value: Option<int>, least: int) { value.Some? && value.value < least }

  predicate AnyNegative(counts: seq<int>) { exists n :: n in counts && n < 0 }

  /** What is wrong with the run, with a result, with an issue. */
  predicate RunAtFault(run: RunRecord, fault: Fault) {
    match fault
    case RunIdRequired => Strip(run.runId) == []
    case StatusRequired => Strip(run.status) == []
    case PositiveRequired => Below(run.initialYear, 1)
    case NonNegativeRequired => Below(run.cycleCount, 0) || AnyNegative(run.totals)
    case FamilyUnsupported => exists f :: f in run.families && !IsSourceFamily(f)
    case _ => false
  }

  predicate ResultAtFault(run: RunRecord, x: SourceResult, fault: Fault) {
    match fault
    case RunIdMismatch => x.runId != run.runId
    case StatusRequired => Strip(x.status) == []
    case FamilyUnsupported => !IsSourceFamily(x.family)
    case TargetYearRequired => x.targetYear.None?
    case PositiveRequired => Below(x.targetYear, 1) || Below(x.latestYear, 1)
    case NonNegativeRequired => AnyNegative(x.counts)
    case _ => false
  }

  predicate IssueAtFault(run: RunRecord, x: IssueRecord, fault: Fault) {
    match fault
    case RunIdMismatch => x.runId != run.runId
    case FamilyUnsupported => x.family.Some? && !IsIssueFamily(x.family.value)
    case PositiveRequired => Below(x.targetYear, 1)
    case StageRequired => Strip(x.stage) == []
    case CodeRequired => Strip(x.code) == []
    case MessageRequired => Strip(x.message) == []
    case _ => false
  }

  /** The problem is one of the command. */
  predicate IsProblem(c: Command, p: Problem) {
    match p.place
    case OfRun => RunAtFault(c.run, p.fault)
    case OfResult(i) => i < |c.results| && ResultAtFault(c.run, c.results[i], p.fault)
    case OfIssue(i) => i < |c.issues| && IssueAtFault(c.run, c.issues[i], p.fault)
  }

  lemma {:induction false} NegativesMean(counts: seq<int>, place: Place, p: Problem)
    ensures p in Negatives(counts, place) <==> p == Problem(NonNegativeRequired, place) && AnyNegative(counts)
  {
    if counts != [] {
      NegativesMean(counts[1..], place, p);
      assert counts[0] in counts;
      assert forall n :: n in counts <==> n == counts[0] || n in counts[1..];
      assert AnyNegative(counts) <==> counts[0] < 0 || AnyNegative(counts[1..]);
    }
  }

  lemma {:induction false} UnsupportedMeans(families: seq<string>, p: Problem)
    ensures p in Unsupported(families) <==> p == Problem(FamilyUnsupported, OfRun) && exists f :: f in families && !IsSourceFamily(f)
  {
    hide IsSourceFamily;
    if families != [] {
      UnsupportedMeans(families[1..], p);
      assert families[0] in families;
      assert forall f :: f in families <==> f == families[0] || f in families[1..];
    }
  }

  lemma WhenMeans(wrong: bool, fault: Fault, place: Place, p: Problem)
    ensures p in When(wrong, fault, place) <==> wrong && p == Problem(fault, place)
  {
  }

  lemma RunProblemsMean(run: RunRecord, p: Problem)
    ensures p in RunProblems(run) <==> p.place == OfRun && RunAtFault(run, p.fault)
  {
    NegativesMean(run.totals, OfRun, p);
    UnsupportedMeans(run.families, p);
    hide IsSourceFamily, Strip, AnyNegative, Negatives, Unsupported, When;
    WhenMeans(Strip(run.runId) == [], RunIdRequired, OfRun, p);
    WhenMeans(Strip(run.status) == [], StatusRequired, OfRun, p);
    WhenMeans(NotPositive(run.initialYear), PositiveRequired, OfRun, p);
    WhenMeans(run.cycleCount.Some? && run.cycleCount.value < 0, NonNegativeRequired, OfRun, p);
  }

  lemma ResultProblemsMean(run: RunRecord, x: SourceResult, i: nat, p: Problem)
    ensures p in ResultProblems(run, x, i) <==> p.place == OfResult(i) && ResultAtFault(run, x, p.fault)
  {
    NegativesMean(x.counts, OfResult(i), p);
    hide IsSourceFamily, Strip, AnyNegative, Negatives, When;
    WhenMeans(x.runId != run.runId, RunIdMismatch, OfResult(i), p);
    WhenMeans(Strip(x.status) == [], StatusRequired, OfResult(i), p);
    WhenMeans(!IsSourceFamily(x.family), FamilyUnsupported, OfResult(i), p);
    WhenMeans(x.targetYear.None?, TargetYearRequired, OfResult(i), p);
    WhenMeans(NotPositive(x.targetYear), PositiveRequired, OfResult(i), p);
    WhenMeans(NotPositive(x.latestYear), PositiveRequired, OfResult(i), p);
  }

  lemma IssueProblemsMean(run: RunRecord, x: IssueRecord, i: nat, p: Problem)
    ensures p in IssueProblems(run, x, i) <==> p.place == OfIssue(i) && IssueAtFault(run, x, p.fault)
  {
    hide IsIssueFamily, Strip, When;
    WhenMeans(x.runId != run.runId, RunIdMismatch, OfIssue(i), p);
    WhenMeans(x.family.Some? && !IsIssueFamily(x.family.value), FamilyUnsupported, OfIssue(i), p);
    WhenMeans(NotPositive(x.targetYear), PositiveRequired, OfIssue(i), p);
    WhenMeans(Strip(x.stage) == [], StageRequired, OfIssue(i), p);
    WhenMeans(Strip(x.code) == [], CodeRequired, OfIssue(i), p);
    WhenMeans(Strip(x.message) == [], MessageRequired, OfIssue(i), p);
  }

  /** The validator finds nothing exactly in a valid command, and otherwise what is wrong with it. */
  method Validate(c: Command) returns (problems: seq<Problem>)
    ensures problems == [] <==> ValidCommand(c)
    ensures forall p :: p in problems <==> IsProblem(c, p)
  {
    hide RunProblems, ResultProblems, IssueProblems, ValidRun, ValidResult, ValidIssue, RunAtFault, ResultAtFault, IssueAtFault;
    problems := RunProblems(c.run);
    RunChecked(c.run);
    forall p ensures p in problems <==> p.place == OfRun && RunAtFault(c.run, p.fault) { RunProblemsMean(c.run, p); }
    for i := 0 to |c.results|
      invariant problems == [] <==> ValidRun(c.run) && forall j :: 0 <= j < i ==> ValidResult(c.run, c.results[j])
      invariant forall p :: p in problems <==> IsProblem(c, p) && (p.place.OfRun? || (p.place.OfResult? && p.place.index < i))
    {
      ResultChecked(c.run, c.results[i], i);
      forall p ensures p in ResultProblems(c.run, c.results[i], i) <==> p.place == OfResult(i) && ResultAtFault(c.run, c.results[i], p.fault) {
        ResultProblemsMean(c.run, c.results[i], i, p);
      }
      problems := problems + ResultProblems(c.run, c.results[i], i);
    }
    for i := 0 to |c.issues|
      invariant problems == [] <==>
        ValidRun(c.run) && (forall j :: 0 <= j < |c.results| ==> ValidResult(c.run, c.results[j]))
        && forall j :: 0 <= j < i ==> ValidIssue(c.run, c.issues[j])
      invariant forall p :: p in problems <==> IsProblem(c, p) && (p.place.OfIssue? ==> p.place.index < i)
    {
      IssueChecked(c.run, c.issues[i], i);
      forall p ensures p in IssueProblems(c.run, c.issues[i], i) <==> p.place == OfIssue(i) && IssueAtFault(c.run, c.issues[i], p.fault) {
        IssueProblemsMean(c.run, c.issues[i], i, p);
      }
      problems := problems + IssueProblems(c.run, c.issues[i], i);
    }
  }

  // ---------------------------------------------------------------- stable ids

  type Hash = seq<string> -> string

  /** str() of a value that may be None. */
  function StrText(s: Option<string>): string { if s.Some? then s.value else "None" }

  function StrYear(y: Option<int>): string { if y.Some? then IntText(y.value) else "None" }

  function IssuePayload(x: IssueRecord, r: Redactor): seq<string> {
    ["parser_ingestion_issue", x.runId, StrText(x.family), StrYear(x.targetYear), x.stage, x.code, r(x.message)]
  }

  function IssueId(x: IssueRecord, r: Redactor, uuid: Hash): string { uuid(IssuePayload(x, r)) }

  function ResultId(runId: string, family: string, year: Option<int>, uuid: Hash): string {
    uuid(["parser_ingestion_source_result", runId, family, StrYear(year)])
  }

  /** The redactor leaves what it has redacted alone, for the messages of these issues. */
  ghost predicate MessagesSettle(issues: seq<CycleIssue>, r: Redactor) {
    forall i :: 0 <= i < |issues| ==> r(r(issues[i].message)) == r(issues[i].message)
  }

  ghost predicate NoCollision(payloads: set<seq<string>>, uuid: Hash) {
    forall p, q :: p in payloads && q in payloads && uuid(p) == uuid(q) ==> p == q
  }

  function Payloads(records: seq<IssueRecord>, r: Redactor): set<seq<string>> {
    set i | 0 <= i < |records| :: IssuePayload(records[i], r)
  }

  /** No metadata of the command holds a sensitive value. */
  ghost predicate MaskedCommand(c: Command) {
    && R.Masked(c.run.metadata)
    && (forall i :: 0 <= i < |c.results| ==> R.Masked(c.results[i].metadata))
    && (forall i :: 0 <= i < |c.issues| ==> R.Masked(c.issues[i].metadata))
  }

  /** The redactor leaves what it has redacted alone, for all texts of the command. */
  ghost predicate CommandSettles(c: Command, r: Redactor) {
    && R.Settles(c.run.metadata, r)
    && (forall i :: 0 <= i < |c.results| ==> R.Settles(c.results[i].metadata, r))
    && (forall i :: 0 <= i < |c.issues| ==> R.Settles(c.issues[i].metadata, r) && r(r(c.issues[i].message)) == r(c.issues[i].message))
  }

  /** Sanitising changes metadata and the messages of issues, which it redacts, and nothing else. */
  lemma SanitizedKeeps(c: Command, r: Redactor)
    ensures var s := Sanitized(c, r);
            && s.run.(metadata := c.run.metadata) == c.run && |s.results| == |c.results| && |s.issues| == |c.issues|
            && (forall i :: 0 <= i < |c.results| ==> s.results[i].(metadata := c.results[i].metadata) == c.results[i])
            && (forall i :: 0 <= i < |c.issues| ==>
                  && s.issues[i].(metadata := c.issues[i].metadata, message := c.issues[i].message) == c.issues[i]
                  && s.issues[i].message == r(c.issues[i].message))
  {
    hide R.Redact;
    var s := Sanitized(c, r);
    forall i | 0 <= i < |c.results| ensures s.results[i].(metadata := c.results[i].metadata) == c.results[i] {
      assert s.results[i] == SanitizedResult(c.results[i], r);
    }
    forall i | 0 <= i < |c.issues|
      ensures s.issues[i].(metadata := c.issues[i].metadata, message := c.issues[i].message) == c.issues[i]
      ensures s.issues[i].message == r(c.issues[i].message)
    {
      assert s.issues[i] == SanitizedIssue(c.issues[i], r);
    }
  }

  /** A sanitised command shows no sensitive value; sanitising it again changes nothing and its rows have the
      ids they had, where the redactor settles the texts. */
  lemma SanitizedOnce(c: Command, r: Redactor, uuid: Hash)
    ensures MaskedCommand(Sanitized(c, r))
    ensures CommandSettles(c, r) ==> Sanitized(Sanitized(c, r), r) == Sanitized(c, r)
    ensures forall i :: 0 <= i < |c.issues| && r(r(c.issues[i].message)) == r(c.issues[i].message) ==>
              IssueId(Sanitized(c, r).issues[i], r, uuid) == IssueId(c.issues[i], r, uuid)
    ensures forall i :: 0 <= i < |c.results| ==>
              var x, y := c.results[i], Sanitized(c, r).results[i];
              ResultId(y.runId, y.family, y.targetYear, uuid) == ResultId(x.runId, x.family, x.targetYear, uuid)
  {
    hide R.Redact, R.Masked, R.Settles, ResultId;
    var s := Sanitized(c, r);
    R.RedactMasks(c.run.metadata, r);
    forall i | 0 <= i < |c.results| ensures R.Masked(s.results[i].metadata) { R.RedactMasks(c.results[i].metadata, r); }
    forall i | 0 <= i < |c.issues| ensures R.Masked(s.issues[i].metadata) { R.RedactMasks(c.issues[i].metadata, r); }
    if CommandSettles(c, r) { SanitizedTwice(c, r); }
  }

  lemma SanitizedTwice(c: Command, r: Redactor)
    requires CommandSettles(c, r)
    ensures Sanitized(Sanitized(c, r), r) == Sanitized(c, r)
  {
    hide R.Redact, R.Settles;
    var s := Sanitized(c, r);
    var t := Sanitized(s, r);
    R.RedactOnce(c.run.metadata, r);
    forall i | 0 <= i < |c.results| ensures t.results[i] == s.results[i] { R.RedactOnce(c.results[i].metadata, r); }
    forall i | 0 <= i < |c.issues| ensures t.issues[i] == s.issues[i] { R.RedactOnce(c.issues[i].metadata, r); }
    assert t.results == s.results && t.issues == s.issues;
  }

  /** The payload hashed for an issue, after mapping and sanitising, gives its key back. */
  lemma PayloadKey(run: RunRecord, families: seq<FamilyResult>, a: CycleIssue, b: CycleIssue, r: Redactor)
    requires r(r(a.message)) == r(a.message) && r(r(b.message)) == r(b.message)
    requires a.family.Some? ==> IsIssueFamily(a.family.value)
    requires b.family.Some? ==> IsIssueFamily(b.family.value)
    requires IssuePayload(SanitizedIssue(IssueRecordOf(run.runId, a, families, r), r), r)
          == IssuePayload(SanitizedIssue(IssueRecordOf(run.runId, b, families, r), r), r)
    ensures KeyOf(a, r) == KeyOf(b, r)
  {
    hide R.Redact, TargetYear;
    var x, y := SanitizedIssue(IssueRecordOf(run.runId, a, families, r), r), SanitizedIssue(IssueRecordOf(run.runId, b, families, r), r);
    var p, q := IssuePayload(x, r), IssuePayload(y, r);
    assert p[2] == q[2] && p[4] == q[4] && p[5] == q[5] && p[6] == q[6];
    NoneIsNoFamily();
    hide IsIssueFamily;
  }

  lemma NoneIsNoFamily()
    ensures !IsIssueFamily("None")
  {
    assert |"None"| == 4;
  }

  /** De-duplicated issues have pairwise different ids, when the redactor settles their messages, their
      families pass validation and the hash does not collide on them. */
  lemma IdsDiffer(c: Command, run: RunRecord, families: seq<FamilyResult>, failures: seq<CycleIssue>, r: Redactor, uuid: Hash)
    requires c == CommandOf(run, families, failures, r) && ValidCommand(c)
    requires MessagesSettle(FamilyFailures(families) + failures, r)
    requires NoCollision(Payloads(Sanitized(c, r).issues, r), uuid)
    ensures var issues := Sanitized(c, r).issues;
            forall i, j :: 0 <= i < j < |issues| ==> IssueId(issues[i], r, uuid) != IssueId(issues[j], r, uuid)
  {
    hide R.Redact, Kept, KeyOf, IssuePayload, IssueRecordOf, SanitizedIssue, ValidRun, ValidResult;
    var all := FamilyFailures(families) + failures;
    var once := IssuesOnce(all, r);
    KeptDistinct(Keyed(all, r));
    var issues := Sanitized(c, r).issues;
    forall i, j | 0 <= i < j < |issues| ensures IssueId(issues[i], r, uuid) != IssueId(issues[j], r, uuid) {
      OnceSettles(all, r, i);
      OnceSettles(all, r, j);
      FamilyChecked(c, run, families, failures, r, i);
      FamilyChecked(c, run, families, failures, r, j);
      assert IssuePayload(issues[i], r) in Payloads(issues, r) && IssuePayload(issues[j], r) in Payloads(issues, r);
      if IssuePayload(issues[i], r) == IssuePayload(issues[j], r) {
        PayloadKey(run, families, once[i].1, once[j].1, r);
      }
    }
  }

  lemma OnceSettles(all: seq<CycleIssue>, r: Redactor, i: nat)
    requires MessagesSettle(all, r) && i < |IssuesOnce(all, r)|
    ensures var issue := IssuesOnce(all, r)[i].1;
            r(r(issue.message)) == r(issue.message) && IssuesOnce(all, r)[i].0 == KeyOf(issue, r)
  {
    hide KeyOf;
    var keyed := Keyed(all, r);
    KeptDistinct(keyed);
    DistinctGet(Kept(keyed), i);
    KeptGet(keyed, Kept(keyed)[i].0);
    var j := GetFirst(keyed, Kept(keyed)[i].0);
  }

  lemma FamilyChecked(c: Command, run: RunRecord, families: seq<FamilyResult>, failures: seq<CycleIssue>, r: Redactor, i: nat)
    requires c == CommandOf(run, families, failures, r) && ValidCommand(c)
    requires i < |IssuesOnce(FamilyFailures(families) + failures, r)|
    ensures var issue := IssuesOnce(FamilyFailures(families) + failures, r)[i].1;
            issue.family.Some? ==> IsIssueFamily(issue.family.value)
  {
    hide IssuesOnce, IsIssueFamily, Strip, TargetYear;
    assert ValidIssue(c.run, c.issues[i]);
  }
}
