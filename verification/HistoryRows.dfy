/** What the tables show of a cycle: which issues are left after de-duplication, the columns of the records
    made of issues and family results, and the rows they have after a successful transaction. */
module HistoryRows {
  import opened Text
  import opened Firsts
  import opened Fields
  import opened RunHistory
  import opened RunHistoryStore
  import R = Redaction
  import Csv = NormalizedCsv

  // ---------------------------------------------------------------- which families are known

  /** A result may be filed under the three families the parsers write and no other; an issue under the runner
      as well. */
  lemma FamiliesKnown(family: string)
    ensures IsSourceFamily(family) <==> exists f :: Csv.FamilyText(f) == family
    ensures IsIssueFamily(family) <==> IsSourceFamily(family) || family == "configured_runner"
  {
    assert Csv.FamilyText(Csv.Ghg) == SOURCE_FAMILIES[0];
    assert Csv.FamilyText(Csv.Defra) == SOURCE_FAMILIES[1];
    assert Csv.FamilyText(Csv.Ipcc) == SOURCE_FAMILIES[2];
  }

  // ---------------------------------------------------------------- which issues are left

  predicate SaysSame(a: CycleIssue, b: CycleIssue, r: Redactor) {
    a.family == b.family && a.stage == b.stage && a.code == b.code && r(a.message) == r(b.message)
  }

  /** No issue before this one says the same. */
  predicate SaysFirst(all: seq<CycleIssue>, i: nat, r: Redactor) {
    i < |all| && forall j :: 0 <= j < i ==> !SaysSame(all[j], all[i], r)
  }

  ghost predicate FirstsInOrder(all: seq<CycleIssue>, issues: seq<CycleIssue>, at: seq<nat>, r: Redactor) {
    && |at| == |issues| && Rising(at)
    && (forall i: nat :: i in at <==> SaysFirst(all, i, r))
    && (forall k :: 0 <= k < |at| ==> at[k] < |all| && issues[k] == all[at[k]])
  }

  lemma SaidFirst(all: seq<CycleIssue>, i: nat, r: Redactor)
    ensures IsFirst(Keyed(all, r), i) <==> SaysFirst(all, i, r)
  {
  }

  /** De-duplication leaves, in order, each issue of which no earlier one has the family, stage, code and
      redacted message. */
  lemma DeduplicatedMeans(all: seq<CycleIssue>, r: Redactor)
    ensures exists at :: FirstsInOrder(all, Values(IssuesOnce(all, r)), at, r)
  {
    var at := KeptFirsts(Keyed(all, r));
    hide SaysFirst, IsFirst, Kept, KeyOf;
    forall i: nat ensures i in at <==> SaysFirst(all, i, r) { SaidFirst(all, i, r); }
    assert FirstsInOrder(all, Values(IssuesOnce(all, r)), at, r);
  }

  /** The failures of the families stand one family behind the other. */
  lemma {:induction false} FailuresInOrder(a: seq<FamilyResult>, b: seq<FamilyResult>)
    ensures FamilyFailures(a + b) == FamilyFailures(a) + FamilyFailures(b)
    ensures |a| == 1 ==> FamilyFailures(a) == a[0].failures
    decreases |b|
  {
    if |a| == 1 { assert a[..0] == []; }
    if b == [] {
      assert a + b == a;
    } else {
      assert (a + b)[..|a + b| - 1] == a + b[..|b| - 1];
      FailuresInOrder(a, b[..|b| - 1]);
    }
  }

  // ---------------------------------------------------------------- the columns of the command

  /** The year is that of the last result of the family; a family without one, and no family, have none. */
  ghost predicate LastYear(families: seq<FamilyResult>, family: Option<string>, year: Option<int>) {
    match year
    case None => family.None? || forall k :: 0 <= k < |families| ==> families[k].family != family.value
    case Some(y) => family.Some? && exists k :: LastAt(families, family.value, k) && families[k].targetYear == y
  }

  predicate LastAt(families: seq<FamilyResult>, family: string, k: int) {
    0 <= k < |families| && families[k].family == family && forall j :: k < j < |families| ==> families[j].family != family
  }

  lemma {:induction false} LastYearOf(families: seq<FamilyResult>, family: string)
    ensures LastYear(families, Some(family), TargetYear(families, family))
  {
    if families != [] {
      var n := |families| - 1;
      LastYearOf(families[..n], family);
      if families[n].family == family {
        assert LastAt(families, family, n);
      } else if k :| LastAt(families[..n], family, k) {
        assert LastAt(families, family, k);
      }
    }
  }

  /** What the record of an issue shows. */
  ghost predicate ShowsIssue(x: IssueRecord, runId: string, issue: CycleIssue, families: seq<FamilyResult>, r: Redactor) {
    && x.runId == runId && x.family == issue.family && LastYear(families, issue.family, x.targetYear)
    && x.stage == issue.stage && x.code == issue.code && x.severity == issue.severity && x.field == issue.field
    && x.message == r(issue.message)
  }

  /** What the record of a family's result shows. */
  predicate ShowsResult(x: SourceResult, runId: string, f: FamilyResult) {
    && x.runId == runId && x.family == f.family && x.targetYear == Some(f.targetYear) && x.latestYear == f.latestYear
    && x.status == f.status && x.statuses == f.statuses && x.counts == f.counts + [|f.failures|]
  }

  /** The de-duplicated issues of a cycle: those of the families first, then the run's own. */
  function CycleIssues(families: seq<FamilyResult>, failures: seq<CycleIssue>, r: Redactor): seq<CycleIssue> {
    Values(IssuesOnce(FamilyFailures(families) + failures, r))
  }

  /** The command holds the run, a record for each family result and one for each de-duplicated issue, in order. */
  lemma CommandShows(run: RunRecord, families: seq<FamilyResult>, failures: seq<CycleIssue>, r: Redactor)
    ensures var c, issues := CommandOf(run, families, failures, r), CycleIssues(families, failures, r);
            && c.run == run && |c.results| == |families| && |c.issues| == |issues|
            && (forall i :: 0 <= i < |families| ==>
                  ShowsResult(c.results[i], run.runId, families[i]) && c.results[i].metadata == families[i].metadata)
            && (forall i :: 0 <= i < |issues| ==>
                  ShowsIssue(c.issues[i], run.runId, issues[i], families, r) && c.issues[i].metadata == R.Object(R.NoEntries))
  {
    hide IssuesOnce, FamilyFailures, TargetYear, LastYear;
    var c, issues := CommandOf(run, families, failures, r), CycleIssues(families, failures, r);
    forall i | 0 <= i < |issues| ensures ShowsIssue(c.issues[i], run.runId, issues[i], families, r) {
      if issues[i].family.Some? { LastYearOf(families, issues[i].family.value); }
      else { NoFamilyNoYear(families); }
    }
  }

  lemma NoFamilyNoYear(families: seq<FamilyResult>)
    ensures LastYear(families, None, None)
  {
  }

  // ---------------------------------------------------------------- the rows of the tables

  lemma {:induction false} AddedRows(t: Tables, stmts: seq<Stmt>, now: int, i: nat)
    requires i < |stmts| && stmts[i].AddIssue? && stmts[i].key !in t.issues
    requires forall j :: 0 <= j < i ==> !(stmts[j].AddIssue? && stmts[j].key == stmts[i].key)
    ensures var u := ApplyAll(t, stmts, now);
            stmts[i].key in u.issues && u.issues[stmts[i].key] == IssueRow(stmts[i].issue, now)
    decreases |stmts|
  {
    var n := |stmts| - 1;
    if i < n {
      AddedRows(t, stmts[..n], now, i);
    } else {
      IssueAfter(t, stmts[..n], now, stmts[i].key);
      assert !Adds(stmts[..n], stmts[n].key);
    }
  }

  /** The words an issue's row id is the hash of. */
  function RowWords(runId: string, issue: CycleIssue, year: Option<int>, r: Redactor): seq<string> {
    ["parser_ingestion_issue", runId, if issue.family.Some? then issue.family.value else "None",
     if year.Some? then IntText(year.value) else "None", issue.stage, issue.code, r(issue.message)]
  }

  /** The issue has a row of its own with its columns. */
  ghost predicate HasRow(u: Tables, run: RunRecord, issue: CycleIssue, families: seq<FamilyResult>, r: Redactor, uuid: Hash, now: int) {
    exists year :: LastYear(families, issue.family, year) && var id := uuid(RowWords(run.runId, issue, year, r));
      id in u.issues && u.issues[id].createdAt == now && u.issues[id].record.targetYear == year
      && ShowsIssue(u.issues[id].record, run.runId, issue, families, r)
  }

  lemma IssueStmtAt(c: Command, r: Redactor, uuid: Hash, i: nat)
    requires i < |c.issues|
    ensures var stmts := Statements(Sanitized(c, r), r, uuid);
            && 1 + |c.results| + i < |stmts|
            && stmts[1 + |c.results| + i] == IssueStmt(SanitizedIssue(c.issues[i], r), r, uuid)
  {
    hide R.Redact, IssueStmt, SanitizedIssue, Statements;
    var s := Sanitized(c, r);
    assert s.issues[i] == SanitizedIssue(c.issues[i], r) && |s.results| == |c.results|;
    hide Sanitized;
    StatementsAre(s, r, uuid);
    assert Statements(s, r, uuid)[1 + |s.results| + i] == IssueStmt(s.issues[i], r, uuid);
  }

  lemma WordsOf(x: IssueRecord, issue: CycleIssue, r: Redactor)
    requires x.family == issue.family && x.stage == issue.stage && x.code == issue.code
    requires r(x.message) == r(issue.message)
    ensures IssuePayload(x, r) == RowWords(x.runId, issue, x.targetYear, r)
  {
  }

  lemma SanitizedShows(x: IssueRecord, runId: string, issue: CycleIssue, families: seq<FamilyResult>, r: Redactor, uuid: Hash)
    requires ShowsIssue(x, runId, issue, families, r) && r(r(issue.message)) == r(issue.message)
    ensures var s := IssueStmt(SanitizedIssue(x, r), r, uuid);
            && s.AddIssue? && s.key == uuid(RowWords(runId, issue, s.issue.targetYear, r))
            && ShowsIssue(s.issue, runId, issue, families, r)
  {
    hide R.Redact, LastYear, IssuePayload, RowWords;
    var y := SanitizedIssue(x, r);
    assert y == x.(message := r(issue.message), metadata := y.metadata);
    WordsOf(y, issue, r);
  }

  lemma IssueStmtShows(c: Command, run: RunRecord, families: seq<FamilyResult>, failures: seq<CycleIssue>, r: Redactor, uuid: Hash, i: nat)
    requires c == CommandOf(run, families, failures, r) && i < |c.issues|
    requires MessagesSettle(FamilyFailures(families) + failures, r)
    ensures var s, issue := IssueStmt(SanitizedIssue(c.issues[i], r), r, uuid), CycleIssues(families, failures, r)[i];
            && s.AddIssue? && s.key == uuid(RowWords(run.runId, issue, s.issue.targetYear, r))
            && ShowsIssue(s.issue, run.runId, issue, families, r)
  {
    hide R.Redact, FamilyFailures, TargetYear, LastYear, IssuesOnce, MessagesSettle, CommandOf;
    CommandShows(run, families, failures, r);
    OnceSettles(FamilyFailures(families) + failures, r, i);
    var issue := CycleIssues(families, failures, r)[i];
    SanitizedShows(c.issues[i], run.runId, issue, families, r, uuid);
  }

  /** After a successful transaction, where the hash does not collide and the run has no rows yet, every
      de-duplicated issue of the cycle has a row with its columns, and no other issue row is new. */
  lemma IssuesHaveRows(t: Tables, c: Command, run: RunRecord, families: seq<FamilyResult>, failures: seq<CycleIssue>,
                       r: Redactor, uuid: Hash, now: int)
    requires c == CommandOf(run, families, failures, r) && ValidCommand(c)
    requires MessagesSettle(FamilyFailures(families) + failures, r)
    requires IssuesKeyed(t, r, uuid) && forall k :: k in t.issues ==> t.issues[k].record.runId != run.runId
    requires NoCollision(TablePayloads(t, r) + Payloads(Sanitized(c, r).issues, r), uuid)
    ensures var u, issues := ApplyAll(t, Statements(Sanitized(c, r), r, uuid), now), CycleIssues(families, failures, r);
            && (forall i :: 0 <= i < |issues| ==> HasRow(u, run, issues[i], families, r, uuid, now))
            && |u.issues| == |t.issues| + |issues| && forall k :: k in t.issues ==> k in u.issues && u.issues[k] == t.issues[k]
  {
    hide R.Redact, ValidCommand, ApplyAll, IssueId, Payloads, TablePayloads, CommandOf, Statements, MessagesSettle, HasRow, IssuesOnce,
      FamilyFailures;
    var stmts := Statements(Sanitized(c, r), r, uuid);
    ReportedCountExact(t, c, run, families, failures, r, uuid, now);
    forall k | k in t.issues ensures k in ApplyAll(t, stmts, now).issues && ApplyAll(t, stmts, now).issues[k] == t.issues[k] {
      IssueAfter(t, stmts, now, k);
    }
    CommandShows(run, families, failures, r);
    var issues := CycleIssues(families, failures, r);
    forall i | 0 <= i < |issues| ensures HasRow(ApplyAll(t, stmts, now), run, issues[i], families, r, uuid, now) {
      IssueHasRow(t, c, run, families, failures, r, uuid, now, i);
    }
  }

  lemma IssueHasRow(t: Tables, c: Command, run: RunRecord, families: seq<FamilyResult>, failures: seq<CycleIssue>,
                    r: Redactor, uuid: Hash, now: int, i: nat)
    requires c == CommandOf(run, families, failures, r) && ValidCommand(c) && i < |c.issues|
    requires MessagesSettle(FamilyFailures(families) + failures, r)
    requires IssuesKeyed(t, r, uuid) && forall k :: k in t.issues ==> t.issues[k].record.runId != run.runId
    requires NoCollision(TablePayloads(t, r) + Payloads(Sanitized(c, r).issues, r), uuid)
    ensures HasRow(ApplyAll(t, Statements(Sanitized(c, r), r, uuid), now), run, CycleIssues(families, failures, r)[i], families, r, uuid, now)
  {
    hide R.Redact, ValidCommand, ApplyAll, IssueId, Payloads, TablePayloads, CommandOf, Statements, MessagesSettle, IssuesOnce,
      FamilyFailures, CycleIssues, LastYear, IssueStmt, SanitizedIssue;
    var s, stmts := Sanitized(c, r), Statements(Sanitized(c, r), r, uuid);
    var at := 1 + |c.results| + i;
    CommandShows(run, families, failures, r);
    IssueStmtAt(c, r, uuid, i);
    IssueStmtShows(c, run, families, failures, r, uuid, i);
    OwnKey(t, c, run, families, failures, r, uuid, i);
    AddedRows(t, stmts, now, at);
  }

  lemma OwnKey(t: Tables, c: Command, run: RunRecord, families: seq<FamilyResult>, failures: seq<CycleIssue>, r: Redactor, uuid: Hash, i: nat)
    requires c == CommandOf(run, families, failures, r) && ValidCommand(c) && i < |c.issues|
    requires MessagesSettle(FamilyFailures(families) + failures, r)
    requires IssuesKeyed(t, r, uuid) && forall k :: k in t.issues ==> t.issues[k].record.runId != run.runId
    requires NoCollision(TablePayloads(t, r) + Payloads(Sanitized(c, r).issues, r), uuid)
    ensures var stmts, at := Statements(Sanitized(c, r), r, uuid), 1 + |c.results| + i;
            && at < |stmts| && stmts[at].AddIssue? && stmts[at].key !in t.issues
            && forall j :: 0 <= j < at ==> !(stmts[j].AddIssue? && stmts[j].key == stmts[at].key)
  {
    hide R.Redact, ValidCommand, IssueId, Payloads, TablePayloads, CommandOf, Statements, MessagesSettle, FamilyFailures;
    var s, stmts := Sanitized(c, r), Statements(Sanitized(c, r), r, uuid);
    NoCollisionIn(TablePayloads(t, r), Payloads(s.issues, r), uuid);
    IdsDiffer(c, run, families, failures, r, uuid);
    IdsFresh(t, c, run, families, failures, r, uuid);
    StatementsAre(s, r, uuid);
    var at := 1 + |s.results| + i;
    assert stmts[1 + |s.results| + i] == IssueStmt(s.issues[i], r, uuid);
    forall j | 0 <= j < at ensures !(stmts[j].AddIssue? && stmts[j].key == stmts[at].key) {
      if j > |c.results| {
        var k := j - 1 - |s.results|;
        assert stmts[1 + |s.results| + k] == IssueStmt(s.issues[k], r, uuid);
      } else if j > 0 {
        assert stmts[1 + (j - 1)] == ResultStmt(s.results[j - 1], r, uuid);
      }
    }
  }

  lemma {:induction false} LastResultAt(stmts: seq<Stmt>, i: nat)
    requires i < |stmts| && stmts[i].PutResult?
    requires forall j :: i < j < |stmts| ==> !(stmts[j].PutResult? && KeyOfResult(stmts[j].result) == KeyOfResult(stmts[i].result))
    ensures LastResult(stmts, KeyOfResult(stmts[i].result)) == Some(stmts[i].result)
    decreases |stmts|
  {
    hide KeyOfResult;
    if i < |stmts| - 1 {
      assert stmts[..|stmts| - 1][i] == stmts[i];
      LastResultAt(stmts[..|stmts| - 1], i);
    }
  }

  lemma {:induction false} LastRunFirst(stmts: seq<Stmt>)
    requires stmts != [] && stmts[0].PutRun? && forall j :: 0 < j < |stmts| ==> !stmts[j].PutRun?
    ensures LastRun(stmts, stmts[0].record.runId) == Some(stmts[0].record)
    decreases |stmts|
  {
    if |stmts| > 1 { LastRunFirst(stmts[..|stmts| - 1]); }
  }

  /** The family result is the last of its family and target year. */
  predicate LastOfKey(families: seq<FamilyResult>, i: nat) {
    i < |families| && forall j :: i < j < |families| ==> families[j].family != families[i].family || families[j].targetYear != families[i].targetYear
  }

  /** The result of a family has a row under the run, the family and the target year, with its columns; the id
      is the hash of these three. */
  predicate HasResult(u: Tables, run: RunRecord, f: FamilyResult, uuid: Hash, now: int) {
    var key := (run.runId, f.family, Some(f.targetYear));
    && key in u.results && ShowsResult(u.results[key].record, run.runId, f) && u.results[key].updatedAt == now
    && u.results[key].id == uuid(["parser_ingestion_source_result", run.runId, f.family, IntText(f.targetYear)])
  }

  lemma ResultStmtAt(c: Command, r: Redactor, uuid: Hash, i: nat)
    requires i < |c.results|
    ensures var stmts := Statements(Sanitized(c, r), r, uuid);
            && stmts[1 + i].PutResult?
            && stmts[1 + i].result == c.results[i].(metadata := stmts[1 + i].result.metadata)
  {
    hide R.Redact, Statements;
    var s := Sanitized(c, r);
    assert s.results[i] == SanitizedResult(c.results[i], r);
    StatementsAre(s, r, uuid);
    assert Statements(s, r, uuid)[1 + i] == ResultStmt(s.results[i], r, uuid);
  }

  lemma IssueStmtsBehind(c: Command, r: Redactor, uuid: Hash, j: nat)
    requires 1 + |c.results| <= j < |Statements(Sanitized(c, r), r, uuid)|
    ensures Statements(Sanitized(c, r), r, uuid)[j].AddIssue?
  {
    hide R.Redact, Statements;
    IssueStmtKeyed(Sanitized(c, r), r, uuid, j);
  }

  lemma LastResultShows(c: Command, run: RunRecord, families: seq<FamilyResult>, failures: seq<CycleIssue>, r: Redactor, uuid: Hash, i: nat)
    requires c == CommandOf(run, families, failures, r) && LastOfKey(families, i)
    ensures var stmts := Statements(Sanitized(c, r), r, uuid);
            var x := LastResult(stmts, (run.runId, families[i].family, Some(families[i].targetYear)));
            x.Some? && ShowsResult(x.value, run.runId, families[i])
  {
    hide R.Redact, Statements, Sanitized, CommandOf;
    CommandShows(run, families, failures, r);
    var stmts := Statements(Sanitized(c, r), r, uuid);
    ResultStmtAt(c, r, uuid, i);
    forall j | 1 + i < j < |stmts| ensures !(stmts[j].PutResult? && KeyOfResult(stmts[j].result) == KeyOfResult(stmts[1 + i].result)) {
      if j <= |c.results| { ResultStmtAt(c, r, uuid, j - 1); } else { IssueStmtsBehind(c, r, uuid, j); }
    }
    LastResultAt(stmts, 1 + i);
  }

  /** After a successful transaction the last result of every family and target year has its row, under a stable
      id, and the run has its own. */
  lemma ResultsHaveRows(t: Tables, c: Command, run: RunRecord, families: seq<FamilyResult>, failures: seq<CycleIssue>,
                        r: Redactor, uuid: Hash, now: int)
    requires c == CommandOf(run, families, failures, r) && IdsMatchKeys(t, uuid)
    ensures var u := ApplyAll(t, Statements(Sanitized(c, r), r, uuid), now);
            && (forall i :: 0 <= i < |families| && LastOfKey(families, i) ==> HasResult(u, run, families[i], uuid, now))
            && run.runId in u.runs && u.runs[run.runId].record.(metadata := run.metadata) == run
            && u.runs[run.runId].createdAt == if run.runId in t.runs then t.runs[run.runId].createdAt else now
  {
    hide R.Redact, Statements, Sanitized, CommandOf, ApplyAll, LastOfKey, ShowsResult, IdsMatchKeys;
    var stmts := Statements(Sanitized(c, r), r, uuid);
    SourceResultIds(t, Sanitized(c, r), r, uuid, now);
    RunStmt(c, r, uuid);
    assert c.run == run by { CommandShows(run, families, failures, r); }
    RunAfter(t, stmts, now, run.runId);
    forall i | 0 <= i < |families| && LastOfKey(families, i) ensures HasResult(ApplyAll(t, stmts, now), run, families[i], uuid, now) {
      ResultHasRow(t, c, run, families, failures, r, uuid, now, i);
    }
  }

  lemma RunStmt(c: Command, r: Redactor, uuid: Hash)
    ensures var x := LastRun(Statements(Sanitized(c, r), r, uuid), c.run.runId);
            x.Some? && x.value.(metadata := c.run.metadata) == c.run
  {
    hide R.Redact, Statements;
    var s, stmts := Sanitized(c, r), Statements(Sanitized(c, r), r, uuid);
    StatementsAre(s, r, uuid);
    forall j | 0 < j < |stmts| ensures !stmts[j].PutRun? {
      if j <= |c.results| { ResultStmtAt(c, r, uuid, j - 1); } else { IssueStmtsBehind(c, r, uuid, j); }
    }
    LastRunFirst(stmts);
  }

  lemma ResultHasRow(t: Tables, c: Command, run: RunRecord, families: seq<FamilyResult>, failures: seq<CycleIssue>,
                     r: Redactor, uuid: Hash, now: int, i: nat)
    requires c == CommandOf(run, families, failures, r) && LastOfKey(families, i)
    requires IdsMatchKeys(ApplyAll(t, Statements(Sanitized(c, r), r, uuid), now), uuid)
    ensures HasResult(ApplyAll(t, Statements(Sanitized(c, r), r, uuid), now), run, families[i], uuid, now)
  {
    hide R.Redact, Statements, Sanitized, CommandOf, ApplyAll, ShowsResult;
    var stmts := Statements(Sanitized(c, r), r, uuid);
    LastResultShows(c, run, families, failures, r, uuid, i);
    ResultAfter(t, stmts, now, (run.runId, families[i].family, Some(families[i].targetYear)));
  }
}
