/** src/carbonfactor_parser/persistence/postgresql_ingestion_run_history_repository.py: one command in
    one transaction of upserts. Statements may fail at any point. */
module RunHistoryStore {
  import opened Text
  import opened RunHistory
  import R = Redaction

  datatype RunRow = RunRow(record: RunRecord, createdAt: int, updatedAt: int)
  datatype ResultRow = ResultRow(id: string, record: SourceResult, createdAt: int, updatedAt: int)
  datatype IssueRow = IssueRow(record: IssueRecord, createdAt: int)

  /** (run_id, source_family, target_year). */
  type ResultKey = (string, string, Option<int>)

  datatype Tables = Tables(runs: map<string, RunRow>, results: map<ResultKey, ResultRow>, issues: map<string, IssueRow>)

  datatype Stmt = PutRun(record: RunRecord) | PutResult(id: string, result: SourceResult) | AddIssue(key: string, issue: IssueRecord)

  function KeyOfResult(x: SourceResult): ResultKey { (x.runId, x.family, x.targetYear) }

  /** ON CONFLICT: a run and a source result are updated, keeping id and creation time; an issue stays. */
  function Apply(t: Tables, s: Stmt, now: int): Tables {
    match s
    case PutRun(x) =>
      var created := if x.runId in t.runs then t.runs[x.runId].createdAt else now;
      t.(runs := t.runs[x.runId := RunRow(x, created, now)])
    case PutResult(id, x) =>
      var k := KeyOfResult(x);
      var row := if k in t.results then ResultRow(t.results[k].id, x, t.results[k].createdAt, now) else ResultRow(id, x, now, now);
      t.(results := t.results[k := row])
    case AddIssue(id, x) => if id in t.issues then t else t.(issues := t.issues[id := IssueRow(x, now)])
  }

  function ApplyAll(t: Tables, stmts: seq<Stmt>, now: int): Tables {
    if stmts == [] then t else Apply(ApplyAll(t, stmts[..|stmts| - 1], now), stmts[|stmts| - 1], now)
  }

  /** What reaches the tables of a sanitised command: metadata is redacted once more as it is serialised. */
  function Statements(c: Command, r: Redactor, uuid: Hash): (stmts: seq<Stmt>)
    ensures |stmts| == 1 + |c.results| + |c.issues|
  {
    InOrder(PutRun(c.run.(metadata := R.Redact(c.run.metadata, r))), ResultStmts(c.results, r, uuid), IssueStmts(c.issues, r, uuid))
  }

  /** The run first, then the results, then the issues. */
  function InOrder(run: Stmt, results: seq<Stmt>, issues: seq<Stmt>): (s: seq<Stmt>)
    ensures |s| == 1 + |results| + |issues|
  {
    [run] + results + issues
  }

  function ResultStmts(results: seq<SourceResult>, r: Redactor, uuid: Hash): (stmts: seq<Stmt>)
    ensures |stmts| == |results|
    ensures forall i :: 0 <= i < |results| ==> stmts[i] == ResultStmt(results[i], r, uuid)
  {
    seq(|results|, i requires 0 <= i < |results| => ResultStmt(results[i], r, uuid))
  }

  function ResultStmt(x: SourceResult, r: Redactor, uuid: Hash): Stmt {
    PutResult(ResultId(x.runId, x.family, x.targetYear, uuid), SanitizedResult(x, r))
  }

  function IssueStmts(issues: seq<IssueRecord>, r: Redactor, uuid: Hash): (stmts: seq<Stmt>)
    ensures |stmts| == |issues|
    ensures forall i :: 0 <= i < |issues| ==> stmts[i] == IssueStmt(issues[i], r, uuid)
  {
    seq(|issues|, i requires 0 <= i < |issues| => IssueStmt(issues[i], r, uuid))
  }

  function IssueStmt(x: IssueRecord, r: Redactor, uuid: Hash): Stmt {
    AddIssue(IssueId(x, r, uuid), x.(metadata := R.Redact(x.metadata, r)))
  }

  // ---------------------------------------------------------------- the connection

  class Connection {
    var committed: Tables
    var working: Tables

    constructor (tables: Tables)
      ensures committed == tables && working == tables
    {
      committed, working := tables, tables;
    }

    /** A statement takes effect in the open transaction or fails. */
    method Execute(s: Stmt, now: int) returns (ok: bool)
      modifies this
      ensures committed == old(committed)
      ensures ok ==> working == Apply(old(working), s, now)
    {
      ok := *;
      if ok { working := Apply(working, s, now); } else { working := *; }
    }

    method Commit() returns (ok: bool)
      modifies this
      ensures committed == if ok then old(working) else old(committed)
      ensures ok ==> working == committed
    {
      ok := *;
      if ok { committed := working; }
    }

    method Rollback()
      modifies this
      ensures committed == old(committed) && working == committed
    {
      working := committed;
    }
  }

  datatype Status = Declared | FailedValidation | FailedDatabase

  datatype Outcome = Outcome(status: Status, runs: nat, results: nat, issues: nat, failures: nat)

  /** All or nothing: an invalid command and a failure at any statement, or at the commit, leave the
      committed tables as they were and report no rows. */
  method Persist(db: Connection, command: Command, r: Redactor, uuid: Hash, now: int) returns (o: Outcome)
    requires db.working == db.committed
    modifies db
    ensures db.working == db.committed
    ensures o.status.FailedValidation? <==> !ValidCommand(command)
    ensures o.status.FailedValidation? ==> o.failures > 0
    ensures o.status.Declared? ==>
              && db.committed == ApplyAll(old(db.committed), Statements(Sanitized(command, r), r, uuid), now)
              && o == Outcome(Declared, 1, |command.results|, |command.issues|, 0)
    ensures !o.status.Declared? ==> db.committed == old(db.committed) && o.runs == 0 && o.results == 0 && o.issues == 0
  {
    hide ValidCommand, R.Redact, Statements, ApplyAll, Apply, ResultStmt, IssueStmt;
    var problems := Validate(command);
    if problems != [] { return Outcome(FailedValidation, 0, 0, 0, |problems|); }
    var sanitized := Sanitized(command, r);
    ghost var stmts := Statements(sanitized, r, uuid);
    ghost var start := db.committed;
    StatementsAre(sanitized, r, uuid);
    ApplyNone(start, stmts, now);
    ApplyMore(start, stmts, 0, now);
    var ok := db.Execute(PutRun(sanitized.run.(metadata := R.Redact(sanitized.run.metadata, r))), now);
    var i := 0;
    while i < |sanitized.results| && ok
      invariant 0 <= i <= |sanitized.results|
      invariant db.committed == start
      invariant ok ==> db.working == ApplyAll(start, stmts[..1 + i], now)
    {
      ApplyMore(start, stmts, 1 + i, now);
      ok := db.Execute(ResultStmt(sanitized.results[i], r, uuid), now);
      i := i + 1;
    }
    var j := 0;
    while j < |sanitized.issues| && ok
      invariant 0 <= j <= |sanitized.issues|
      invariant db.committed == start
      invariant ok ==> i == |sanitized.results| && db.working == ApplyAll(start, stmts[..1 + i + j], now)
    {
      ApplyMore(start, stmts, 1 + i + j, now);
      ok := db.Execute(IssueStmt(sanitized.issues[j], r, uuid), now);
      j := j + 1;
    }
    if ok {
      assert stmts[..|stmts|] == stmts;
      ok := db.Commit();
    }
    if !ok {
      db.Rollback();
      return Outcome(FailedDatabase, 0, 0, 0, 0);
    }
    return Outcome(Declared, 1, |sanitized.results|, |sanitized.issues|, 0);
  }

  lemma StatementsAre(c: Command, r: Redactor, uuid: Hash)
    ensures var stmts := Statements(c, r, uuid);
            && |stmts| == 1 + |c.results| + |c.issues|
            && stmts[0] == PutRun(c.run.(metadata := R.Redact(c.run.metadata, r)))
            && (forall i :: 0 <= i < |c.results| ==> stmts[1 + i] == ResultStmt(c.results[i], r, uuid))
            && (forall j :: 0 <= j < |c.issues| ==> stmts[1 + |c.results| + j] == IssueStmt(c.issues[j], r, uuid))
  {
    hide R.Redact, ResultStmt, IssueStmt, InOrder;
    InOrderAt(PutRun(c.run.(metadata := R.Redact(c.run.metadata, r))), ResultStmts(c.results, r, uuid), IssueStmts(c.issues, r, uuid));
  }

  lemma InOrderAt(run: Stmt, results: seq<Stmt>, issues: seq<Stmt>)
    ensures var s := InOrder(run, results, issues);
            && s[0] == run
            && (forall i :: 0 <= i < |results| ==> s[1 + i] == results[i])
            && (forall j :: 0 <= j < |issues| ==> s[1 + |results| + j] == issues[j])
  {
  }

  lemma ApplyNone(t: Tables, stmts: seq<Stmt>, now: int)
    ensures ApplyAll(t, stmts[..0], now) == t
  {
  }

  lemma ApplyMore(t: Tables, stmts: seq<Stmt>, n: nat, now: int)
    requires n < |stmts|
    ensures ApplyAll(t, stmts[..n + 1], now) == Apply(ApplyAll(t, stmts[..n], now), stmts[n], now)
  {
    hide Apply;
    assert stmts[..n + 1][..n] == stmts[..n];
  }

  // ---------------------------------------------------------------- persisting twice

  /** The tables without the one column every upsert renews. */
  function Undated(t: Tables): Tables {
    Tables(map k | k in t.runs :: t.runs[k].(updatedAt := 0), map k | k in t.results :: t.results[k].(updatedAt := 0), t.issues)
  }

  /** The last record the statements put for a run, if any. */
  function LastRun(stmts: seq<Stmt>, k: string): Option<RunRecord> {
    if stmts == [] then None
    else
      var last := stmts[|stmts| - 1];
      if last.PutRun? && last.record.runId == k then Some(last.record) else LastRun(stmts[..|stmts| - 1], k)
  }

  function LastResult(stmts: seq<Stmt>, k: ResultKey): Option<SourceResult> {
    if stmts == [] then None
    else
      var last := stmts[|stmts| - 1];
      if last.PutResult? && KeyOfResult(last.result) == k then Some(last.result) else LastResult(stmts[..|stmts| - 1], k)
  }

  predicate Adds(stmts: seq<Stmt>, k: string) { exists i :: 0 <= i < |stmts| && stmts[i].AddIssue? && stmts[i].key == k }

  /** A run the statements name holds the last record put and keeps its creation time; others stay. */
  lemma {:induction false} RunAfter(t: Tables, stmts: seq<Stmt>, now: int, k: string)
    ensures var u := ApplyAll(t, stmts, now);
            if LastRun(stmts, k).None? then (k in u.runs <==> k in t.runs) && (k in t.runs ==> u.runs[k] == t.runs[k])
            else k in u.runs && u.runs[k] == RunRow(LastRun(stmts, k).value, if k in t.runs then t.runs[k].createdAt else now, now)
    decreases |stmts|
  {
    if stmts != [] { RunAfter(t, stmts[..|stmts| - 1], now, k); }
  }

  lemma {:induction false} ResultAfter(t: Tables, stmts: seq<Stmt>, now: int, k: ResultKey)
    ensures var u := ApplyAll(t, stmts, now);
            if LastResult(stmts, k).None? then (k in u.results <==> k in t.results) && (k in t.results ==> u.results[k] == t.results[k])
            else
              && k in u.results && u.results[k].record == LastResult(stmts, k).value && u.results[k].updatedAt == now
              && (k in t.results ==> u.results[k].id == t.results[k].id && u.results[k].createdAt == t.results[k].createdAt)
    decreases |stmts|
  {
    if stmts != [] { ResultAfter(t, stmts[..|stmts| - 1], now, k); }
  }

  lemma {:induction false} IssueAfter(t: Tables, stmts: seq<Stmt>, now: int, k: string)
    ensures var u := ApplyAll(t, stmts, now);
            && (k in u.issues <==> k in t.issues || Adds(stmts, k))
            && (k in t.issues ==> u.issues[k] == t.issues[k])
    decreases |stmts|
  {
    if stmts != [] {
      IssueAfter(t, stmts[..|stmts| - 1], now, k);
      AddsMore(stmts, k);
      hide Adds;
    }
  }

  lemma AddsMore(stmts: seq<Stmt>, k: string)
    requires stmts != []
    ensures var last := stmts[|stmts| - 1];
            Adds(stmts, k) <==> Adds(stmts[..|stmts| - 1], k) || (last.AddIssue? && last.key == k)
  {
    var n := |stmts| - 1;
    if Adds(stmts[..n], k) {
      var i :| 0 <= i < n && stmts[..n][i].AddIssue? && stmts[..n][i].key == k;
      assert stmts[i].key == k;
    }
    if Adds(stmts, k) {
      var i :| 0 <= i < |stmts| && stmts[i].AddIssue? && stmts[i].key == k;
      if i < n { assert stmts[..n][i] == stmts[i]; }
    }
  }

  /** Persisting a second time, whenever that is, changes nothing but the dates of the update. */
  lemma PersistTwice(t: Tables, stmts: seq<Stmt>, now: int, later: int)
    ensures Undated(ApplyAll(ApplyAll(t, stmts, now), stmts, later)) == Undated(ApplyAll(t, stmts, now))
  {
    hide ApplyAll;
    RunsTwice(t, stmts, now, later);
    ResultsTwice(t, stmts, now, later);
    IssuesTwice(t, stmts, now, later);
  }

  lemma RunsTwice(t: Tables, stmts: seq<Stmt>, now: int, later: int)
    ensures var u := ApplyAll(t, stmts, now);
            Undated(ApplyAll(u, stmts, later)).runs == Undated(u).runs
  {
    hide ApplyAll, LastRun;
    var u := ApplyAll(t, stmts, now);
    var v := ApplyAll(u, stmts, later);
    forall k ensures k in v.runs <==> k in u.runs ensures k in u.runs ==> v.runs[k].(updatedAt := 0) == u.runs[k].(updatedAt := 0) {
      RunAfter(t, stmts, now, k);
      RunAfter(u, stmts, later, k);
    }
  }

  lemma ResultsTwice(t: Tables, stmts: seq<Stmt>, now: int, later: int)
    ensures var u := ApplyAll(t, stmts, now);
            Undated(ApplyAll(u, stmts, later)).results == Undated(u).results
  {
    hide ApplyAll, LastResult;
    var u := ApplyAll(t, stmts, now);
    var v := ApplyAll(u, stmts, later);
    forall k ensures k in v.results <==> k in u.results ensures k in u.results ==> v.results[k].(updatedAt := 0) == u.results[k].(updatedAt := 0) {
      ResultAfter(t, stmts, now, k);
      ResultAfter(u, stmts, later, k);
    }
  }

  lemma IssuesTwice(t: Tables, stmts: seq<Stmt>, now: int, later: int)
    ensures var u := ApplyAll(t, stmts, now);
            ApplyAll(u, stmts, later).issues == u.issues
  {
    hide ApplyAll, Adds;
    var u := ApplyAll(t, stmts, now);
    var v := ApplyAll(u, stmts, later);
    forall k ensures k in v.issues <==> k in u.issues ensures k in u.issues ==> v.issues[k] == u.issues[k] {
      IssueAfter(t, stmts, now, k);
      IssueAfter(u, stmts, later, k);
    }
  }

  // ---------------------------------------------------------------- ids

  /** Every source-result row's id is the hash of its own key. */
  ghost predicate IdsMatchKeys(t: Tables, uuid: Hash) {
    forall k :: k in t.results ==> t.results[k].id == ResultId(k.0, k.1, k.2, uuid)
  }

  lemma {:induction false} IdsStay(t: Tables, stmts: seq<Stmt>, now: int, uuid: Hash)
    requires IdsMatchKeys(t, uuid)
    requires forall i :: 0 <= i < |stmts| && stmts[i].PutResult? ==>
               stmts[i].id == ResultId(stmts[i].result.runId, stmts[i].result.family, stmts[i].result.targetYear, uuid)
    ensures IdsMatchKeys(ApplyAll(t, stmts, now), uuid)
    decreases |stmts|
  {
    hide ResultId;
    if stmts != [] { IdsStay(t, stmts[..|stmts| - 1], now, uuid); }
  }

  /** So it stays, whatever commands are persisted. */
  lemma SourceResultIds(t: Tables, c: Command, r: Redactor, uuid: Hash, now: int)
    requires IdsMatchKeys(t, uuid)
    ensures IdsMatchKeys(ApplyAll(t, Statements(c, r, uuid), now), uuid)
  {
    hide R.Redact, ResultId, ApplyAll;
    IdsStay(t, Statements(c, r, uuid), now, uuid);
  }

  function MetadataOf(s: Stmt): R.Json {
    match s case PutRun(x) => x.metadata case PutResult(_, x) => x.metadata case AddIssue(_, x) => x.metadata
  }

  /** What is stored of the metadata of the run, of every result and of every issue holds no sensitive
      value, and is what the sanitised command shows where the redactor settles it: serialising redacts
      once more to no effect. */
  lemma StoredMetadata(c: Command, r: Redactor, uuid: Hash)
    ensures var s, stmts := Sanitized(c, r), Statements(Sanitized(c, r), r, uuid);
            && (forall i :: 0 <= i < |stmts| ==> R.Masked(MetadataOf(stmts[i])))
            && (R.Settles(c.run.metadata, r) ==> stmts[0] == PutRun(s.run))
            && (forall i :: 0 <= i < |c.results| && R.Settles(c.results[i].metadata, r) ==>
                  stmts[1 + i].PutResult? && stmts[1 + i].result == s.results[i])
            && (forall j :: 0 <= j < |c.issues| && R.Settles(c.issues[j].metadata, r) ==>
                  stmts[1 + |c.results| + j].AddIssue? && stmts[1 + |c.results| + j].issue == s.issues[j])
  {
    hide R.Redact, R.Masked, R.Settles, Statements, ResultId, IssueId;
    var s, stmts := Sanitized(c, r), Statements(Sanitized(c, r), r, uuid);
    StatementsAre(s, r, uuid);
    forall i | 0 <= i < |stmts| ensures R.Masked(MetadataOf(stmts[i])) {
      if i == 0 { R.RedactMasks(s.run.metadata, r); }
      else if i < 1 + |c.results| { R.RedactMasks(s.results[i - 1].metadata, r); }
      else { IssueMasked(s, stmts, r, uuid, i - 1 - |c.results|); }
    }
    if R.Settles(c.run.metadata, r) { R.RedactOnce(c.run.metadata, r); }
    forall i | 0 <= i < |c.results| && R.Settles(c.results[i].metadata, r)
      ensures stmts[1 + i].PutResult? && stmts[1 + i].result == s.results[i]
    {
      assert s.results[i] == SanitizedResult(c.results[i], r);
      R.RedactOnce(c.results[i].metadata, r);
    }
    forall j | 0 <= j < |c.issues| && R.Settles(c.issues[j].metadata, r)
      ensures stmts[1 + |c.results| + j].AddIssue? && stmts[1 + |c.results| + j].issue == s.issues[j]
    {
      assert s.issues[j] == SanitizedIssue(c.issues[j], r);
      R.RedactOnce(c.issues[j].metadata, r);
    }
  }

  lemma IssueMasked(s: Command, stmts: seq<Stmt>, r: Redactor, uuid: Hash, j: nat)
    requires stmts == Statements(s, r, uuid) && j < |s.issues|
    ensures R.Masked(MetadataOf(stmts[1 + |s.results| + j]))
  {
    hide R.Redact, R.Masked, Statements, IssueId;
    StatementsAre(s, r, uuid);
    R.RedactMasks(s.issues[j].metadata, r);
  }

  // ---------------------------------------------------------------- the reported count

  lemma {:induction false} FreshIssues(t: Tables, stmts: seq<Stmt>, now: int)
    requires forall i :: 0 <= i < |stmts| ==> stmts[i].AddIssue? && stmts[i].key !in t.issues
    requires forall i, j :: 0 <= i < j < |stmts| ==> stmts[i].key != stmts[j].key
    ensures var u := ApplyAll(t, stmts, now);
            |u.issues| == |t.issues| + |stmts| && forall k :: k in u.issues <==> k in t.issues || Adds(stmts, k)
    decreases |stmts|
  {
    if stmts != [] {
      var n := |stmts| - 1;
      FreshIssues(t, stmts[..n], now);
      var before := ApplyAll(t, stmts[..n], now);
      assert !Adds(stmts[..n], stmts[n].key);
      forall k ensures Adds(stmts, k) <==> Adds(stmts[..n], k) || stmts[n].key == k { AddsMore(stmts, k); }
      hide Adds;
      assert stmts[n].key !in before.issues;
    }
  }

  lemma {:induction false} OthersAddNone(t: Tables, stmts: seq<Stmt>, now: int)
    requires forall i :: 0 <= i < |stmts| ==> !stmts[i].AddIssue?
    ensures ApplyAll(t, stmts, now).issues == t.issues
    decreases |stmts|
  {
    if stmts != [] { OthersAddNone(t, stmts[..|stmts| - 1], now); }
  }

  lemma {:induction false} ApplyAppend(t: Tables, xs: seq<Stmt>, ys: seq<Stmt>, now: int)
    ensures ApplyAll(t, xs + ys, now) == ApplyAll(ApplyAll(t, xs, now), ys, now)
    decreases |ys|
  {
    hide Apply;
    if ys == [] {
      assert xs + ys == xs;
    } else {
      assert (xs + ys)[..|xs + ys| - 1] == xs + ys[..|ys| - 1];
      ApplyAppend(t, xs, ys[..|ys| - 1], now);
    }
  }

  /** Every issue row is filed under the hash of its own payload. */
  ghost predicate IssuesKeyed(t: Tables, r: Redactor, uuid: Hash) {
    forall k :: k in t.issues ==> k == IssueId(t.issues[k].record, r, uuid)
  }

  lemma {:induction false} IssueKeysStay(t: Tables, stmts: seq<Stmt>, now: int, r: Redactor, uuid: Hash)
    requires IssuesKeyed(t, r, uuid)
    requires forall i :: 0 <= i < |stmts| && stmts[i].AddIssue? ==> stmts[i].key == IssueId(stmts[i].issue, r, uuid)
    ensures IssuesKeyed(ApplyAll(t, stmts, now), r, uuid)
    decreases |stmts|
  {
    hide IssueId;
    if stmts != [] { IssueKeysStay(t, stmts[..|stmts| - 1], now, r, uuid); }
  }

  lemma IssueStmtKeyed(c: Command, r: Redactor, uuid: Hash, i: nat)
    requires 1 + |c.results| <= i < |Statements(c, r, uuid)|
    ensures var s := Statements(c, r, uuid)[i]; s.AddIssue? && s.key == IssueId(s.issue, r, uuid)
  {
    hide R.Redact, Statements;
    StatementsAre(c, r, uuid);
    var j := i - 1 - |c.results|;
    assert Statements(c, r, uuid)[1 + |c.results| + j] == IssueStmt(c.issues[j], r, uuid);
  }

  /** Every issue row stays under the hash of its own payload, whatever commands are persisted. */
  lemma IssueIdsStay(t: Tables, c: Command, r: Redactor, uuid: Hash, now: int)
    requires IssuesKeyed(t, r, uuid)
    ensures IssuesKeyed(ApplyAll(t, Statements(c, r, uuid), now), r, uuid)
  {
    hide R.Redact, ApplyAll, Statements, IssuesKeyed;
    StatementsAre(c, r, uuid);
    var stmts := Statements(c, r, uuid);
    forall i | 0 <= i <= |c.results| ensures !stmts[i].AddIssue? {
      if i > 0 { assert stmts[1 + (i - 1)] == ResultStmt(c.results[i - 1], r, uuid); }
    }
    forall i | 0 <= i < |stmts| && stmts[i].AddIssue? ensures stmts[i].key == IssueId(stmts[i].issue, r, uuid) {
      IssueStmtKeyed(c, r, uuid, i);
    }
    IssueKeysStay(t, stmts, now, r, uuid);
  }

  function TablePayloads(t: Tables, r: Redactor): set<seq<string>> {
    set k | k in t.issues :: IssuePayload(t.issues[k].record, r)
  }

  /** On tables with no issue row of this run, the count reported is exactly the number of issue rows
      inserted: the de-duplicated issues all get rows of their own. */
  lemma ReportedCountExact(t: Tables, c: Command, run: RunRecord, families: seq<FamilyResult>, failures: seq<CycleIssue>,
                           r: Redactor, uuid: Hash, now: int)
    requires c == CommandOf(run, families, failures, r) && ValidCommand(c)
    requires MessagesSettle(FamilyFailures(families) + failures, r)
    requires IssuesKeyed(t, r, uuid) && forall k :: k in t.issues ==> t.issues[k].record.runId != run.runId
    requires NoCollision(TablePayloads(t, r) + Payloads(Sanitized(c, r).issues, r), uuid)
    ensures |ApplyAll(t, Statements(Sanitized(c, r), r, uuid), now).issues| == |t.issues| + |c.issues|
  {
    hide R.Redact, KeyOf, ValidCommand, ApplyAll, IssueId, Payloads, TablePayloads, CommandOf;
    var s := Sanitized(c, r);
    NoCollisionIn(TablePayloads(t, r), Payloads(s.issues, r), uuid);
    IdsDiffer(c, run, families, failures, r, uuid);
    IdsFresh(t, c, run, families, failures, r, uuid);
    var stmts := Statements(s, r, uuid);
    var first := [PutRun(s.run.(metadata := R.Redact(s.run.metadata, r)))] + ResultStmts(s.results, r, uuid);
    ApplyAppend(t, first, IssueStmts(s.issues, r, uuid), now);
    OthersAddNone(t, first, now);
    FreshIssues(ApplyAll(t, first, now), IssueStmts(s.issues, r, uuid), now);
  }

  lemma NoCollisionIn(a: set<seq<string>>, b: set<seq<string>>, uuid: Hash)
    requires NoCollision(a + b, uuid)
    ensures NoCollision(a, uuid) && NoCollision(b, uuid)
  {
  }

  lemma IdsFresh(t: Tables, c: Command, run: RunRecord, families: seq<FamilyResult>, failures: seq<CycleIssue>, r: Redactor, uuid: Hash)
    requires c == CommandOf(run, families, failures, r)
    requires IssuesKeyed(t, r, uuid) && forall k :: k in t.issues ==> t.issues[k].record.runId != run.runId
    requires NoCollision(TablePayloads(t, r) + Payloads(Sanitized(c, r).issues, r), uuid)
    ensures forall i :: 0 <= i < |Sanitized(c, r).issues| ==> IssueId(Sanitized(c, r).issues[i], r, uuid) !in t.issues
  {
    hide R.Redact, KeyOf;
    var issues := Sanitized(c, r).issues;
    forall i | 0 <= i < |issues| ensures IssueId(issues[i], r, uuid) !in t.issues {
      assert issues[i].runId == run.runId;
      if IssueId(issues[i], r, uuid) in t.issues { SameRun(t, issues, i, r, uuid); }
    }
  }

  /** An issue row with the id of an issue is a row of the issue's run. */
  lemma SameRun(t: Tables, issues: seq<IssueRecord>, i: nat, r: Redactor, uuid: Hash)
    requires i < |issues| && IssuesKeyed(t, r, uuid) && IssueId(issues[i], r, uuid) in t.issues
    requires NoCollision(TablePayloads(t, r) + Payloads(issues, r), uuid)
    ensures t.issues[IssueId(issues[i], r, uuid)].record.runId == issues[i].runId
  {
    var id := IssueId(issues[i], r, uuid);
    assert IssuePayload(issues[i], r) in Payloads(issues, r);
    assert IssuePayload(t.issues[id].record, r) in TablePayloads(t, r);
    assert IssuePayload(t.issues[id].record, r)[1] == IssuePayload(issues[i], r)[1];
  }
}
