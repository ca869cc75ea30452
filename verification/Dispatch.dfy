/** scripts/agent_dispatch_handoff_reporter.py: the two indexes of tasks, the frontier of blocked
    issues, and the selection of the next issue to hand off. */
module Dispatch {
  import opened Text
  import opened Footers
  import opened Dependencies
  import opened Firsts
  import opened Sorting

  datatype Issue = Issue(number: nat, title: string, body: string, labels: seq<string>)

  /** The rest of every label with a prefix. */
  function Suffixes(labels: seq<string>, prefix: string): seq<string> {
    if labels == [] then []
    else (if prefix <= labels[0] then [labels[0][|prefix|..]] else []) + Suffixes(labels[1..], prefix)
  }

  function Only(values: seq<string>): Option<string> { if |values| == 1 then Some(values[0]) else None }

  function StatusOf(issue: Issue): Option<string> { Only(Suffixes(issue.labels, "status:")) }

  function LaneOf(issue: Issue): Option<string> { Only(Suffixes(issue.labels, "lane:")) }

  /** The whole label. */
  function AgentOf(issue: Issue): Option<string> {
    var agent := Only(Suffixes(issue.labels, "agent:"));
    if agent.Some? then Some("agent:" + agent.value) else None
  }

  const READY := "ready"
  const MERGED := "merged"
  const LANES := ["ops", "python", "dotnet", "parity", "review"]

  /** LANE_PRIORITY.index, or one past the last. */
  function RankIn(lanes: seq<string>, lane: string): (r: nat)
    ensures r <= |lanes| && (r < |lanes| ==> lanes[r] == lane) && (r == |lanes| <==> lane !in lanes)
  {
    if lanes == [] || lanes[0] == lane then 0 else RankIn(lanes[1..], lane) + 1
  }

  function LaneRank(issue: Issue): nat { RankIn(LANES, if LaneOf(issue).Some? then LaneOf(issue).value else []) }

  function TaskIdOf(issue: Issue): Option<string> { DispatchId(issue.body) }

  // ---------------------------------------------------------------- the two indexes

  function Entries(issues: seq<Issue>): seq<(string, Issue)> {
    if issues == [] then []
    else
      var n := |issues| - 1;
      Entries(issues[..n]) + if TaskIdOf(issues[n]).Some? then [(TaskIdOf(issues[n]).value, issues[n])] else []
  }

  /** The issues with a task id, in order. */
  function Matches(issues: seq<Issue>, id: string): seq<Issue> {
    if issues == [] then []
    else
      var n := |issues| - 1;
      Matches(issues[..n], id) + if TaskIdOf(issues[n]) == Some(id) then [issues[n]] else []
  }

  function FirstMatch(issues: seq<Issue>, id: string): Option<Issue> {
    if Matches(issues, id) == [] then None else Some(Matches(issues, id)[0])
  }

  lemma {:induction false} EntriesGet(issues: seq<Issue>, id: string)
    ensures Get(Entries(issues), id) == FirstMatch(issues, id)
    decreases |issues|
  {
    hide TaskIdOf;
    if issues != [] {
      var n := |issues| - 1;
      EntriesGet(issues[..n], id);
      var found := TaskIdOf(issues[n]);
      var before, matches := Entries(issues[..n]), Matches(issues[..n], id);
      if found.Some? {
        GetMore(before, (found.value, issues[n]), id);
        assert Entries(issues) == before + [(found.value, issues[n])];
      } else {
        assert before + [] == before;
      }
      assert Matches(issues, id) == matches + if found == Some(id) then [issues[n]] else [];
      assert matches + [] == matches;
      hide Entries, Matches;
    }
  }

  ghost predicate Indexes(issues: seq<Issue>, index: seq<(string, Issue)>, duplicates: set<string>) {
    && index == Kept(Entries(issues))
    && forall id :: id in duplicates <==> |Matches(issues, id)| >= 2
  }

  lemma IndexMore(issues: seq<Issue>, n: nat, index: seq<(string, Issue)>, duplicates: set<string>)
    requires n < |issues| && Indexes(issues[..n], index, duplicates)
    ensures var id := TaskIdOf(issues[n]);
            if id.None? then Indexes(issues[..n + 1], index, duplicates)
            else if Get(index, id.value).Some? then Indexes(issues[..n + 1], index, duplicates + {id.value})
            else Indexes(issues[..n + 1], index + [(id.value, issues[n])], duplicates)
  {
    hide TaskIdOf, Kept, Get;
    assert issues[..n + 1][..n] == issues[..n];
    var id := TaskIdOf(issues[n]);
    forall k ensures Matches(issues[..n + 1], k) == Matches(issues[..n], k) + if id == Some(k) then [issues[n]] else [] {}
    assert Entries(issues[..n + 1]) == Entries(issues[..n]) + if id.Some? then [(id.value, issues[n])] else [];
    hide Entries, Matches;
    if id.Some? {
      KeptMore(Entries(issues[..n]), (id.value, issues[n]));
      KeptGet(Entries(issues[..n]), id.value);
      EntriesGet(issues[..n], id.value);
      var more := issues[..n + 1];
      if Get(index, id.value).Some? {
        assert Indexes(more, index, duplicates + {id.value});
      } else {
        assert Indexes(more, index + [(id.value, issues[n])], duplicates);
      }
    } else {
      assert Entries(issues[..n]) + [] == Entries(issues[..n]);
    }
  }

  /** The first issue of every task id, and the ids met again. */
  method BuildTaskIndex(issues: seq<Issue>) returns (index: seq<(string, Issue)>, duplicates: set<string>)
    ensures forall id :: Get(index, id) == FirstMatch(issues, id)
    ensures forall id :: id in duplicates <==> |Matches(issues, id)| >= 2
    ensures DistinctKeys(index)
  {
    hide TaskIdOf, Kept, Get, Matches;
    index, duplicates := [], {};
    NothingIndexed();
    for i := 0 to |issues|
      invariant Indexes(issues[..i], index, duplicates)
    {
      IndexMore(issues, i, index, duplicates);
      var id := TaskIdOf(issues[i]);
      if id.None? { continue; }
      if Get(index, id.value).Some? {
        duplicates := duplicates + {id.value};
      } else {
        index := index + [(id.value, issues[i])];
      }
    }
    assert issues[..|issues|] == issues;
    forall id ensures Get(index, id) == FirstMatch(issues, id) {
      KeptGet(Entries(issues), id);
      EntriesGet(issues, id);
    }
    KeptDistinct(Entries(issues));
  }

  lemma NothingIndexed()
    ensures Indexes([], [], {})
  {
  }

  predicate LowerNumber(a: Issue, b: Issue) { a.number < b.number }

  function ByNumber(issues: seq<Issue>): (r: seq<Issue>)
    ensures |r| == |issues|
  {
    Sorted(issues, LowerNumber)
  }

  /** Every task id with all its issues, by number. */
  method BuildTaskOccurrences(issues: seq<Issue>) returns (occurrences: map<string, seq<Issue>>)
    ensures forall id :: (if id in occurrences then occurrences[id] else []) == ByNumber(Matches(issues, id))
    ensures forall id :: id in occurrences ==> occurrences[id] != []
  {
    hide TaskIdOf, ByNumber, Matches;
    NoMatches();
    var lists: map<string, seq<Issue>> := map[];
    for i := 0 to |issues|
      invariant forall id :: (if id in lists then lists[id] else []) == Matches(issues[..i], id)
      invariant forall id :: id in lists ==> lists[id] != []
    {
      MatchesMore(issues, i);
      var id := TaskIdOf(issues[i]);
      if id.None? { continue; }
      lists := lists[id.value := (if id.value in lists then lists[id.value] else []) + [issues[i]]];
    }
    assert issues[..|issues|] == issues;
    occurrences := map id | id in lists :: ByNumber(lists[id]);
    NoneByNumber();
  }

  lemma MatchesMore(issues: seq<Issue>, i: nat)
    requires i < |issues|
    ensures forall id :: Matches(issues[..i + 1], id)
                      == if TaskIdOf(issues[i]) == Some(id) then Matches(issues[..i], id) + [issues[i]] else Matches(issues[..i], id)
  {
    hide TaskIdOf;
    assert issues[..i + 1][..i] == issues[..i];
    forall id ensures Matches(issues[..i], id) + [] == Matches(issues[..i], id) {}
  }

  lemma NoMatches()
    ensures forall id :: Matches([], id) == []
  {
  }

  lemma NoneByNumber()
    ensures ByNumber([]) == []
  {
  }

  // ---------------------------------------------------------------- dependencies of a candidate

  datatype Blocker =
    | OpenTaskPr | WorkInProgress | NoReadyIssue | DuplicateTaskIds
    | NoTaskId | NoLane | NoAgent | NoTemplate | NoDependencies
    | DependencyNotFound(id: string) | DependencyNotMerged(id: string, status: Option<string>)

  type Index = string -> Option<Issue>

  function DependencyBlocker(id: string, index: Index): seq<Blocker> {
    match index(id)
    case None => [DependencyNotFound(id)]
    case Some(issue) => if StatusOf(issue) != Some(MERGED) then [DependencyNotMerged(id, StatusOf(issue))] else []
  }

  function DependencyBlockers(ids: seq<string>, index: Index): seq<Blocker> {
    if ids == [] then [] else DependencyBlocker(ids[0], index) + DependencyBlockers(ids[1..], index)
  }

  predicate MergedIn(index: Index, id: string) { index(id).Some? && StatusOf(index(id).value) == Some(MERGED) }

  lemma {:induction false} NoDependencyBlockers(ids: seq<string>, index: Index)
    ensures DependencyBlockers(ids, index) == [] <==> forall id :: id in ids ==> MergedIn(index, id)
  {
    hide StatusOf;
    if ids != [] {
      NoDependencyBlockers(ids[1..], index);
      assert ids[0] in ids;
      assert forall id :: id in ids <==> id == ids[0] || id in ids[1..];
    }
  }

  // ---------------------------------------------------------------- the frontier

  datatype Category = ReadyButStillBlocked | MissingDependency | AmbiguousDependency | UnmergedDependency | NoMetadata

  const AMBIGUOUS := "ambiguous"

  datatype Summary = Summary(number: Option<nat>, status: Option<string>)

  /** dependency_frontier_summary, from all the issues with an id. A single issue labelled
      status:ambiguous reads like an id with several issues. */
  function SummaryOf(matches: seq<Issue>): Summary {
    if matches == [] then Summary(None, None)
    else if |matches| > 1 then Summary(None, Some(AMBIGUOUS))
    else Summary(Some(matches[0].number), StatusOf(matches[0]))
  }

  predicate IsMergedSummary(s: Summary) { s.number.Some? && s.status == Some(MERGED) }

  type Occurrences = string -> seq<Issue>

  /** categorize_dependency_frontier: ambiguous comes before missing, missing before unmerged. */
  function CategoryOf(ids: seq<string>, occurrences: Occurrences): Category {
    if ids == [] then NoMetadata
    else if exists id :: id in ids && SummaryOf(occurrences(id)).status == Some(AMBIGUOUS) then AmbiguousDependency
    else if exists id :: id in ids && SummaryOf(occurrences(id)).number.None? then MissingDependency
    else if exists id :: id in ids && SummaryOf(occurrences(id)).status != Some(MERGED) then UnmergedDependency
    else ReadyButStillBlocked
  }

  function OccurrencesIn(issues: seq<Issue>): Occurrences { id => ByNumber(Matches(issues, id)) }

  function IndexIn(issues: seq<Issue>): Index { id => FirstMatch(issues, id) }

  /** The two indexes agree: duplicate ids are those with two occurrences or more, and without any, a
      blocked issue with dependencies is called ready but still blocked exactly when selection would
      raise no dependency blocker against it. */
  lemma IndexesAgree(issues: seq<Issue>, ids: seq<string>)
    requires forall id :: |Matches(issues, id)| < 2
    requires ids != []
    ensures CategoryOf(ids, OccurrencesIn(issues)).ReadyButStillBlocked? <==> DependencyBlockers(ids, IndexIn(issues)) == []
  {
    hide StatusOf, TaskIdOf, Matches, ByNumber;
    NoDependencyBlockers(ids, IndexIn(issues));
    forall id: string
      ensures IsMergedSummary(SummaryOf(OccurrencesIn(issues)(id))) <==> MergedIn(IndexIn(issues), id)
    {
      OneMatch(issues, id);
    }
    hide SummaryOf, MergedIn, OccurrencesIn, IndexIn;
    assert MERGED != AMBIGUOUS by { assert MERGED[0] == 'm'; }
    assert CategoryOf(ids, OccurrencesIn(issues)).ReadyButStillBlocked?
      <==> forall id :: id in ids ==> IsMergedSummary(SummaryOf(OccurrencesIn(issues)(id)));
  }

  lemma OneMatch(issues: seq<Issue>, id: string)
    requires |Matches(issues, id)| < 2
    ensures ByNumber(Matches(issues, id)) == Matches(issues, id)
  {
    hide Matches;
    var m := Matches(issues, id);
    if m == [] {
    } else {
      assert m[..0] == [] && m == [m[0]];
    }
  }

  /** With duplicates the two may differ, but selection then hands nothing off at all. */
  lemma AmbiguousIsNotReady(issues: seq<Issue>, ids: seq<string>, id: string)
    requires id in ids && |Matches(issues, id)| >= 2
    ensures CategoryOf(ids, OccurrencesIn(issues)).AmbiguousDependency?
  {
    hide StatusOf, TaskIdOf, Matches;
    hide ByNumber;
    assert SummaryOf(OccurrencesIn(issues)(id)).status == Some(AMBIGUOUS);
  }

  // ---------------------------------------------------------------- validation

  predicate HasTemplate(issue: Issue) {
    var lane := LaneOf(issue);
    lane.Some? && (lane.value in LANES[..4] || (lane.value == LANES[4] && Contains(Lower(issue.title + "\n" + issue.body), "parity")))
  }

  function DepsOf(issue: Issue): seq<string> { DispatchDeps(issue.body) }

  predicate NeedsDependencies(issue: Issue) { LaneOf(issue) == Some("parity") || LaneOf(issue) == Some("review") }

  predicate HasLane(issue: Issue) { LaneOf(issue).Some? && LaneOf(issue).value in LANES }

  /** An issue that can be handed off. */
  ghost predicate Dispatchable(issue: Issue, index: Index) {
    && TaskIdOf(issue).Some? && HasLane(issue) && AgentOf(issue).Some? && HasTemplate(issue)
    && (NeedsDependencies(issue) ==> DepsOf(issue) != [])
    && forall id :: id in DepsOf(issue) ==> MergedIn(index, id)
  }

  /** What stands in the way of an issue, one entry for each thing. */
  ghost predicate Blocks(issue: Issue, index: Index, blocker: Blocker) {
    match blocker
    case NoTaskId => TaskIdOf(issue).None?
    case NoLane => !HasLane(issue)
    case NoAgent => AgentOf(issue).None?
    case NoTemplate => !HasTemplate(issue)
    case NoDependencies => NeedsDependencies(issue) && DepsOf(issue) == []
    case DependencyNotFound(id) => id in DepsOf(issue) && index(id).None?
    case DependencyNotMerged(id, status) =>
      id in DepsOf(issue) && index(id).Some? && status == StatusOf(index(id).value) != Some(MERGED)
    case _ => false
  }

  method ValidateSelected(issue: Issue, index: seq<(string, Issue)>) returns (blockers: seq<Blocker>)
    ensures blockers == [] <==> Dispatchable(issue, id => Get(index, id))
    ensures forall blocker :: blocker in blockers <==> Blocks(issue, id => Get(index, id), blocker)
  {
    hide TaskIdOf, LaneOf, AgentOf, HasTemplate, DepsOf, StatusOf, Get, HasLane, NeedsDependencies;
    blockers := [];
    ghost var look: Index := id => Get(index, id);
    if TaskIdOf(issue).None? { blockers := blockers + [NoTaskId]; }
    if !HasLane(issue) { blockers := blockers + [NoLane]; }
    if AgentOf(issue).None? { blockers := blockers + [NoAgent]; }
    if !HasTemplate(issue) { blockers := blockers + [NoTemplate]; }
    var dependencies := DepsOf(issue);
    if NeedsDependencies(issue) && dependencies == [] { blockers := blockers + [NoDependencies]; }
    ghost var own := blockers;
    for i := 0 to |dependencies|
      invariant blockers == [] <==> own == [] && forall j :: 0 <= j < i ==> MergedIn(look, dependencies[j])
      invariant forall blocker :: blocker in blockers <==>
        blocker in own || exists j :: 0 <= j < i && blocker in DependencyBlocker(dependencies[j], look)
    {
      var found := Get(index, dependencies[i]);
      if found.None? {
        blockers := blockers + [DependencyNotFound(dependencies[i])];
        continue;
      }
      var status := StatusOf(found.value);
      if status != Some(MERGED) { blockers := blockers + [DependencyNotMerged(dependencies[i], status)]; }
    }
  }

  // ---------------------------------------------------------------- selection

  predicate Before(a: Issue, b: Issue) {
    LaneRank(a) < LaneRank(b) || (LaneRank(a) == LaneRank(b) && a.number < b.number)
  }

  function WithStatus(issues: seq<Issue>, status: string): (r: seq<Issue>)
    ensures forall x :: x in r <==> x in issues && StatusOf(x) == Some(status)
  {
    if issues == [] then []
    else (if StatusOf(issues[0]) == Some(status) then [issues[0]] else []) + WithStatus(issues[1..], status)
  }

  /** The ready issues by lane rank and number. */
  function Candidates(ready: seq<Issue>): seq<Issue> { Sorted(WithStatus(ready, READY), Before) }

  lemma CandidatesOrdered(ready: seq<Issue>)
    ensures Ascending(Candidates(ready), Before)
    ensures forall x :: x in Candidates(ready) <==> x in ready && StatusOf(x) == Some(READY)
  {
    hide LaneRank, StatusOf, Sorted, WithStatus;
    SortedAscending(WithStatus(ready, READY), Before);
  }

  datatype Queue = Queue(openTaskPrs: nat, inProgress: nat, ready: seq<Issue>, all: seq<Issue>)

  datatype Outcome = Outcome(selected: Option<Issue>, blockers: seq<Blocker>)

  /** The least ready candidate by lane rank and number, with nothing in its way. */
  ghost predicate Selected(q: Queue, x: Issue) {
    && q.openTaskPrs == 0 && q.inProgress == 0 && (forall id :: |Matches(q.all, id)| < 2)
    && LeastReady(q, x) && Dispatchable(x, IndexIn(q.all))
  }

  ghost predicate LeastReady(q: Queue, x: Issue) {
    x in q.ready && StatusOf(x) == Some(READY) && forall y :: y in q.ready && StatusOf(y) == Some(READY) ==> !Before(y, x)
  }

  /** select_handoff_package. What is handed off is the least ready candidate by lane rank and number,
      with all its dependencies merged, when no task pull request is open, nothing is in progress and
      no task id is duplicated; and if such a candidate is least it is handed off. */
  method SelectHandoff(q: Queue) returns (o: Outcome)
    ensures o.selected.Some? <==> o.blockers == []
    ensures o.selected.Some? ==> Selected(q, o.selected.value)
    ensures OpenTaskPr in o.blockers <==> q.openTaskPrs > 0
    ensures WorkInProgress in o.blockers <==> q.inProgress > 0
    ensures NoReadyIssue in o.blockers <==> forall x :: x in q.ready ==> StatusOf(x) != Some(READY)
    ensures DuplicateTaskIds in o.blockers <==> exists id :: |Matches(q.all, id)| >= 2
    ensures o.selected.Some? || OpenTaskPr in o.blockers || WorkInProgress in o.blockers || NoReadyIssue in o.blockers
            || DuplicateTaskIds in o.blockers
            || exists x :: LeastReady(q, x) && forall blocker :: blocker in o.blockers <==> Blocks(x, IndexIn(q.all), blocker)
  {
    hide StatusOf, Before, Dispatchable, Matches, Get, LaneRank, Candidates, TaskIdOf;
    var blockers: seq<Blocker> := [];
    if q.openTaskPrs > 0 { blockers := blockers + [OpenTaskPr]; }
    if q.inProgress > 0 { blockers := blockers + [WorkInProgress]; }
    var candidates := Candidates(q.ready);
    CandidatesOrdered(q.ready);
    if candidates == [] { blockers := blockers + [NoReadyIssue]; }
    assert candidates == [] <==> forall x :: x in q.ready ==> StatusOf(x) != Some(READY) by {
      if candidates != [] { assert candidates[0] in candidates; }
    }
    var index, duplicates := BuildTaskIndex(q.all);
    if duplicates != {} { blockers := blockers + [DuplicateTaskIds]; }
    if blockers != [] {
      if duplicates != {} {
        ghost var id :| id in duplicates;
        assert |Matches(q.all, id)| >= 2;
      }
      return Outcome(None, blockers);
    }
    var selected := candidates[0];
    assert selected in candidates;
    forall x | x in candidates ensures !Before(x, selected) {
      var k :| 0 <= k < |candidates| && candidates[k] == x;
      if k == 0 { NotBeforeItself(x); }
    }
    SameIndex(selected, index, q.all);
    assert LeastReady(q, selected);
    hide Blocks;
    blockers := ValidateSelected(selected, index);
    NotItsOwn(selected, index);
    if blockers != [] { return Outcome(None, blockers); }
    return Outcome(Some(selected), []);
  }

  lemma NotBeforeItself(x: Issue)
    ensures !Before(x, x)
  {
  }

  lemma SameIndex(issue: Issue, index: seq<(string, Issue)>, all: seq<Issue>)
    requires forall id :: Get(index, id) == FirstMatch(all, id)
    ensures Dispatchable(issue, id => Get(index, id)) <==> Dispatchable(issue, IndexIn(all))
    ensures forall blocker :: Blocks(issue, id => Get(index, id), blocker) <==> Blocks(issue, IndexIn(all), blocker)
  {
    hide StatusOf, FirstMatch, Get, TaskIdOf, HasLane, AgentOf, HasTemplate, DepsOf, NeedsDependencies;
    forall id ensures MergedIn(id => Get(index, id), id) <==> MergedIn(IndexIn(all), id) {}
  }

  /** No issue is blocked by what blocks all. */
  lemma NotItsOwn(issue: Issue, index: seq<(string, Issue)>)
    ensures var look := id => Get(index, id);
            && !Blocks(issue, look, OpenTaskPr) && !Blocks(issue, look, WorkInProgress)
            && !Blocks(issue, look, NoReadyIssue) && !Blocks(issue, look, DuplicateTaskIds)
  {
  }
}
