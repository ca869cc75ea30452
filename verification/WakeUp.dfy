/** No wake-up is lost: however many agents work at once, an issue whose last dependency is merged is
    ready, merged or claimed when the watchers are done, as long as no watcher's call fails, no claim
    comes at the wrong moment and the Unblocks fields mirror the Depends-on fields. */
module WakeUp {
  import opened Text
  import opened TaskStatus
  import opened Tracker
  import opened Dependencies
  import opened Watcher
  import opened Queue
  import opened MergedDependencies
  import opened Unblocking
  import opened StatusKept

  /** Every issue is listed by each of its dependencies. */
  ghost predicate Mutual(b: Board) {
    forall n, d :: n in b && d in DependsOn(b, n) && FindIssue(b, d).Some? ==> Listed(b, Unblocked(b, FindIssue(b, d).value), n)
  }

  /** c keeps what b has, its Unblocks fields included. */
  ghost predicate Follows(b: Board, c: Board) {
    && Grows(b, c)
    && forall n :: n in b && n in c ==> Field(UNBLOCKS, c[n].body) == Field(UNBLOCKS, b[n].body)
  }

  /** What counts as awake: ready or merged, or in progress for an issue that was claimed. */
  function AwakeTags(claimed: set<nat>, n: nat): set<string> {
    {READY, MERGED} + if n in claimed then {IN_PROGRESS} else {}
  }

  ghost predicate Awake(w: World, claimed: set<nat>, n: nat) { Anchored(w, n, AwakeTags(claimed, n)) }

  // ---------------------------------------------------------------- bodies in flight

  predicate KeepsList(b: Board, e: Edit) {
    e.SetBody? && e.number in b ==> Field(UNBLOCKS, e.body) == Field(UNBLOCKS, b[e.number].body)
  }

  ghost predicate KeepsLists(b: Board, edits: seq<Edit>) { forall e :: e in edits ==> KeepsList(b, e) }

  ghost predicate Mirrors(b: Board, p: Process) {
    match p
    case Watching(pc) =>
      && (pc.Writing? ==> KeepsLists(b, pc.edits) && (pc.next.Refreshing? || pc.next.Scanning?))
      && (pc.Checking? ==> pc.target in b && Field(UNBLOCKS, pc.body) == Field(UNBLOCKS, b[pc.target].body))
    case Dispatching(d) => d.Claims? ==> KeepsLists(b, d.edits)
    case Supervising(_) => true
  }

  lemma ReplaceKeepsLists(b: Board, n: nat, labels: seq<string>, body: string, new_: string, swaps: bool)
    requires n in b && Supported(new_) && Field(UNBLOCKS, body) == Field(UNBLOCKS, b[n].body)
    ensures KeepsLists(b, ReplaceEdits(n, labels, body, new_, swaps))
  {
    UnblocksIsOther();
    BareStatusIsPlain(new_);
    SyncKeepsOtherFields(UNBLOCKS, body, BareStatus(new_).value);
    hide Field, SyncedBody, BareStatus, StatusLabels;
  }

  lemma FollowsItself(b: Board)
    ensures Follows(b, b)
  {
    GrowsItself(b);
  }

  lemma FollowsGrows(b: Board, c: Board)
    requires Follows(b, c)
    ensures Grows(b, c) && c.Keys == b.Keys
  {
  }

  lemma EditFollows(b: Board, e: Edit)
    requires Grows(b, Apply(b, e)) && KeepsList(b, e)
    ensures Follows(b, Apply(b, e))
  {
    hide Field, Grows;
  }

  lemma MirrorsStays(b: Board, c: Board, p: Process)
    requires Follows(b, c) && Mirrors(b, p)
    ensures Mirrors(c, p)
  {
    hide Field;
    FollowsGrows(b, c);
    match p
    case Watching(pc) =>
      if pc.Writing? {
        forall e | e in pc.edits ensures KeepsList(c, e) { assert KeepsList(b, e); }
      }
    case Dispatching(d) =>
      if d.Claims? {
        forall e | e in d.edits ensures KeepsList(c, e) { assert KeepsList(b, e); }
      }
    case Supervising(_) =>
  }

  // ---------------------------------------------------------------- one step

  lemma WatcherMirrors(b: Board, pc: Pc)
    requires Safe(b) && WellFormed(b) && PcSafe(b, pc) && Mirrors(b, Watching(pc))
    ensures var s := Step(b, pc); Follows(b, s.board) && Mirrors(s.board, Watching(s.pc))
  {
    hide Follows, Safe, WellFormed, ResolveTaskIssue, Field, TaskList, Decide, CheckOne, ScanOne, Apply, EditsSafe, KeepsLists,
      ReplaceEdits, IsMerged;
    FollowsItself(b);
    match pc
    case Resolving(pr) =>
      var found := if pr.merged then ResolveTaskIssue(b, pr) else None;
      if found.Some? {
        var n := found.value.1;
        ReplaceKeepsLists(b, n, b[n].labels, b[n].body, MERGED, false);
      }
    case Writing(edits, next) =>
      if edits != [] { WriteFollows(b, edits); }
    case Refreshing(_) =>
    case Scanning(ids) => if ids != [] { ScanMirrors(b, ids); }
    case Checking(_, _, _, _, deps, _, _, _) =>
      if deps == [] { DecideMirrors(b, pc); } else { CheckMirrors(b, pc); }
    case Stopped =>
  }

  lemma WriteFollows(b: Board, edits: seq<Edit>)
    requires Safe(b) && edits != [] && EditsSafe(b, edits) && KeepsLists(b, edits)
    ensures Follows(b, Apply(b, edits[0])) && KeepsLists(Apply(b, edits[0]), edits[1..])
  {
    hide Safe, EditSafe, Field, KeepsList, Apply;
    assert edits[0] in edits;
    SafeEdit(b, edits[0]);
    EditFollows(b, edits[0]);
    var c := Apply(b, edits[0]);
    forall e | e in edits[1..] ensures KeepsList(c, e) {
      assert e in edits;
      ListStillKept(b, c, e);
    }
  }

  lemma ListStillKept(b: Board, c: Board, e: Edit)
    requires Follows(b, c) && KeepsList(b, e)
    ensures KeepsList(c, e)
  {
    hide Field;
    FollowsGrows(b, c);
  }

  lemma ScanMirrors(b: Board, ids: seq<string>)
    requires ids != [] && WellFormed(b)
    ensures Mirrors(b, Watching(ScanOne(b, ids).0))
  {
    hide Field, TaskList;
  }

  lemma CheckMirrors(b: Board, pc: Pc)
    requires pc.Checking? && pc.deps != [] && Mirrors(b, Watching(pc))
    ensures Mirrors(b, Watching(CheckOne(b, pc)))
  {
    hide Field, FindIssue;
  }

  lemma DecideMirrors(b: Board, pc: Pc)
    requires pc.Checking? && pc.deps == [] && Mirrors(b, Watching(pc)) && PcSafe(b, pc)
    ensures Mirrors(b, Watching(Decide(pc).0))
  {
    hide Field, TaskList, IsMerged, ReplaceEdits, KeepsLists, SyncedBody;
    ReplaceKeepsLists(b, pc.target, pc.labels, pc.body, READY, false);
  }

  lemma ClaimFollows(b: Board, n: nat)
    ensures Follows(b, Apply(b, ClaimEdit(n)))
  {
    StatusesApart();
    hide Field;
  }

  /** Agents that are not watchers merge nothing and keep all lists. */
  lemma OthersMirror(b: Board, lockFile: bool, p: Process, a: Answer)
    requires !p.Watching? && Safe(b) && ProcessSafe(b, p) && Mirrors(b, p)
    ensures var (c, _, q) := ProcessStep(b, lockFile, p, a); Follows(b, c) && !q.Watching? && Mirrors(c, q)
  {
    hide Follows, Safe, Apply, ReplaceEdits, EditsSafe, KeepsLists, NothingInProgress, OpenReady;
    FollowsItself(b);
    match p
    case Supervising(s) =>
      if (s.Running? || s.Orphaned?) && s.runner.Claiming? { ClaimFollows(b, s.runner.number); }
    case Dispatching(d) => DispatcherMirrors(b, d, a);
  }

  lemma DispatcherMirrors(b: Board, d: Dispatcher, a: Answer)
    requires Safe(b) && ProcessSafe(b, Dispatching(d)) && Mirrors(b, Dispatching(d))
    ensures var (c, q) := DispatcherStep(b, d, a); Follows(b, c) && Mirrors(c, Dispatching(q))
  {
    hide Follows, Safe, Apply, ReplaceEdits, EditsSafe, KeepsLists, OpenReady, Field;
    FollowsItself(b);
    match d
    case Choosing =>
      if a.Pick? && OpenReady(b, a.number) {
        InBoard(b, a.number);
        ReplaceKeepsLists(b, a.number, b[a.number].labels, b[a.number].body, IN_PROGRESS, true);
      }
    case Claims(edits) => if edits != [] { WriteFollows(b, edits); }
    case Finished =>
  }

  // ---------------------------------------------------------------- who will still look at an issue

  /** The run standing here has the issue before it, or its check going well, or its ready label pending. */
  predicate Covers(b: Board, pc: Pc, n: nat) {
    match pc
    case Writing(edits, next) => (edits != [] && edits[0] == AddLabel(n, READY)) || Covers(b, next, n)
    case Refreshing(source) => source in b && Listed(b, Unblocked(b, source), n)
    case Scanning(ids) => Listed(b, ids, n)
    case Checking(_, target, _, _, _, _, missing, rest) => (target == n && missing == []) || Listed(b, rest, n)
    case _ => false
  }

  lemma ListedStays(b: Board, c: Board, ids: seq<string>, n: nat)
    requires Grows(b, c)
    ensures Listed(c, ids, n) <==> Listed(b, ids, n)
  {
    hide Grows, FindIssue;
    forall id: string ensures FindIssue(c, id) == FindIssue(b, id) { SameFind(b, c, id); }
  }

  lemma {:induction false} CoversStays(b: Board, c: Board, pc: Pc, n: nat)
    requires Follows(b, c) && Covers(b, pc, n)
    ensures Covers(c, pc, n)
  {
    hide Field, TaskList, Listed;
    assert c.Keys == b.Keys;
    match pc
    case Writing(edits, next) => if Covers(b, next, n) { CoversStays(b, c, next, n); }
    case Refreshing(source) =>
      assert Unblocked(c, source) == Unblocked(b, source);
      ListedStays(b, c, Unblocked(b, source), n);
    case Scanning(ids) => ListedStays(b, c, ids, n);
    case Checking(_, _, _, _, _, _, _, rest) => ListedStays(b, c, rest, n);
  }

  lemma ListedFirst(b: Board, ids: seq<string>, n: nat)
    requires ids != []
    ensures Listed(b, ids, n) <==> FindIssue(b, ids[0]) == Some(n) || Listed(b, ids[1..], n)
  {
    hide FindIssue;
    if Listed(b, ids[1..], n) {
      var i :| 0 <= i < |ids[1..]| && FindIssue(b, ids[1..][i]) == Some(n);
      assert ids[i + 1] == ids[1..][i];
    }
    if Listed(b, ids, n) {
      var i :| 0 <= i < |ids| && FindIssue(b, ids[i]) == Some(n);
      if i > 0 { assert ids[1..][i - 1] == ids[i]; }
    }
  }

  /** The run looked at n when it was ready or merged. */
  predicate SawAwake(pc: Pc, n: nat) { pc.Checking? && pc.target == n && (READY in pc.labels || MERGED in pc.labels) }

  /** A run that covers an issue with everything merged covers it still after its next step, unless it made
      it ready or had seen it awake. */
  lemma StepCovers(b: Board, pc: Pc, n: nat)
    requires WellFormed(b) && PcSafe(b, pc) && n in b && Covers(b, pc, n) && Follows(b, Step(b, pc).board)
    requires pc.Checking? ==> DepsMerged(b, n)
    ensures var s := Step(b, pc); ReadyOrMerged(s.board, n) || Covers(s.board, s.pc, n) || SawAwake(pc, n)
  {
    hide Follows, WellFormed, Field, TaskList, Decide, CheckOne, ScanOne, EditsSafe, Listed, Apply, PcSafe, DepsMerged;
    match pc
    case Writing(edits, next) =>
      if edits != [] {
        if edits[0] == AddLabel(n, READY) { AddedIsOn(b, n); } else { CoversStays(b, Apply(b, edits[0]), next, n); }
      }
    case Refreshing(_) =>
    case Scanning(ids) =>
      if ids == [] { NothingListed(b, n); } else { ScanCovers(b, ids, n); }
    case Checking(_, _, _, _, deps, _, _, _) =>
      if deps == [] { DecideCovers(b, pc, n); } else { CheckCovers(b, pc, n); }
    case _ =>
  }

  lemma NothingListed(b: Board, n: nat)
    ensures !Listed(b, [], n)
  {
  }

  lemma AddedIsOn(b: Board, n: nat)
    requires n in b
    ensures ReadyOrMerged(Apply(b, AddLabel(n, READY)), n)
  {
  }

  lemma ScanCovers(b: Board, ids: seq<string>, n: nat)
    requires ids != [] && WellFormed(b) && Listed(b, ids, n)
    ensures Covers(b, ScanOne(b, ids).0, n)
  {
    hide Field, TaskList, Listed;
    ListedFirst(b, ids, n);
  }

  lemma CheckCovers(b: Board, pc: Pc, n: nat)
    requires pc.Checking? && pc.deps != [] && PcSafe(b, pc) && WellFormed(b) && Covers(b, pc, n) && DepsMerged(b, n)
    ensures Covers(b, CheckOne(b, pc), n)
  {
    hide Field, TaskList, Listed, FindIssue;
    assert pc.deps[0] in pc.deps;
    if pc.target == n && pc.missing == [] { assert IsMerged(b, pc.deps[0]); }
  }

  lemma DecideCovers(b: Board, pc: Pc, n: nat)
    requires pc.Checking? && pc.deps == [] && PcSafe(b, pc) && Covers(b, pc, n)
    ensures SawAwake(pc, n) || Covers(b, Decide(pc).0, n)
  {
    hide Field, TaskList, Listed, IsMerged, SyncedBody;
    if pc.target == n && pc.missing == [] && READY !in pc.labels { FirstIsAdd(n, pc.labels, pc.body); }
    hide ReplaceEdits;
  }

  lemma FirstIsAdd(n: nat, labels: seq<string>, body: string)
    requires READY !in labels
    ensures var edits := ReplaceEdits(n, labels, body, READY, false); edits != [] && edits[0] == AddLabel(n, READY)
  {
    hide SyncedBody, StatusLabels;
  }

  // ---------------------------------------------------------------- a new merge is always followed up

  /** The step that completes an issue's dependencies belongs to a run that will look at the issue. */
  lemma MergeCovers(b: Board, pc: Pc, n: nat)
    requires PcTidy(b, pc) && Mutual(b) && n in b && !DepsMerged(b, n) && PcMarks(pc)
    requires Follows(b, Step(b, pc).board) && DepsMerged(Step(b, pc).board, n)
    ensures Covers(Step(b, pc).board, Step(b, pc).pc, n)
  {
    var c := Step(b, pc).board;
    hide Field, TaskList, Listed, Decide, CheckOne, ScanOne, ResolveTaskIssue, FindIssue, Mutual;
    if pc.Writing? && pc.edits != [] {
      var d :| d in DependsOn(b, n) && !IsMerged(b, d);
      assert DependsOn(c, n) == DependsOn(b, n);
      SameFind(b, c, d);
      assert IsMerged(c, d);
      var source := FindIssue(b, d).value;
      NewlyMerged(b, pc.edits[0], source);
      assert pc.edits[0] in pc.edits;
      MutualMeans(b, n, d);
      CoversStays(b, c, Refreshing(source), n);
    }
  }

  /** Whoever is about to add merged to an issue goes on to that issue's list. */
  predicate PcMarks(pc: Pc) {
    pc.Writing? ==> forall e :: e in pc.edits && e.AddLabel? && e.tag == MERGED ==> pc.next == Refreshing(e.number)
  }

  lemma StepMarks(b: Board, pc: Pc)
    requires PcMarks(pc)
    requires pc.Writing? ==> pc.next.Refreshing? || pc.next.Scanning?
    ensures PcMarks(Step(b, pc).pc)
  {
    StatusesApart();
    hide ResolveTaskIssue, FindIssue, Field, TaskList, Apply, ReplaceEdits;
    match pc
    case Resolving(pr) =>
      var found := if pr.merged then ResolveTaskIssue(b, pr) else None;
      if found.Some? { AddsOnly(found.value.1, b[found.value.1].labels, b[found.value.1].body, MERGED); }
    case Writing(edits, _) => if edits != [] { assert forall e :: e in edits[1..] ==> e in edits; }
    case Refreshing(_) =>
    case Scanning(ids) => if ids != [] { ScanMarks(b, ids); }
    case Checking(_, target, labels, body, _, _, _, _) =>
      AddsOnly(target, labels, body, READY);
      AddsOnly(target, labels, body, NEEDS_ATTENTION);
      StatusesApart();
    case Stopped =>
  }

  lemma ScanMarks(b: Board, ids: seq<string>)
    requires ids != []
    ensures PcMarks(ScanOne(b, ids).0)
  {
    hide FindIssue, Field, TaskList, ReplaceEdits;
    StatusesApart();
    var found := FindIssue(b, ids[0]);
    if found.Some? { AddsOnly(found.value, b[found.value].labels, b[found.value].body, NEEDS_ATTENTION); }
  }

  lemma MutualMeans(b: Board, n: nat, d: string)
    requires Mutual(b) && n in b && d in DependsOn(b, n) && FindIssue(b, d).Some?
    ensures Covers(b, Refreshing(FindIssue(b, d).value), n)
  {
    hide Field, TaskList, FindIssue;
  }

  lemma NewlyMerged(b: Board, e: Edit, n: nat)
    requires n in b && MERGED !in b[n].labels && n in Apply(b, e) && MERGED in Apply(b, e)[n].labels
    ensures e.number == n && (e == AddLabel(n, MERGED) || e.SwapLabels?)
  {
  }

  /** A step that is not a watcher's merges nothing. */
  lemma OthersMergeNothing(b: Board, lockFile: bool, p: Process, a: Answer, n: nat)
    requires !p.Watching? && ProcessTidy(b, p)
    requires var (c, _, _) := ProcessStep(b, lockFile, p, a); Follows(b, c) && n in b && DepsMerged(c, n)
    ensures DepsMerged(b, n)
  {
    var (c, _, _) := ProcessStep(b, lockFile, p, a);
    hide Field, TaskList, FindIssue;
    assert DependsOn(c, n) == DependsOn(b, n);
    forall d | d in DependsOn(b, n) ensures IsMerged(b, d) {
      assert IsMerged(c, d);
      SameFind(b, c, d);
      NotMergedByClaim(b, lockFile, p, a, FindIssue(b, d).value);
    }
  }

  lemma NotMergedByClaim(b: Board, lockFile: bool, p: Process, a: Answer, n: nat)
    requires !p.Watching? && ProcessTidy(b, p)
    requires var (c, _, _) := ProcessStep(b, lockFile, p, a); Carries(c, n, MERGED)
    ensures Carries(b, n, MERGED)
  {
    hide ReplaceEdits, OpenReady, NothingInProgress, Apply, Carries;
    match p
    case Supervising(s) =>
      if (s.Running? || s.Orphaned?) && s.runner.Claiming? { ClaimMergesNothing(b, ClaimEdit(s.runner.number), n); }
    case Dispatching(d) =>
      if d.Claims? && d.edits != [] {
        assert d.edits[0] in d.edits;
        ClaimMergesNothing(b, d.edits[0], n);
      }
  }

  lemma ClaimMergesNothing(b: Board, e: Edit, n: nat)
    requires ClaimOnly(e)
    ensures Carries(Apply(b, e), n, MERGED) ==> Carries(b, n, MERGED)
  {
    StatusesApart();
  }

  // ---------------------------------------------------------------- runs

  ghost predicate Covered(w: World, n: nat) {
    exists p :: p in w.processes && w.processes[p].Watching? && Covers(w.board, w.processes[p].pc, n)
  }

  /** Whoever has become free since the start is awake or about to be looked at. */
  ghost predicate NobodyForgotten(start: Board, w: World, claimed: set<nat>) {
    forall n :: n in w.board && DepsMerged(w.board, n) && !DepsMerged(start, n) ==> Awake(w, claimed, n) || Covered(w, n)
  }

  ghost predicate InOrder(w: World) {
    forall p :: p in w.processes ==>
      Mirrors(w.board, w.processes[p]) && (w.processes[p].Watching? ==> PcMarks(w.processes[p].pc))
  }

  ghost predicate SeenAwake(w: World, claimed: set<nat>) {
    forall p, n :: p in w.processes && w.processes[p].Watching? && SawAwake(w.processes[p].pc, n) ==> Awake(w, claimed, n)
  }

  ghost predicate WakeInv(start: Board, w: World, claimed: set<nat>) {
    && TidyWorld(w) && Mutual(w.board) && InOrder(w) && Grows(start, w.board)
    && SeenAwake(w, claimed) && NobodyForgotten(start, w, claimed)
  }

  /** No call of a watcher fails; other agents may fail as they like. */
  predicate Smooth(w: World, e: Event) { e.Act? && e.pid in w.processes && w.processes[e.pid].Watching? ==> e.answer.Ok? }

  function ClaimedBy(w: World, e: Event): set<nat> {
    if e.Act? && e.pid in w.processes && ClaimOf(w.processes[e.pid], e.answer).Some?
    then {ClaimOf(w.processes[e.pid], e.answer).value} else {}
  }

  lemma ClaimedByMeans(w: World, e: Event, n: nat)
    ensures n in ClaimedBy(w, e) <==> ClaimsNow(w, e, n)
  {
  }

  lemma AwakeStays(w: World, e: Event, claimed: set<nat>, n: nat)
    requires TidyWorld(w) && Awake(w, claimed, n) && Spared(w, e, n)
    ensures Awake(Next(w, e), claimed + ClaimedBy(w, e), n)
  {
    hide TidyWorld, Free, ClaimsNow, ClaimedBy, Next;
    ClaimedByMeans(w, e, n);
    var tags := AwakeTags(claimed + ClaimedBy(w, e), n);
    assert AwakeTags(claimed, n) <= tags;
    assert Anchored(w, n, tags);
    NextAnchors(w, e, n, tags);
  }

  lemma NowAwake(w: World, claimed: set<nat>, n: nat)
    requires TidyWorld(w) && ReadyOrMerged(w.board, n)
    ensures Awake(w, claimed, n)
  {
    hide TidyWorld, Anchored;
    PlainAnchor(w, n, AwakeTags(claimed, n));
  }

  lemma MutualStays(b: Board, c: Board)
    requires Follows(b, c) && Mutual(b)
    ensures Mutual(c)
  {
    hide Field, TaskList, FindIssue, Listed;
    assert c.Keys == b.Keys;
    forall n, d | n in c && d in DependsOn(c, n) && FindIssue(c, d).Some?
      ensures Listed(c, Unblocked(c, FindIssue(c, d).value), n)
    {
      assert DependsOn(c, n) == DependsOn(b, n);
      SameFind(b, c, d);
      var source := FindIssue(b, d).value;
      assert Unblocked(c, source) == Unblocked(b, source);
      ListedStays(b, c, Unblocked(b, source), n);
    }
  }

  lemma CloseFollows(b: Board, n: nat)
    requires n in b
    ensures Follows(b, b[n := b[n].(open := false)])
  {
    hide Field;
  }

  /** Whatever happens, the board follows and everybody stays in order. */
  lemma NextFollows(w: World, e: Event)
    requires TidyWorld(w) && InOrder(w) && Smooth(w, e)
    ensures Follows(w.board, Next(w, e).board) && InOrder(Next(w, e))
  {
    hide Follows, Safe, WellFormed, ProcessSafe, ProcessTidy, Mirrors, PcMarks, ProcessStep, Initial;
    var v := Next(w, e);
    FollowsItself(w.board);
    if e.Close? && e.number in w.board { CloseFollows(w.board, e.number); }
    if e.Act? && e.pid in w.processes { ActFollows(w, e.pid, e.answer); }
    forall q | q in v.processes ensures Mirrors(v.board, v.processes[q]) && (v.processes[q].Watching? ==> PcMarks(v.processes[q].pc)) {
      if q in w.processes && v.processes[q] == w.processes[q] { MirrorsStays(w.board, v.board, w.processes[q]); }
      else if e.Spawn? { FreshMirrors(v.board, e.process); }
    }
  }

  lemma FreshMirrors(b: Board, p: Process)
    requires Initial(p)
    ensures Mirrors(b, p) && (p.Watching? ==> PcMarks(p.pc))
  {
  }

  lemma ActFollows(w: World, pid: nat, a: Answer)
    requires TidyWorld(w) && InOrder(w) && pid in w.processes && (w.processes[pid].Watching? ==> a.Ok?)
    ensures var v := Next(w, Act(pid, a));
            && Follows(w.board, v.board) && Mirrors(v.board, v.processes[pid])
            && (v.processes[pid].Watching? ==> PcMarks(v.processes[pid].pc))
  {
    hide Follows, Safe, WellFormed, PcSafe, Step, SupervisorStep, DispatcherStep, KeepsLists;
    var p := w.processes[pid];
    assert ProcessSafe(w.board, p) && ProcessTidy(w.board, p) && Mirrors(w.board, p);
    if p.Watching? {
      WatcherMirrors(w.board, p.pc);
      StepMarks(w.board, p.pc);
    } else {
      OthersMirror(w.board, w.lockFile, p, a);
    }
  }

  /** What a run sees awake now is awake, or it was seen so before. */
  lemma StepSees(b: Board, pc: Pc, n: nat)
    requires SawAwake(Step(b, pc).pc, n)
    requires pc.Writing? ==> pc.next.Refreshing? || pc.next.Scanning?
    ensures SawAwake(pc, n) || ReadyOrMerged(Step(b, pc).board, n)
  {
    hide ResolveTaskIssue, FindIssue, Field, TaskList, Apply, ReplaceEdits, SyncedBody;
  }

  lemma NextSeen(w: World, e: Event, claimed: set<nat>)
    requires TidyWorld(w) && InOrder(w) && SeenAwake(w, claimed) && Smooth(w, e) && TidyWorld(Next(w, e))
    requires forall n: nat :: Spared(w, e, n)
    ensures SeenAwake(Next(w, e), claimed + ClaimedBy(w, e))
  {
    hide TidyWorld, Awake, Spared, ClaimedBy, Mirrors, PcMarks, ProcessStep, SawAwake, Initial;
    var v := Next(w, e);
    forall p, n | p in v.processes && v.processes[p].Watching? && SawAwake(v.processes[p].pc, n)
      ensures Awake(v, claimed + ClaimedBy(w, e), n)
    {
      if p in w.processes && v.processes[p] == w.processes[p] {
        AwakeStays(w, e, claimed, n);
      } else {
        NewSees(w, e, p, n);
        if ReadyOrMerged(v.board, n) { NowAwake(v, claimed + ClaimedBy(w, e), n); } else { AwakeStays(w, e, claimed, n); }
      }
    }
  }

  lemma NewSees(w: World, e: Event, p: nat, n: nat)
    requires TidyWorld(w) && InOrder(w) && Smooth(w, e)
    requires var v := Next(w, e); p in v.processes && v.processes[p].Watching? && SawAwake(v.processes[p].pc, n)
                                  && (p !in w.processes || v.processes[p] != w.processes[p])
    ensures ReadyOrMerged(Next(w, e).board, n) || (p in w.processes && w.processes[p].Watching? && SawAwake(w.processes[p].pc, n))
  {
    hide Step, SupervisorStep, DispatcherStep, TidyWorld, PcMarks, KeepsLists, ReadyOrMerged;
    if e.Act? {
      assert Mirrors(w.board, w.processes[p]);
      StepSees(w.board, w.processes[p].pc, n);
    }
  }

  lemma CoveredStays(w: World, v: World, p: nat, n: nat)
    requires Follows(w.board, v.board) && p in w.processes && p in v.processes && v.processes[p] == w.processes[p]
    requires w.processes[p].Watching? && Covers(w.board, w.processes[p].pc, n)
    ensures Covered(v, n)
  {
    CoversStays(w.board, v.board, w.processes[p].pc, n);
    hide Covers;
    assert Covers(v.board, v.processes[p].pc, n);
  }

  /** An issue free before the step. */
  lemma StillRemembered(w: World, e: Event, claimed: set<nat>, n: nat)
    requires TidyWorld(w) && InOrder(w) && SeenAwake(w, claimed) && Smooth(w, e) && TidyWorld(Next(w, e)) && Spared(w, e, n)
    requires Follows(w.board, Next(w, e).board) && n in w.board && DepsMerged(w.board, n)
    requires Awake(w, claimed, n) || Covered(w, n)
    ensures Awake(Next(w, e), claimed + ClaimedBy(w, e), n) || Covered(Next(w, e), n)
  {
    hide Follows, Awake, Spared, ClaimedBy, SawAwake, Covers, DepsMerged, InOrder, AllSafe, ProcessStep, Initial;
    var v := Next(w, e);
    if Awake(w, claimed, n) {
      AwakeStays(w, e, claimed, n);
    } else {
      var p :| p in w.processes && w.processes[p].Watching? && Covers(w.board, w.processes[p].pc, n);
      if v.processes[p] == w.processes[p] {
        CoveredStays(w, v, p, n);
      } else {
        hide SeenAwake;
        MoverRemembers(w, e, n);
        if ReadyOrMerged(v.board, n) {
          NowAwake(v, claimed + ClaimedBy(w, e), n);
        } else {
          NotSeen(w, claimed, p, n);
          assert Covers(v.board, v.processes[p].pc, n);
        }
      }
    }
  }

  lemma NotSeen(w: World, claimed: set<nat>, p: nat, n: nat)
    requires SeenAwake(w, claimed) && p in w.processes && w.processes[p].Watching? && !Awake(w, claimed, n)
    ensures !SawAwake(w.processes[p].pc, n)
  {
    hide Awake, SawAwake;
  }

  lemma MoverRemembers(w: World, e: Event, n: nat)
    requires TidyWorld(w) && Smooth(w, e) && e.Act? && e.pid in w.processes && w.processes[e.pid].Watching?
    requires Follows(w.board, Next(w, e).board) && n in w.board && DepsMerged(w.board, n) && Covers(w.board, w.processes[e.pid].pc, n)
    ensures var v := Next(w, e);
            v.processes[e.pid].Watching? &&
            (ReadyOrMerged(v.board, n) || Covers(v.board, v.processes[e.pid].pc, n) || SawAwake(w.processes[e.pid].pc, n))
  {
    hide Step, Follows, Covers, DepsMerged, SawAwake, Safe, WellFormed, PcSafe;
    assert ProcessSafe(w.board, w.processes[e.pid]);
    StepCovers(w.board, w.processes[e.pid].pc, n);
  }

  /** An issue the step itself made free. */
  lemma NewlyRemembered(w: World, e: Event, n: nat)
    requires TidyWorld(w) && InOrder(w) && Smooth(w, e) && Mutual(w.board)
    requires Follows(w.board, Next(w, e).board) && n in w.board && !DepsMerged(w.board, n) && DepsMerged(Next(w, e).board, n)
    ensures Covered(Next(w, e), n)
  {
    hide Step, SupervisorStep, DispatcherStep, Follows, Covers, DepsMerged, AllSafe, Mutual, PcTidy, PcMarks, Mirrors;
    match e
    case Spawn(_, _) =>
    case Close(k) => if k in w.board { ClosedSameDeps(w.board, k, n); }
    case Act(pid, a) =>
      if pid in w.processes {
        var p := w.processes[pid];
        assert ProcessTidy(w.board, p);
        if p.Watching? {
          MergeCovers(w.board, p.pc, n);
          assert Covers(Next(w, e).board, Next(w, e).processes[pid].pc, n);
        } else {
          OthersMergeNothing(w.board, w.lockFile, p, a, n);
        }
      }
  }

  lemma ClosedSameDeps(b: Board, k: nat, n: nat)
    requires k in b && DepsMerged(b[k := b[k].(open := false)], n)
    ensures DepsMerged(b, n)
  {
    hide Field, TaskList;
    var c := b[k := b[k].(open := false)];
    if n in b {
      assert DependsOn(c, n) == DependsOn(b, n);
      forall d | d in DependsOn(b, n) ensures IsMerged(b, d) {
        assert Titled(c, d) == Titled(b, d);
        assert IsMerged(c, d);
      }
    }
  }

  lemma NextWakes(start: Board, w: World, e: Event, claimed: set<nat>)
    requires WakeInv(start, w, claimed) && Smooth(w, e) && forall n: nat :: Spared(w, e, n)
    ensures WakeInv(start, Next(w, e), claimed + ClaimedBy(w, e))
  {
    hide TidyWorld, InOrder, SeenAwake, Follows, Grows, Mutual, Awake, Covered, Smooth, Spared, ClaimedBy, Next, DepsMerged;
    NextTidy(w, e);
    NextFollows(w, e);
    NextSeen(w, e, claimed);
    var v := Next(w, e);
    MutualStays(w.board, v.board);
    FollowsGrows(w.board, v.board);
    GrowsTransitive(start, w.board, v.board);
    forall n | n in v.board && DepsMerged(v.board, n) && !DepsMerged(start, n)
      ensures Awake(v, claimed + ClaimedBy(w, e), n) || Covered(v, n)
    {
      if DepsMerged(w.board, n) { StillRemembered(w, e, claimed, n); } else { NewlyRemembered(w, e, n); }
    }
  }

  /** In the whole run no watcher's call fails and nothing is claimed while a watcher is about to take
      in-progress off it. */
  ghost predicate Undisturbed(w: World, es: seq<Event>)
    decreases |es|
  {
    es == [] || (Smooth(w, es[0]) && (forall n: nat :: Spared(w, es[0], n)) && Undisturbed(Next(w, es[0]), es[1..]))
  }

  /** The issues claimed in a run. */
  function ClaimedIn(w: World, es: seq<Event>): set<nat>
    decreases |es|
  {
    if es == [] then {} else ClaimedBy(w, es[0]) + ClaimedIn(Next(w, es[0]), es[1..])
  }

  lemma {:induction false} RunWakes(start: Board, w: World, es: seq<Event>, claimed: set<nat>)
    requires WakeInv(start, w, claimed) && Undisturbed(w, es)
    ensures WakeInv(start, Run(w, es), claimed + ClaimedIn(w, es))
    decreases |es|
  {
    hide WakeInv, Smooth, Spared, ClaimedBy, Next;
    if es == [] {
      assert claimed + {} == claimed;
    } else {
      NextWakes(start, w, es[0], claimed);
      RunWakes(start, Next(w, es[0]), es[1..], claimed + ClaimedBy(w, es[0]));
      assert claimed + ClaimedBy(w, es[0]) + ClaimedIn(Next(w, es[0]), es[1..]) == claimed + ClaimedIn(w, es);
    }
  }

  lemma StartWakes(b: Board)
    requires WellFormed(b) && Safe(b) && Mutual(b)
    ensures WakeInv(b, Start(b), {})
  {
    GrowsItself(b);
    hide DepsMerged, WellFormed, Safe, Mutual, Grows;
  }

  /** After any undisturbed interleaving of watchers, supervisors, runners and dispatchers whose watchers
      have all come to their end, every issue whose dependencies became merged on the way is ready or
      merged, or was claimed on the way and is in progress: whoever merged the last of them has seen it. */
  lemma NoLostWakeUp(b: Board, es: seq<Event>, n: nat)
    requires WellFormed(b) && Safe(b) && Mutual(b) && Undisturbed(Start(b), es)
    requires var w := Run(Start(b), es); forall p :: p in w.processes && w.processes[p].Watching? ==> w.processes[p].pc.Stopped?
    ensures var c := Run(Start(b), es).board;
            n in c && DepsMerged(c, n) && !DepsMerged(b, n) ==>
              || READY in c[n].labels || MERGED in c[n].labels
              || (IN_PROGRESS in c[n].labels && n in ClaimedIn(Start(b), es))
  {
    hide WellFormed, Safe, Mutual, DepsMerged, Run, TidyWorld, InOrder, SeenAwake, Grows, Undisturbed, ClaimedIn;
    StartWakes(b);
    RunWakes(b, Start(b), es, {});
    var w, claimed := Run(Start(b), es), {} + ClaimedIn(Start(b), es);
    if n in w.board && DepsMerged(w.board, n) && !DepsMerged(b, n) {
      assert !Covered(w, n);
      hide Covered;
      AwakeMeans(w, claimed, n);
    }
  }

  lemma AwakeMeans(w: World, claimed: set<nat>, n: nat)
    requires Awake(w, claimed, n) && n in w.board
    ensures ReadyOrMerged(w.board, n) || (n in claimed && IN_PROGRESS in w.board[n].labels)
  {
    hide Free;
  }
}
