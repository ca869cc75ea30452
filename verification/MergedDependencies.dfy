/** The dependency half of the queue's safety: no run of any mix of agents makes an issue ready or in
    progress before everything it depends on is merged, and no run takes merged away. */
module MergedDependencies {
  import opened Text
  import opened TaskStatus
  import opened Tracker
  import opened Dependencies
  import opened Watcher
  import opened Queue

  // ---------------------------------------------------------------- what is claimed

  predicate IsMerged(b: Board, id: string) {
    var found := FindIssue(b, id);
    found.Some? && MERGED in b[found.value].labels
  }

  function DependsOn(b: Board, n: nat): seq<string>
    requires n in b
  {
    TaskList(Field(DEPENDS_ON, b[n].body))
  }

  ghost predicate DepsMerged(b: Board, n: nat) {
    n in b ==> forall d :: d in DependsOn(b, n) ==> IsMerged(b, d)
  }

  predicate MayWork(tag: string) { tag == READY || tag == IN_PROGRESS }

  ghost predicate Safe(b: Board) {
    forall n, tag :: Carries(b, n, tag) && MayWork(tag) ==> DepsMerged(b, n)
  }

  /** Every Depends-on field is there and every id in it is the title id of exactly one issue. */
  ghost predicate WellFormed(b: Board) {
    forall n :: n in b ==>
      Field(DEPENDS_ON, b[n].body).Some? && forall d :: d in DependsOn(b, n) ==> FindIssue(b, d).Some?
  }

  /** What every step keeps: the issues, their titles, their declared dependencies, and merged. */
  ghost predicate Grows(b: Board, c: Board) {
    && c.Keys == b.Keys
    && forall n :: n in b ==>
         && c[n].title == b[n].title
         && Field(DEPENDS_ON, c[n].body) == Field(DEPENDS_ON, b[n].body)
         && (MERGED in b[n].labels ==> MERGED in c[n].labels)
  }

  lemma GrowsTransitive(a: Board, b: Board, c: Board)
    requires Grows(a, b) && Grows(b, c)
    ensures Grows(a, c)
  {
    hide Field;
  }

  lemma SameFind(b: Board, c: Board, id: string)
    requires Grows(b, c)
    ensures FindIssue(c, id) == FindIssue(b, id)
    ensures IsMerged(b, id) ==> IsMerged(c, id)
  {
    hide Field;
    assert Titled(c, id) == Titled(b, id);
  }

  lemma DepsStayMerged(b: Board, c: Board, n: nat)
    requires Grows(b, c) && DepsMerged(b, n)
    ensures DepsMerged(c, n)
  {
    hide Field, TaskList, FindIssue, IsMerged;
    if n in c {
      assert DependsOn(c, n) == DependsOn(b, n);
      forall d | d in DependsOn(c, n) ensures IsMerged(c, d) { SameFind(b, c, d); }
    }
  }

  lemma WellFormedStays(b: Board, c: Board)
    requires Grows(b, c) && WellFormed(b)
    ensures WellFormed(c)
  {
    hide Field, TaskList, FindIssue;
    forall n | n in c
      ensures Field(DEPENDS_ON, c[n].body).Some? && forall d :: d in DependsOn(c, n) ==> FindIssue(c, d).Some?
    {
      assert DependsOn(c, n) == DependsOn(b, n);
      forall d | d in DependsOn(c, n) ensures FindIssue(c, d).Some? { SameFind(b, c, d); }
    }
  }

  // ---------------------------------------------------------------- edits in flight

  /** An edit that may be made at any later moment: it removes no merged, writes no other
      dependencies, and puts an issue to work only if its dependencies are merged already. */
  ghost predicate EditSafe(b: Board, e: Edit) {
    e.number in b ==>
      match e
      case AddLabel(n, tag) => MayWork(tag) ==> DepsMerged(b, n)
      case RemoveLabel(_, tag) => tag != MERGED
      case SwapLabels(n, removed, tag) => MERGED !in removed && (MayWork(tag) ==> DepsMerged(b, n))
      case SetBody(n, body) => Field(DEPENDS_ON, body) == Field(DEPENDS_ON, b[n].body)
  }

  ghost predicate EditsSafe(b: Board, edits: seq<Edit>) { forall e :: e in edits ==> EditSafe(b, e) }

  lemma EditStaysSafe(b: Board, c: Board, e: Edit)
    requires Grows(b, c) && EditSafe(b, e)
    ensures EditSafe(c, e)
  {
    hide Field, DepsMerged;
    if e.number in b && DepsMerged(b, e.number) { DepsStayMerged(b, c, e.number); }
  }

  lemma SafeEdit(b: Board, e: Edit)
    requires Safe(b) && EditSafe(b, e)
    ensures Grows(b, Apply(b, e)) && Safe(Apply(b, e))
  {
    var c := Apply(b, e);
    hide DepsMerged;
    assert Grows(b, c) by { hide Field; }
    hide Field, EditIssue;
    forall n, tag | Carries(c, n, tag) && MayWork(tag) ensures DepsMerged(c, n) {
      EditedLabels(b, e, n, tag);
      DepsStayMerged(b, c, n);
    }
  }

  lemma EditedLabels(b: Board, e: Edit, n: nat, tag: string)
    requires Carries(Apply(b, e), n, tag)
    ensures Carries(b, n, tag) || (n == e.number && e.number in b && ((e.AddLabel? || e.SwapLabels?) && e.tag == tag))
  {
  }

  /** Everything replace_task_status sends is safe, when merged is not among the labels it was given
      (or is what it sets) and the new status is due. */
  lemma ReplaceEditsSafe(b: Board, n: nat, labels: seq<string>, body: string, new_: string, swaps: bool)
    requires n in b && Supported(new_)
    requires Field(DEPENDS_ON, body) == Field(DEPENDS_ON, b[n].body)
    requires new_ == MERGED || MERGED !in labels
    requires MayWork(new_) ==> DepsMerged(b, n)
    ensures EditsSafe(b, ReplaceEdits(n, labels, body, new_, swaps))
  {
    DependsOnIsOther();
    BareStatusIsPlain(new_);
    SyncKeepsOtherFields(DEPENDS_ON, body, BareStatus(new_).value);
    StatusesApart();
    hide Field, SyncedBody, DepsMerged, BareStatus, EditSafe;
    var edits := ReplaceEdits(n, labels, body, new_, swaps);
    var synced := SyncedBody(body, BareStatus(new_).value);
    assert edits == LabelEdits(n, labels, new_, swaps) + (if synced == body then [] else [SetBody(n, synced)]);
    hide ReplaceEdits;
    forall e | e in edits ensures EditSafe(b, e) {
      if e in LabelEdits(n, labels, new_, swaps) { LabelEditSafe(b, n, labels, new_, swaps, e); } else { BodyEditSafe(b, n, synced); }
    }
  }

  lemma BodyEditSafe(b: Board, n: nat, body: string)
    requires n in b && Field(DEPENDS_ON, body) == Field(DEPENDS_ON, b[n].body)
    ensures EditSafe(b, SetBody(n, body))
  {
    hide Field;
  }

  lemma LabelEditSafe(b: Board, n: nat, labels: seq<string>, new_: string, swaps: bool, e: Edit)
    requires n in b && (new_ == MERGED || MERGED !in labels) && (MayWork(new_) ==> DepsMerged(b, n))
    requires e in LabelEdits(n, labels, new_, swaps)
    ensures EditSafe(b, e)
  {
    hide Field, DepsMerged, IsStatus;
  }

  lemma DependsOnIsOther()
    ensures OtherField(DEPENDS_ON)
  {
    assert Lower(DEPENDS_ON)[0] == 'd';
  }

  // ---------------------------------------------------------------- processes

  ghost predicate PcSafe(b: Board, pc: Pc) {
    match pc
    case Writing(edits, next) => EditsSafe(b, edits) && PcSafe(b, next)
    case Checking(_, target, _, body, deps, unresolved, missing, _) =>
      && target in b && unresolved == []
      && Field(DEPENDS_ON, body) == Field(DEPENDS_ON, b[target].body)
      && (forall d :: d in deps ==> d in DependsOn(b, target))
      && (forall d :: d in DependsOn(b, target) ==> d in deps || missing != [] || IsMerged(b, d))
    case _ => true
  }

  ghost predicate RunnerSafe(b: Board, r: Runner) { r.Claiming? ==> DepsMerged(b, r.number) }

  ghost predicate ProcessSafe(b: Board, p: Process) {
    match p
    case Watching(pc) => PcSafe(b, pc)
    case Supervising(s) => s.Running? || s.Orphaned? ==> RunnerSafe(b, s.runner)
    case Dispatching(d) => d.Claims? ==> EditsSafe(b, d.edits)
  }

  lemma {:induction false} PcStaysSafe(b: Board, c: Board, pc: Pc)
    requires Grows(b, c) && PcSafe(b, pc)
    ensures PcSafe(c, pc)
  {
    hide Field, TaskList, IsMerged, EditSafe;
    match pc
    case Writing(edits, next) =>
      forall e | e in edits ensures EditSafe(c, e) { EditStaysSafe(b, c, e); }
      PcStaysSafe(b, c, next);
    case Checking(_, target, _, _, deps, _, missing, _) =>
      assert DependsOn(c, target) == DependsOn(b, target);
      forall d | d in DependsOn(c, target) ensures d in deps || missing != [] || IsMerged(c, d) {
        SameFind(b, c, d);
      }
    case _ =>
  }

  lemma ProcessStaysSafe(b: Board, c: Board, p: Process)
    requires Grows(b, c) && ProcessSafe(b, p)
    ensures ProcessSafe(c, p)
  {
    hide Grows, PcSafe, DepsMerged, EditSafe;
    match p
    case Watching(pc) => PcStaysSafe(b, c, pc);
    case Supervising(s) =>
      if (s.Running? || s.Orphaned?) && s.runner.Claiming? { DepsStayMerged(b, c, s.runner.number); }
    case Dispatching(d) =>
      if d.Claims? {
        forall e | e in d.edits ensures EditSafe(c, e) { EditStaysSafe(b, c, e); }
      }
  }

  /** The source's decision: dependencies complete, none missing and not merged yet makes it ready. */
  lemma DecideSafe(b: Board, pc: Pc)
    requires pc.Checking? && pc.deps == [] && PcSafe(b, pc)
    ensures PcSafe(b, Decide(pc).0)
  {
    if pc.missing == [] && MERGED !in pc.labels {
      ReplaceEditsSafe(b, pc.target, pc.labels, pc.body, READY, false);
    }
    hide Field, TaskList, IsMerged, ReplaceEdits, EditsSafe, SyncedBody;
  }

  lemma CheckOneSafe(b: Board, pc: Pc)
    requires pc.Checking? && pc.deps != [] && PcSafe(b, pc) && WellFormed(b)
    ensures PcSafe(b, CheckOne(b, pc))
  {
    hide Field, TaskList, FindIssue;
    assert pc.deps[0] in pc.deps;
    assert forall d :: d in pc.deps[1..] ==> d in pc.deps;
    assert forall d :: d in pc.deps ==> d == pc.deps[0] || d in pc.deps[1..];
  }

  lemma ScanOneSafe(b: Board, ids: seq<string>)
    requires ids != [] && WellFormed(b)
    ensures PcSafe(b, ScanOne(b, ids).0)
  {
    hide Field, TaskList, IsMerged;
  }

  lemma WatcherSafe(b: Board, pc: Pc, a: Answer)
    requires Safe(b) && WellFormed(b) && PcSafe(b, pc)
    ensures var (c, q) := WatcherStep(b, pc, a); Grows(b, c) && Safe(c) && PcSafe(c, q)
  {
    hide Grows, Safe, WellFormed, ResolveTaskIssue, FindIssue, Field, TaskList, Decide, CheckOne, ScanOne, Apply, EditSafe,
      ReplaceEdits, IsMerged;
    GrowsItself(b);
    match pc
    case Resolving(pr) =>
      var found := ResolveTaskIssue(b, pr);
      if found.Some? {
        var n := found.value.1;
        MergedIsNoWork();
        ReplaceEditsSafe(b, n, b[n].labels, b[n].body, MERGED, false);
      }
    case Writing(edits, next) =>
      if edits != [] {
        assert edits[0] in edits;
        SafeEdit(b, edits[0]);
        PcStaysSafe(b, Apply(b, edits[0]), pc);
        assert forall e :: e in edits[1..] ==> e in edits;
      }
    case Refreshing(_) =>
    case Scanning(ids) => if ids != [] { ScanOneSafe(b, ids); }
    case Checking(_, _, _, _, deps, _, _, _) =>
      if deps == [] { DecideSafe(b, pc); } else { CheckOneSafe(b, pc); }
    case Stopped =>
  }

  lemma GrowsItself(b: Board)
    ensures Grows(b, b)
  {
  }

  lemma MergedIsNoWork()
    ensures !MayWork(MERGED)
  {
    StatusesApart();
  }

  lemma RunnerStepSafe(b: Board, r: Runner, a: Answer)
    requires Safe(b) && RunnerSafe(b, r)
    ensures var (c, q) := RunnerStep(b, r, a); Grows(b, c) && Safe(c) && RunnerSafe(c, q)
  {
    hide DepsMerged, Safe, Grows, Apply, NothingInProgress, OpenReady;
    GrowsItself(b);
    if r.Claiming? { ClaimSafe(b, r.number); }
    if r.Viewing? && OpenReady(b, r.number) { ReadyIsFree(b, r.number); }
  }

  lemma ClaimSafe(b: Board, n: nat)
    requires Safe(b) && DepsMerged(b, n)
    ensures Grows(b, Apply(b, ClaimEdit(n))) && Safe(Apply(b, ClaimEdit(n)))
  {
    hide DepsMerged, Safe, Grows;
    MergedIsNoWork();
    assert EditSafe(b, ClaimEdit(n));
    SafeEdit(b, ClaimEdit(n));
  }

  lemma ReadyIsFree(b: Board, n: nat)
    requires Safe(b) && OpenReady(b, n)
    ensures DepsMerged(b, n)
  {
    hide DepsMerged;
    assert Carries(b, n, READY) && MayWork(READY);
  }

  lemma SupervisorSafe(b: Board, lockFile: bool, s: Supervisor, a: Answer)
    requires Safe(b) && ProcessSafe(b, Supervising(s))
    ensures var (c, _, t) := SupervisorStep(b, lockFile, s, a); Grows(b, c) && Safe(c) && ProcessSafe(c, Supervising(t))
  {
    hide DepsMerged, RunnerStep, Safe, Grows;
    GrowsItself(b);
    if s.Running? || s.Orphaned? { RunnerStepSafe(b, s.runner, a); }
  }

  lemma DispatcherSafe(b: Board, d: Dispatcher, a: Answer)
    requires Safe(b) && ProcessSafe(b, Dispatching(d))
    ensures var (c, e) := DispatcherStep(b, d, a); Grows(b, c) && Safe(c) && ProcessSafe(c, Dispatching(e))
  {
    hide DepsMerged, EditSafe, Grows, Apply, ReplaceEdits, Field;
    GrowsItself(b);
    match d
    case Choosing =>
      if a.Pick? && OpenReady(b, a.number) && StatusLabels(b[a.number].labels) == [READY] {
        MergedIsNoWork();
        assert MERGED !in StatusLabels(b[a.number].labels);
        ReplaceEditsSafe(b, a.number, b[a.number].labels, b[a.number].body, IN_PROGRESS, true);
      }
      hide Safe;
    case Claims(edits) =>
      if edits != [] {
        assert edits[0] in edits;
        SafeEdit(b, edits[0]);
        ProcessStaysSafe(b, Apply(b, edits[0]), Dispatching(d));
        assert forall e :: e in edits[1..] ==> e in edits;
      }
      hide Safe;
    case Finished =>
  }

  lemma ProcessStepSafe(b: Board, lockFile: bool, p: Process, a: Answer)
    requires Safe(b) && WellFormed(b) && ProcessSafe(b, p)
    ensures var (c, _, q) := ProcessStep(b, lockFile, p, a); Grows(b, c) && Safe(c) && ProcessSafe(c, q)
  {
    hide WatcherStep, SupervisorStep, DispatcherStep, PcSafe, EditsSafe, RunnerSafe, Safe, WellFormed, Grows;
    match p
    case Watching(pc) => WatcherSafe(b, pc, a);
    case Supervising(s) => SupervisorSafe(b, lockFile, s, a);
    case Dispatching(d) => DispatcherSafe(b, d, a);
  }

  // ---------------------------------------------------------------- runs

  ghost predicate AllSafe(w: World) {
    && Safe(w.board) && WellFormed(w.board)
    && forall p :: p in w.processes ==> ProcessSafe(w.board, w.processes[p])
  }

  lemma CloseSafe(b: Board, n: nat)
    requires n in b && Safe(b)
    ensures var c := b[n := b[n].(open := false)]; Grows(b, c) && Safe(c)
  {
    hide DepsMerged, Field;
    var c := b[n := b[n].(open := false)];
    assert Grows(b, c);
    forall m, tag | Carries(c, m, tag) && MayWork(tag) ensures DepsMerged(c, m) {
      assert Carries(b, m, tag);
      DepsStayMerged(b, c, m);
    }
  }

  lemma OthersStaySafe(w: World, c: Board, except: nat)
    requires AllSafe(w) && Grows(w.board, c)
    ensures forall p :: p in w.processes && p != except ==> ProcessSafe(c, w.processes[p])
  {
    hide Grows, ProcessSafe, Safe, WellFormed;
    forall p | p in w.processes && p != except ensures ProcessSafe(c, w.processes[p]) {
      ProcessStaysSafe(w.board, c, w.processes[p]);
    }
  }

  lemma NextSafe(w: World, e: Event)
    requires AllSafe(w)
    ensures AllSafe(Next(w, e)) && Grows(w.board, Next(w, e).board)
  {
    hide Grows, Safe, WellFormed, ProcessStep;
    GrowsItself(w.board);
    match e
    case Spawn(pid, p) =>
    case Close(n) =>
      if n in w.board {
        hide ProcessSafe;
        CloseSafe(w.board, n);
        WellFormedStays(w.board, Next(w, e).board);
        OthersStaySafe(w, Next(w, e).board, 0);
        ProcessesStaySafe(w, Next(w, e).board);
      }
    case Act(pid, a) =>
      hide ProcessSafe;
      if pid in w.processes {
        ProcessStepSafe(w.board, w.lockFile, w.processes[pid], a);
        WellFormedStays(w.board, Next(w, e).board);
        OthersStaySafe(w, Next(w, e).board, pid);
      }
  }

  lemma ProcessesStaySafe(w: World, c: Board)
    requires AllSafe(w) && Grows(w.board, c)
    ensures forall p :: p in w.processes ==> ProcessSafe(c, w.processes[p])
  {
    hide Grows, ProcessSafe, Safe, WellFormed;
    forall p | p in w.processes ensures ProcessSafe(c, w.processes[p]) {
      ProcessStaysSafe(w.board, c, w.processes[p]);
    }
  }

  lemma {:induction false} RunSafe(w: World, es: seq<Event>)
    requires AllSafe(w)
    ensures AllSafe(Run(w, es)) && Grows(w.board, Run(w, es).board)
    decreases |es|
  {
    hide AllSafe, Grows, Next;
    if es == [] {
      GrowsItself(w.board);
    } else {
      NextSafe(w, es[0]);
      RunSafe(Next(w, es[0]), es[1..]);
      GrowsTransitive(w.board, Next(w, es[0]).board, Run(w, es).board);
    }
  }

  /** Over every interleaving of watchers, supervisors, runners and dispatchers, with every call free
      to fail before or after taking effect: an issue that is ready or in progress has everything its
      body declares merged, read from the current board, and merged is never lost. */
  lemma DependenciesAlwaysMerged(b: Board, es: seq<Event>)
    requires WellFormed(b) && Safe(b)
    ensures var c := Run(Start(b), es).board;
            && (forall n, tag, d :: Carries(c, n, tag) && (tag == READY || tag == IN_PROGRESS) && d in DependsOn(c, n) ==>
                  var found := FindIssue(c, d); found.Some? && MERGED in c[found.value].labels)
            && (forall n :: Carries(b, n, MERGED) ==> Carries(c, n, MERGED))
            && (forall n :: n in b ==> n in c && Field(DEPENDS_ON, c[n].body) == Field(DEPENDS_ON, b[n].body))
  {
    hide WellFormed, Run, FindIssue, Field, TaskList;
    RunSafe(Start(b), es);
    var c := Run(Start(b), es).board;
    forall n, tag, d | Carries(c, n, tag) && (tag == READY || tag == IN_PROGRESS) && d in DependsOn(c, n)
      ensures IsMerged(c, d)
    {
      assert MayWork(tag);
    }
  }
}
