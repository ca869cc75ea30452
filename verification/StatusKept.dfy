/** An issue that has a status keeps one, in every run of every mix of agents, unless it is claimed while
    a watcher is about to take in-progress off it. */
module StatusKept {
  import opened Text
  import opened TaskStatus
  import opened Tracker
  import opened Dependencies
  import opened Watcher
  import opened Queue
  import InProgress
  import opened MergedDependencies
  import opened Unblocking

  // ---------------------------------------------------------------- edits in flight

  /** The edits of one replacement: a label is added first if at all, merged is never removed, and ready
      only behind merged. */
  predicate Tidy(b: Board, edits: seq<Edit>) {
    && (forall i :: 0 < i < |edits| ==> !edits[i].AddLabel?)
    && forall e :: e in edits ==> e.number in b && e.number == edits[0].number && TidyEdit(b, edits[0], e)
  }

  predicate TidyEdit(b: Board, first: Edit, e: Edit) {
    match e
    case AddLabel(_, tag) => tag == READY || tag == MERGED
    case RemoveLabel(n, tag) => tag != MERGED && (tag == READY ==> Carries(b, n, MERGED) || first == AddLabel(n, MERGED))
    case SwapLabels(_, _, _) => false
    case SetBody(_, _) => true
  }

  /** A claim swaps ready for in-progress and nothing else. */
  predicate ClaimOnly(e: Edit) {
    match e
    case SwapLabels(_, removed, tag) => tag == IN_PROGRESS && removed == [READY]
    case SetBody(_, _) => true
    case _ => false
  }

  predicate PcTidy(b: Board, pc: Pc) { pc.Writing? ==> Tidy(b, pc.edits) && (pc.next.Refreshing? || pc.next.Scanning?) }

  predicate ProcessTidy(b: Board, p: Process) {
    match p
    case Watching(pc) => PcTidy(b, pc)
    case Dispatching(d) => d.Claims? ==> forall e :: e in d.edits ==> ClaimOnly(e)
    case Supervising(_) => true
  }

  ghost predicate TidyWorld(w: World) {
    AllSafe(w) && forall p :: p in w.processes ==> ProcessTidy(w.board, w.processes[p])
  }

  /** The run may take the tag off n before it puts anything on. */
  predicate Threatens(pc: Pc, n: nat, tag: string) {
    match pc
    case Writing(edits, _) => RemoveLabel(n, tag) in edits && !edits[0].AddLabel?
    case Checking(_, target, labels, _, _, _, missing, _) =>
      target == n && missing == [] && READY in labels && MERGED !in labels && tag in labels && tag != READY
    case _ => false
  }

  predicate Threat(p: Process, n: nat, tag: string) { p.Watching? && Threatens(p.pc, n, tag) }

  ghost predicate Free(w: World, n: nat, tag: string) { forall p :: p in w.processes ==> !Threat(w.processes[p], n, tag) }

  /** One of the tags is on n and nobody is about to take it off. */
  ghost predicate Anchored(w: World, n: nat, tags: set<string>) {
    exists tag :: tag in tags && Carries(w.board, n, tag) && Free(w, n, tag)
  }

  /** Ready and merged hold by themselves. */
  lemma PlainAnchor(w: World, n: nat, tags: set<string>)
    requires TidyWorld(w) && READY in tags && MERGED in tags
    requires Carries(w.board, n, READY) || Carries(w.board, n, MERGED)
    ensures Anchored(w, n, tags)
  {
    StatusesApart();
    hide AllSafe;
    var tag := if Carries(w.board, n, MERGED) then MERGED else READY;
    forall p | p in w.processes ensures !Threat(w.processes[p], n, tag) {
      assert ProcessTidy(w.board, w.processes[p]);
      NotThreatened(w.board, w.processes[p], n, tag);
    }
    assert Free(w, n, tag);
  }

  lemma NotThreatened(b: Board, p: Process, n: nat, tag: string)
    requires ProcessTidy(b, p) && (tag == MERGED || (tag == READY && !Carries(b, n, MERGED)))
    ensures !Threat(p, n, tag)
  {
    if p.Watching? && p.pc.Writing? && RemoveLabel(n, tag) in p.pc.edits { assert TidyEdit(b, p.pc.edits[0], RemoveLabel(n, tag)); }
  }

  // ---------------------------------------------------------------- one step keeps edits tidy

  lemma ReplaceTidy(b: Board, n: nat, labels: seq<string>, body: string, new_: string)
    requires n in b && (new_ == READY || (new_ == MERGED && labels == b[n].labels))
    requires new_ == READY ==> MERGED !in labels
    ensures Tidy(b, ReplaceEdits(n, labels, body, new_, false))
  {
    StatusesApart();
    hide SyncedBody, BareStatus, IsStatus, StatusLabels, Removals;
    var adds := if new_ in labels then [] else [AddLabel(n, new_)];
    var removals := Removals(n, StatusLabels(labels), new_);
    var synced := SyncedBody(body, BareStatus(new_).value);
    var bodies := if synced == body then [] else [SetBody(n, synced)];
    assert ReplaceEdits(n, labels, body, new_, false) == adds + removals + bodies;
    hide ReplaceEdits, Tidy;
    TidyShape(b, n, new_, adds, removals, bodies);
  }

  lemma TidyShape(b: Board, n: nat, new_: string, adds: seq<Edit>, removals: seq<Edit>, bodies: seq<Edit>)
    requires n in b && (new_ == READY || new_ == MERGED)
    requires adds == [] || adds == [AddLabel(n, new_)]
    requires new_ == MERGED ==> adds != [] || Carries(b, n, MERGED)
    requires forall e :: e in removals ==> e.RemoveLabel? && e.number == n && e.tag != MERGED && e.tag != new_
    requires forall e :: e in bodies ==> e.SetBody? && e.number == n
    ensures Tidy(b, adds + removals + bodies)
  {
    var edits := adds + removals + bodies;
    assert forall i :: |adds| <= i < |edits| ==> edits[i] in removals || edits[i] in bodies;
    forall e | e in edits ensures e.number in b && e.number == edits[0].number && TidyEdit(b, edits[0], e) {
      var i :| 0 <= i < |edits| && edits[i] == e;
      if adds != [] { assert edits[0] == adds[0]; }
    }
  }

  lemma TidyStays(b: Board, c: Board, p: Process)
    requires Grows(b, c) && ProcessTidy(b, p)
    ensures ProcessTidy(c, p)
  {
    if p.Watching? && p.pc.Writing? {
      var edits := p.pc.edits;
      forall e | e in edits ensures TidyEdit(c, edits[0], e) { assert TidyEdit(b, edits[0], e); }
    }
  }

  lemma TidyRest(b: Board, edits: seq<Edit>)
    requires edits != [] && Tidy(b, edits) && Grows(b, Apply(b, edits[0]))
    ensures Tidy(Apply(b, edits[0]), edits[1..])
  {
    var c, rest := Apply(b, edits[0]), edits[1..];
    forall i | 0 <= i < |rest| ensures !rest[i].AddLabel? { assert rest[i] == edits[i + 1]; }
    forall e | e in rest ensures e.number in c && e.number == rest[0].number && TidyEdit(c, rest[0], e) {
      assert e in edits && rest[0] == edits[1] && edits[1] in edits && edits[0] in edits;
      assert TidyEdit(b, edits[0], e);
    }
  }

  lemma DecideTidy(b: Board, pc: Pc)
    requires pc.Checking? && pc.deps == [] && PcSafe(b, pc)
    ensures PcTidy(b, Decide(pc).0)
    ensures forall n, tag :: Threatens(Decide(pc).0, n, tag) ==> Threatens(pc, n, tag)
  {
    hide SyncedBody, ReplaceEdits, DependsOn, IsMerged, Tidy, IsStatus;
    if pc.missing == [] && MERGED !in pc.labels {
      ReplaceTidy(b, pc.target, pc.labels, pc.body, READY);
      forall n, tag | Threatens(Decide(pc).0, n, tag) ensures Threatens(pc, n, tag) {
        BareRemoval(pc.target, pc.labels, pc.body, READY, n, tag);
      }
    }
  }

  /** Without an addition in front the new label was there, and only other labels that were there go. */
  lemma BareRemoval(target: nat, labels: seq<string>, body: string, new_: string, n: nat, tag: string)
    requires Supported(new_)
    requires var edits := ReplaceEdits(target, labels, body, new_, false); RemoveLabel(n, tag) in edits && !edits[0].AddLabel?
    ensures n == target && new_ in labels && tag in labels && tag != new_
  {
    hide SyncedBody, BareStatus;
  }

  lemma ScanTidy(b: Board, ids: seq<string>)
    requires ids != [] && WellFormed(b)
    ensures PcTidy(b, ScanOne(b, ids).0)
    ensures forall n, tag :: Threatens(ScanOne(b, ids).0, n, tag) ==> Carries(b, n, READY)
  {
    hide TaskList, Field, DependsOn;
  }

  lemma ResolveTidy(b: Board, pr: PullRequest)
    ensures PcTidy(b, Step(b, Resolving(pr)).pc)
    ensures forall n, tag :: Threatens(Step(b, Resolving(pr)).pc, n, tag) ==> Carries(b, n, MERGED)
  {
    hide ResolveTaskIssue, ReplaceEdits, Tidy;
    var found := if pr.merged then ResolveTaskIssue(b, pr) else None;
    if found.Some? {
      var m := found.value.1;
      ReplaceTidy(b, m, b[m].labels, b[m].body, MERGED);
      forall n, tag | Threatens(Step(b, Resolving(pr)).pc, n, tag) ensures Carries(b, n, MERGED) {
        BareRemoval(m, b[m].labels, b[m].body, MERGED, n, tag);
      }
    }
  }

  /** Ready or merged is on n. */
  predicate ReadyOrMerged(b: Board, n: nat) { Carries(b, n, READY) || Carries(b, n, MERGED) }

  lemma WatcherTidy(b: Board, pc: Pc, a: Answer)
    requires Safe(b) && WellFormed(b) && PcSafe(b, pc) && PcTidy(b, pc)
    ensures var (c, q) := WatcherStep(b, pc, a);
            && PcTidy(c, q)
            && (forall n, tag :: Threatens(q, n, tag) ==> Threatens(pc, n, tag) || ReadyOrMerged(c, n))
            && (forall n, tag :: Carries(b, n, tag) && !Threatens(pc, n, tag) ==> Carries(c, n, tag))
  {
    hide Safe, WellFormed, ResolveTaskIssue, FindIssue, Field, TaskList, Decide, CheckOne, ScanOne, Apply, EditSafe, Tidy,
      ReplaceEdits, IsMerged;
    WatcherSafe(b, pc, a);
    match pc
    case Resolving(pr) => ResolveTidy(b, pr);
    case Writing(edits, next) =>
      if edits != [] {
        assert edits[0] in edits;
        SafeEdit(b, edits[0]);
        WriteTidy(b, edits, next);
      }
    case Refreshing(_) =>
    case Scanning(ids) => if ids != [] { ScanTidy(b, ids); }
    case Checking(_, _, _, _, deps, _, _, _) =>
      if deps == [] { DecideTidy(b, pc); } else { CheckSame(b, pc); }
    case Stopped =>
  }

  lemma CheckSame(b: Board, pc: Pc)
    requires pc.Checking? && pc.deps != []
    ensures var q := CheckOne(b, pc);
            q.Checking? && q.target == pc.target && q.labels == pc.labels && (q.missing == [] ==> pc.missing == [])
  {
    hide FindIssue;
  }

  lemma WriteTidy(b: Board, edits: seq<Edit>, next: Pc)
    requires edits != [] && PcTidy(b, Writing(edits, next)) && Grows(b, Apply(b, edits[0]))
    ensures var c, q := Apply(b, edits[0]), Writing(edits[1..], next);
            && PcTidy(c, q)
            && (forall n, tag :: Threatens(q, n, tag) ==> Threatens(Writing(edits, next), n, tag) || ReadyOrMerged(c, n))
            && (forall n, tag :: Carries(b, n, tag) && !Threatens(Writing(edits, next), n, tag) ==> Carries(c, n, tag))
  {
    TidyRest(b, edits);
    var c, q := Apply(b, edits[0]), Writing(edits[1..], next);
    assert edits[0] in edits;
    assert TidyEdit(b, edits[0], edits[0]);
    forall n, tag | Threatens(q, n, tag) ensures Threatens(Writing(edits, next), n, tag) || ReadyOrMerged(c, n) {
      assert RemoveLabel(n, tag) in edits;
    }
  }

  // ---------------------------------------------------------------- claims

  /** The issue a step of this process claims. */
  function ClaimOf(p: Process, a: Answer): Option<nat> {
    match p
    case Watching(_) => None
    case Supervising(s) =>
      if (s.Running? || s.Orphaned?) && s.runner.Claiming? && (a.Ok? || a == Fails(true)) then Some(s.runner.number) else None
    case Dispatching(d) =>
      if d.Claims? && d.edits != [] && d.edits[0].SwapLabels? && (a.Ok? || a == Fails(true)) then Some(d.edits[0].number) else None
  }

  predicate ClaimsNow(w: World, e: Event, n: nat) {
    e.Act? && e.pid in w.processes && ClaimOf(w.processes[e.pid], e.answer) == Some(n)
  }

  /** n is not claimed while a watcher is about to take in-progress off it. */
  ghost predicate Spared(w: World, e: Event, n: nat) { ClaimsNow(w, e, n) ==> Free(w, n, IN_PROGRESS) }

  /** A step of an agent that is not a watcher claims, or leaves all labels alone. */
  lemma OthersTidy(b: Board, lockFile: bool, p: Process, a: Answer)
    requires !p.Watching? && ProcessTidy(b, p)
    ensures var (c, _, q) := ProcessStep(b, lockFile, p, a);
            && !q.Watching? && ProcessTidy(c, q)
            && (forall n: nat, tag :: Carries(b, n, tag) && ClaimOf(p, a) != Some(n) ==> Carries(c, n, tag))
            && (forall n: nat :: n in b && ClaimOf(p, a) == Some(n) ==> Carries(c, n, IN_PROGRESS))
            && (forall n, tag :: Carries(b, n, tag) && tag != READY ==> Carries(c, n, tag))
  {
    match p
    case Supervising(s) => SupervisorTidy(b, lockFile, s, a);
    case Dispatching(d) => DispatcherTidy(b, d, a);
  }

  lemma SupervisorTidy(b: Board, lockFile: bool, s: Supervisor, a: Answer)
    ensures var (c, _, _) := SupervisorStep(b, lockFile, s, a);
            && (forall n: nat, tag :: Carries(b, n, tag) && ClaimOf(Supervising(s), a) != Some(n) ==> Carries(c, n, tag))
            && (forall n: nat :: n in b && ClaimOf(Supervising(s), a) == Some(n) ==> Carries(c, n, IN_PROGRESS))
            && (forall n, tag :: Carries(b, n, tag) && tag != READY ==> Carries(c, n, tag))
  {
    hide NothingInProgress, OpenReady;
  }

  lemma DispatcherTidy(b: Board, d: Dispatcher, a: Answer)
    requires ProcessTidy(b, Dispatching(d))
    ensures var (c, q) := DispatcherStep(b, d, a);
            && ProcessTidy(c, Dispatching(q))
            && (forall n: nat, tag :: Carries(b, n, tag) && ClaimOf(Dispatching(d), a) != Some(n) ==> Carries(c, n, tag))
            && (forall n: nat :: n in b && ClaimOf(Dispatching(d), a) == Some(n) ==> Carries(c, n, IN_PROGRESS))
            && (forall n, tag :: Carries(b, n, tag) && tag != READY ==> Carries(c, n, tag))
  {
    hide ReplaceEdits, OpenReady;
    match d
    case Choosing =>
      if a.Pick? && OpenReady(b, a.number) {
        InBoard(b, a.number);
        if StatusLabels(b[a.number].labels) == [READY] { ClaimEditsOnly(a.number, b[a.number].labels, b[a.number].body); }
      }
    case Claims(edits) =>
      if edits != [] {
        assert edits[0] in edits;
        assert forall e :: e in edits[1..] ==> e in edits;
      }
    case Finished =>
  }

  lemma InBoard(b: Board, n: nat)
    requires OpenReady(b, n)
    ensures n in b
  {
  }

  lemma ClaimEditsOnly(n: nat, labels: seq<string>, body: string)
    requires StatusLabels(labels) == [READY]
    ensures forall e :: e in ReplaceEdits(n, labels, body, IN_PROGRESS, true) ==> ClaimOnly(e)
  {
    InProgress.FirstSwap(n, labels, body);
    assert Without([READY], [IN_PROGRESS]) == [READY];
    hide SyncedBody, BareStatus, Without;
  }

  // ---------------------------------------------------------------- anchors stay

  lemma ActAnchors(w: World, pid: nat, a: Answer, n: nat, tags: set<string>)
    requires TidyWorld(w) && pid in w.processes && Anchored(w, n, tags) && {READY, MERGED} <= tags
    requires ClaimsNow(w, Act(pid, a), n) ==> IN_PROGRESS in tags && Free(w, n, IN_PROGRESS)
    requires TidyWorld(Next(w, Act(pid, a)))
    ensures Anchored(Next(w, Act(pid, a)), n, tags)
  {
    hide AllSafe, ProcessStep, ClaimOf, Threatens, ProcessTidy, WatcherStep;
    var v := Next(w, Act(pid, a));
    var p := w.processes[pid];
    var tag :| tag in tags && Carries(w.board, n, tag) && Free(w, n, tag);
    if ReadyOrMerged(v.board, n) {
      PlainAnchor(v, n, tags);
    } else {
      var kept := if ClaimOf(p, a) == Some(n) then IN_PROGRESS else tag;
      assert !Threat(p, n, kept);
      StepKeeps(w, pid, a, n, tag);
      forall q | q in v.processes ensures !Threat(v.processes[q], n, kept) {
        if q != pid { assert v.processes[q] == w.processes[q]; } else { StepThreat(w, pid, a, n, kept); }
      }
      assert Free(v, n, kept);
    }
  }

  lemma StepThreat(w: World, pid: nat, a: Answer, n: nat, tag: string)
    requires TidyWorld(w) && pid in w.processes && !Threat(w.processes[pid], n, tag)
    ensures var v := Next(w, Act(pid, a)); Threat(v.processes[pid], n, tag) ==> ReadyOrMerged(v.board, n)
  {
    hide WatcherStep, SupervisorStep, DispatcherStep, Threatens, Safe, WellFormed, PcSafe, PcTidy;
    var p := w.processes[pid];
    assert ProcessTidy(w.board, p) && ProcessSafe(w.board, p);
    if p.Watching? { WatcherTidy(w.board, p.pc, a); }
  }

  lemma StepKeeps(w: World, pid: nat, a: Answer, n: nat, tag: string)
    requires TidyWorld(w) && pid in w.processes && Carries(w.board, n, tag) && !Threat(w.processes[pid], n, tag)
    ensures var v := Next(w, Act(pid, a));
            if ClaimOf(w.processes[pid], a) == Some(n) then Carries(v.board, n, IN_PROGRESS) else Carries(v.board, n, tag)
  {
    hide WatcherStep, SupervisorStep, DispatcherStep, Threatens, Safe, WellFormed, PcSafe, PcTidy;
    var p := w.processes[pid];
    assert ProcessTidy(w.board, p) && ProcessSafe(w.board, p);
    if p.Watching? { WatcherTidy(w.board, p.pc, a); } else { OthersTidy(w.board, w.lockFile, p, a); }
  }

  lemma NextTidy(w: World, e: Event)
    requires TidyWorld(w)
    ensures TidyWorld(Next(w, e))
  {
    hide ProcessTidy, ProcessSafe, Safe, WellFormed, Grows, ProcessStep, Initial;
    NextSafe(w, e);
    var v := Next(w, e);
    NextGrows(w, e);
    forall q | q in v.processes ensures ProcessTidy(v.board, v.processes[q]) {
      if q in w.processes && v.processes[q] == w.processes[q] { TidyStays(w.board, v.board, w.processes[q]); }
      else { NewTidy(w, e, q); }
    }
  }

  lemma NextGrows(w: World, e: Event)
    requires AllSafe(w)
    ensures Grows(w.board, Next(w, e).board)
  {
    hide ProcessStep, Safe, WellFormed, ProcessSafe, Field;
    if e.Act? && e.pid in w.processes { ProcessStepSafe(w.board, w.lockFile, w.processes[e.pid], e.answer); }
  }

  lemma NewTidy(w: World, e: Event, q: nat)
    requires TidyWorld(w) && q in Next(w, e).processes && (q !in w.processes || Next(w, e).processes[q] != w.processes[q])
    ensures ProcessTidy(Next(w, e).board, Next(w, e).processes[q])
  {
    hide WatcherStep, SupervisorStep, DispatcherStep, Safe, WellFormed, PcSafe;
    if e.Act? {
      var p := w.processes[q];
      assert ProcessTidy(w.board, p) && ProcessSafe(w.board, p);
      if p.Watching? { WatcherTidy(w.board, p.pc, e.answer); } else { OthersTidy(w.board, w.lockFile, p, e.answer); }
    }
  }

  /** Whatever the next event, what holds n up still does, unless n is claimed at the wrong moment. */
  lemma NextAnchors(w: World, e: Event, n: nat, tags: set<string>)
    requires TidyWorld(w) && Anchored(w, n, tags) && {READY, MERGED} <= tags
    requires ClaimsNow(w, e, n) ==> IN_PROGRESS in tags && Free(w, n, IN_PROGRESS)
    ensures TidyWorld(Next(w, e)) && Anchored(Next(w, e), n, tags)
  {
    NextTidy(w, e);
    hide TidyWorld, Next, Anchored, ClaimsNow, Free;
    match e
    case Act(pid, a) =>
      if pid in w.processes {
        ClaimsMeans(w, pid, a, n);
        ActAnchors(w, pid, a, n, tags);
      } else {
        NobodyActs(w, pid, a);
      }
    case Spawn(_, _) => QuietAnchors(w, e, n, tags);
    case Close(_) => QuietAnchors(w, e, n, tags);
  }

  lemma ClaimsMeans(w: World, pid: nat, a: Answer, n: nat)
    ensures ClaimsNow(w, Act(pid, a), n) <==> pid in w.processes && ClaimOf(w.processes[pid], a) == Some(n)
  {
  }

  lemma NobodyActs(w: World, pid: nat, a: Answer)
    requires pid !in w.processes
    ensures Next(w, Act(pid, a)) == w
  {
  }

  lemma QuietAnchors(w: World, e: Event, n: nat, tags: set<string>)
    requires Anchored(w, n, tags) && !e.Act?
    ensures Anchored(Next(w, e), n, tags)
  {
    hide Threat, Initial;
    var tag :| tag in tags && Carries(w.board, n, tag) && Free(w, n, tag);
    if e.Spawn? { InitialIsHarmless(e.process, n, tag); }
    assert Free(Next(w, e), n, tag);
  }

  lemma InitialIsHarmless(p: Process, n: nat, tag: string)
    ensures Initial(p) ==> !Threat(p, n, tag)
  {
  }

  // ---------------------------------------------------------------- runs

  ghost predicate SparedAlways(w: World, es: seq<Event>, n: nat)
    decreases |es|
  {
    es == [] || (Spared(w, es[0], n) && SparedAlways(Next(w, es[0]), es[1..], n))
  }

  lemma {:induction false} RunAnchors(w: World, es: seq<Event>, n: nat, tags: set<string>)
    requires TidyWorld(w) && Anchored(w, n, tags) && {READY, MERGED, IN_PROGRESS} <= tags && SparedAlways(w, es, n)
    ensures Anchored(Run(w, es), n, tags)
    decreases |es|
  {
    hide TidyWorld, Anchored, Next, ClaimsNow, Free;
    if es != [] {
      NextAnchors(w, es[0], n, tags);
      RunAnchors(Next(w, es[0]), es[1..], n, tags);
    }
  }

  ghost predicate HasStatus(b: Board, n: nat) { exists tag :: IsStatus(tag) && Carries(b, n, tag) }

  /** In every run of watchers, supervisors, runners and dispatchers, calls failing and processes dying at
      any point, an issue with a status keeps one, if it is never claimed while a watcher is about to
      take in-progress off it. */
  lemma StatusKept(b: Board, es: seq<Event>, n: nat)
    requires WellFormed(b) && Safe(b) && HasStatus(b, n) && SparedAlways(Start(b), es, n)
    ensures HasStatus(Run(Start(b), es).board, n)
  {
    hide WellFormed, Safe, Run, SparedAlways, Threat;
    StatusesApart();
    assert IsStatus(IN_PROGRESS);
    hide IsStatus;
    var tag :| IsStatus(tag) && Carries(b, n, tag);
    var tags := {tag, READY, MERGED, IN_PROGRESS};
    assert Free(Start(b), n, tag);
    assert Anchored(Start(b), n, tags);
    RunAnchors(Start(b), es, n, tags);
    var held :| held in tags && Carries(Run(Start(b), es).board, n, held) && Free(Run(Start(b), es), n, held);
  }
}
