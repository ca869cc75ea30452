/** The supervisor half of the queue's safety: the lock serialises the check for running work and the
    claim, so at most one open issue is ever in progress; and the two ways around that. */
module InProgress {
  import opened Text
  import opened TaskStatus
  import opened Tracker
  import opened Watcher
  import opened Queue

  ghost predicate AtMostOne(b: Board) { forall n, m :: Busy(b, n) && Busy(b, m) ==> n == m }

  predicate AddsInProgress(e: Edit) { (e.AddLabel? || e.SwapLabels?) && e.tag == IN_PROGRESS }

  /** A watcher never holds an edit that puts an issue in progress. */
  predicate PcIdle(pc: Pc) {
    pc.Writing? ==> (forall e :: e in pc.edits ==> !AddsInProgress(e)) && PcIdle(pc.next)
  }

  predicate PastCheck(r: Runner) { r.Viewing? || r.Claiming? }

  /** A supervisor whose runner has seen no work in progress and has not claimed yet. */
  predicate AboutToClaim(p: Process) {
    p.Supervising? && (p.sup.Running? || p.sup.Orphaned?) && PastCheck(p.sup.runner)
  }

  predicate ProcessIdle(p: Process) { !p.Dispatching? && (p.Watching? ==> PcIdle(p.pc)) }

  ghost predicate OneInv(w: World) {
    && LockInv(w) && AtMostOne(w.board)
    && (forall p :: p in w.processes ==> ProcessIdle(w.processes[p]))
    && (forall p :: p in w.processes && AboutToClaim(w.processes[p]) ==> NothingInProgress(w.board))
  }

  // ---------------------------------------------------------------- steps

  /** Whatever is busy afterwards was busy before. */
  ghost predicate NoneStarted(b: Board, c: Board) { forall n :: Busy(c, n) ==> Busy(b, n) }

  lemma EditStartsNone(b: Board, e: Edit)
    requires !AddsInProgress(e)
    ensures NoneStarted(b, Apply(b, e))
  {
    forall n | Busy(Apply(b, e), n) ensures Busy(b, n) { EditedIssue(b, e, n); }
  }

  lemma EditedIssue(b: Board, e: Edit, n: nat)
    requires !AddsInProgress(e)
    ensures Busy(Apply(b, e), n) ==> Busy(b, n)
  {
  }

  lemma ReplaceIdle(n: nat, labels: seq<string>, body: string, new_: string)
    requires Supported(new_) && new_ != IN_PROGRESS
    ensures forall e :: e in ReplaceEdits(n, labels, body, new_, false) ==> !AddsInProgress(e)
  {
    hide SyncedBody, StatusLabels;
  }

  lemma WatcherIdle(b: Board, pc: Pc, a: Answer)
    requires PcIdle(pc)
    ensures var (c, q) := WatcherStep(b, pc, a); NoneStarted(b, c) && PcIdle(q)
  {
    hide Apply, ResolveTaskIssue, FindIssue, ReplaceEdits, SyncedBody;
    StatusesApart();
    match pc
    case Resolving(pr) =>
      var found := ResolveTaskIssue(b, pr);
      if found.Some? { ReplaceIdle(found.value.1, b[found.value.1].labels, b[found.value.1].body, MERGED); }
    case Writing(edits, next) =>
      if edits != [] {
        assert edits[0] in edits;
        EditStartsNone(b, edits[0]);
        assert forall e :: e in edits[1..] ==> e in edits;
      }
    case Refreshing(_) =>
    case Scanning(ids) =>
      if ids != [] {
        var found := FindIssue(b, ids[0]);
        if found.Some? { ReplaceIdle(found.value, b[found.value].labels, b[found.value].body, NEEDS_ATTENTION); }
      }
    case Checking(_, target, labels, body, deps, _, _, _) =>
      ReplaceIdle(target, labels, body, NEEDS_ATTENTION);
      ReplaceIdle(target, labels, body, READY);
      hide IsStatus;
    case Stopped =>
  }

  lemma ClaimStartsOne(b: Board, n: nat)
    requires NothingInProgress(b)
    ensures AtMostOne(Apply(b, ClaimEdit(n)))
  {
    var c := Apply(b, ClaimEdit(n));
    forall m | Busy(c, m) ensures m == n {
      if m != n { assert Busy(b, m); }
    }
  }

  /** The runner's own check makes the claim safe, as long as nobody else claims in between. */
  lemma RunnerClaims(b: Board, r: Runner, a: Answer)
    requires AtMostOne(b) && (PastCheck(r) ==> NothingInProgress(b))
    ensures var (c, q) := RunnerStep(b, r, a);
            && AtMostOne(c) && (PastCheck(q) ==> NothingInProgress(c))
            && (!PastCheck(r) ==> NoneStarted(b, c))
  {
    hide Apply, AtMostOne, NothingInProgress;
    if r.Claiming? { ClaimStartsOne(b, r.number); }
  }

  lemma SupervisorClaims(b: Board, lockFile: bool, s: Supervisor, a: Answer)
    requires AtMostOne(b) && (AboutToClaim(Supervising(s)) ==> NothingInProgress(b))
    ensures var (c, l, t) := SupervisorStep(b, lockFile, s, a);
            && AtMostOne(c) && (AboutToClaim(Supervising(t)) ==> NothingInProgress(c))
            && (!AboutToClaim(Supervising(s)) ==> NoneStarted(b, c))
  {
    hide RunnerStep, AtMostOne, NothingInProgress;
    if s.Running? || s.Orphaned? { RunnerClaims(b, s.runner, a); }
  }

  /** One step of one process keeps the board and the process itself in order, and starts nothing
      unless the process was about to claim. */
  lemma ProcessClaims(b: Board, lockFile: bool, p: Process, a: Answer)
    requires AtMostOne(b) && ProcessIdle(p) && (AboutToClaim(p) ==> NothingInProgress(b))
    ensures var (c, l, q) := ProcessStep(b, lockFile, p, a);
            && AtMostOne(c) && ProcessIdle(q) && (AboutToClaim(q) ==> NothingInProgress(c))
            && (!AboutToClaim(p) ==> NoneStarted(b, c))
  {
    hide WatcherStep, SupervisorStep, DispatcherStep, NothingInProgress, PcIdle;
    match p
    case Watching(pc) => WatcherIdle(b, pc, a);
    case Supervising(s) => SupervisorClaims(b, lockFile, s, a);
  }

  lemma NoneStartedKeepsNothing(b: Board, c: Board)
    requires NoneStarted(b, c) && NothingInProgress(b)
    ensures NothingInProgress(c)
  {
    hide Busy;
    BusyIssueExists(b);
  }

  lemma BusyIssueExists(b: Board)
    ensures forall n :: Busy(b, n) ==> n in b
  {
  }

  lemma AboutToClaimHolds(p: Process)
    ensures AboutToClaim(p) ==> HoldsLock(p)
  {
  }

  lemma InitialIdle(p: Process)
    requires Initial(p) && !p.Dispatching?
    ensures ProcessIdle(p) && !AboutToClaim(p)
  {
  }

  /** Nobody runs the reporter's claim path, which takes no lock. */
  predicate NoDispatcher(e: Event) { e.Spawn? ==> !e.process.Dispatching? }

  lemma NextOne(w: World, e: Event)
    requires OneInv(w) && NoDispatcher(e)
    ensures OneInv(Next(w, e))
  {
    hide LockInv, ProcessStep, Initial, AtMostOne, NothingInProgress, AboutToClaim, ProcessIdle;
    NextLock(w, e);
    var v := Next(w, e);
    match e
    case Spawn(pid, p) => if Initial(p) { InitialIdle(p); }
    case Close(n) =>
      CloseStartsNone(w.board, n);
      forall p | p in v.processes && AboutToClaim(v.processes[p]) ensures NothingInProgress(v.board) {
        NoneStartedKeepsNothing(w.board, v.board);
      }
    case Act(pid, a) =>
      if pid in w.processes {
        var before := w.processes[pid];
        ProcessClaims(w.board, w.lockFile, before, a);
        forall p | p in v.processes && AboutToClaim(v.processes[p]) ensures NothingInProgress(v.board) {
          if p != pid {
            OnlyOneAbout(w, p, pid);
            NoneStartedKeepsNothing(w.board, v.board);
          }
        }
      }
  }

  /** The lock leaves no room for a second process past the check. */
  lemma OnlyOneAbout(w: World, p: nat, q: nat)
    requires LockInv(w) && p in w.processes && q in w.processes && p != q
    requires AboutToClaim(w.processes[p])
    ensures !AboutToClaim(w.processes[q])
  {
    hide HoldsLock, AboutToClaim;
    AboutToClaimHolds(w.processes[p]);
    AboutToClaimHolds(w.processes[q]);
  }

  lemma CloseStartsNone(b: Board, n: nat)
    requires AtMostOne(b)
    ensures var c := if n in b then b[n := b[n].(open := false)] else b; NoneStarted(b, c) && AtMostOne(c)
  {
    var c := if n in b then b[n := b[n].(open := false)] else b;
    forall m | Busy(c, m) ensures Busy(b, m) {}
  }

  // ---------------------------------------------------------------- runs

  lemma {:induction false} RunOne(w: World, es: seq<Event>)
    requires OneInv(w) && forall e :: e in es ==> NoDispatcher(e)
    ensures OneInv(Run(w, es))
    decreases |es|
  {
    hide OneInv, NoDispatcher, Next;
    if es != [] {
      assert es[0] in es;
      NextOne(w, es[0]);
      assert forall e :: e in es[1..] ==> e in es;
      RunOne(Next(w, es[0]), es[1..]);
    }
  }

  /** In every interleaving of any number of supervisors on one lock path, their runner children,
      orphaned or not, and watchers: at most one open issue is in progress if at most one was. */
  lemma AtMostOneInProgress(b: Board, es: seq<Event>)
    requires forall n, m :: Busy(b, n) && Busy(b, m) ==> n == m
    requires forall e :: e in es && e.Spawn? ==> !e.process.Dispatching?
    ensures var c := Run(Start(b), es).board; forall n, m :: Busy(c, n) && Busy(c, m) ==> n == m
  {
    hide Run, Busy;
    RunOne(Start(b), es);
  }

  // ---------------------------------------------------------------- the two ways around it

  function Answers(pid: nat, answers: seq<Answer>): seq<Event> {
    seq(|answers|, i requires 0 <= i < |answers| => Act(pid, answers[i]))
  }

  /** The answers one whole supervisor cycle gets when nothing fails. */
  function Cycle(n: nat): seq<Answer> { [Ok, Ok, Ok, Ok, Pick(n), Ok, Ok, Ok, Ok, Ok, Ok] }

  /** A process alone with its answers. */
  function Alone(b: Board, lockFile: bool, s: Supervisor, answers: seq<Answer>): (Board, bool, Supervisor)
    decreases |answers|
  {
    if answers == [] then (b, lockFile, s)
    else
      var (c, l, t) := SupervisorStep(b, lockFile, s, answers[0]);
      Alone(c, l, t, answers[1..])
  }

  lemma {:induction false} RunAlone(w: World, pid: nat, answers: seq<Answer>)
    requires pid in w.processes && w.processes[pid].Supervising?
    ensures var (c, l, t) := Alone(w.board, w.lockFile, w.processes[pid].sup, answers);
            Run(w, Answers(pid, answers)) == World(c, l, w.processes[pid := Supervising(t)])
    decreases |answers|
  {
    hide SupervisorStep;
    if answers == [] {
      assert w.processes[pid := w.processes[pid]] == w.processes;
    } else {
      assert Answers(pid, answers)[1..] == Answers(pid, answers[1..]);
      RunAlone(Next(w, Act(pid, answers[0])), pid, answers[1..]);
    }
  }

  lemma {:induction false} RunAppend(w: World, es: seq<Event>, fs: seq<Event>)
    ensures Run(w, es + fs) == Run(Run(w, es), fs)
    decreases |es|
  {
    hide Next;
    if es == [] {
      assert es + fs == fs;
    } else {
      assert (es + fs)[1..] == es[1..] + fs;
      RunAppend(Next(w, es[0]), es[1..], fs);
    }
  }

  lemma AloneAt(n: nat, k: nat, b: Board, lockFile: bool, s: Supervisor)
    requires k < |Cycle(n)|
    ensures var (c, l, t) := SupervisorStep(b, lockFile, s, Cycle(n)[k]);
            Alone(b, lockFile, s, Cycle(n)[k..]) == Alone(c, l, t, Cycle(n)[k + 1..])
  {
    hide SupervisorStep;
    assert Cycle(n)[k..][1..] == Cycle(n)[k + 1..];
  }

  /** A cycle that is not disturbed claims the issue it picked and leaves the lock free. */
  lemma CycleClaims(b: Board, n: nat)
    requires OpenReady(b, n) && NothingInProgress(b)
    ensures Alone(b, false, Locking, Cycle(n)) == (Apply(b, ClaimEdit(n)), false, Gone)
  {
    hide Apply, OpenReady, NothingInProgress, Alone;
    AloneAt(n, 0, b, false, Locking);
    AloneAt(n, 1, b, true, Locked);
    AloneAt(n, 2, b, true, Inspecting);
    AloneAt(n, 3, b, true, ListingInProgress);
    AloneAt(n, 4, b, true, ListingReady);
    assert Cycle(n)[0..] == Cycle(n);
    RunnerClaimsAlone(b, n);
  }

  lemma RunnerClaimsAlone(b: Board, n: nat)
    requires OpenReady(b, n) && NothingInProgress(b)
    ensures Alone(b, true, Running(Listing(n)), Cycle(n)[5..]) == (Apply(b, ClaimEdit(n)), false, Gone)
  {
    hide Apply, OpenReady, NothingInProgress, Alone;
    var c := Apply(b, ClaimEdit(n));
    AloneAt(n, 5, b, true, Running(Listing(n)));
    AloneAt(n, 6, b, true, Running(Viewing(n)));
    AloneAt(n, 7, b, true, Running(Claiming(n)));
    AloneAt(n, 8, c, true, Running(Working));
    AloneAt(n, 9, c, true, Running(Ended));
    AloneAt(n, 10, c, true, Releasing);
    assert Cycle(n)[11..] == [];
    AloneNone(c, false, Gone);
  }

  lemma AloneNone(b: Board, lockFile: bool, s: Supervisor)
    ensures Alone(b, lockFile, s, []) == (b, lockFile, s)
  {
  }

  lemma CycleRuns(w: World, pid: nat, n: nat)
    requires !w.lockFile && pid in w.processes && w.processes[pid] == Supervising(Locking)
    requires OpenReady(w.board, n) && NothingInProgress(w.board)
    ensures Run(w, Answers(pid, Cycle(n))).board == Apply(w.board, ClaimEdit(n))
    ensures Run(w, Answers(pid, Cycle(n))).processes == w.processes[pid := Supervising(Gone)]
  {
    hide Cycle, Answers, OpenReady, NothingInProgress, Apply, Alone, Run;
    CycleClaims(w.board, n);
    RunAlone(w, pid, Cycle(n));
  }

  lemma Swapped(b: Board, n: nat, removed: seq<string>)
    requires n in b && b[n].open
    ensures var c := Apply(b, SwapLabels(n, removed, IN_PROGRESS));
            && Busy(c, n) && c.Keys == b.Keys
            && forall m :: m in b && m != n ==> c[m] == b[m]
  {
  }

  lemma Claimed(b: Board, n: nat)
    requires OpenReady(b, n)
    ensures var c := Apply(b, ClaimEdit(n));
            && Busy(c, n) && c.Keys == b.Keys
            && forall m :: m in b && m != n ==> c[m] == b[m]
  {
    Swapped(b, n, [READY]);
  }

  /** The supervisor lists open issues only. After its cycle one issue alone carries in-progress
      exactly when no closed issue carried it before. */
  lemma ClosedWorkIsNotSeen(b: Board, n: nat)
    requires OpenReady(b, n) && NothingInProgress(b)
    ensures var c := Run(Start(b), [Spawn(0, Supervising(Locking))] + Answers(0, Cycle(n))).board;
            (forall i, j :: Carries(c, i, IN_PROGRESS) && Carries(c, j, IN_PROGRESS) ==> i == j)
            <==> forall k :: k in b && !b[k].open ==> !Carries(b, k, IN_PROGRESS)
  {
    hide Cycle, Answers, NothingInProgress, Run;
    var c := Apply(b, ClaimEdit(n));
    SpawnedCycle(b, n);
    Claimed(b, n);
    forall k | Carries(b, k, IN_PROGRESS) ensures !b[k].open { NotBusy(b, k); }
    assert Carries(c, n, IN_PROGRESS);
    forall k | k != n ensures Carries(c, k, IN_PROGRESS) == Carries(b, k, IN_PROGRESS) {}
  }

  lemma NotBusy(b: Board, k: nat)
    requires NothingInProgress(b) && Carries(b, k, IN_PROGRESS)
    ensures !b[k].open
  {
  }

  lemma SpawnedCycle(b: Board, n: nat)
    requires OpenReady(b, n) && NothingInProgress(b)
    ensures Run(Start(b), [Spawn(0, Supervising(Locking))] + Answers(0, Cycle(n))).board == Apply(b, ClaimEdit(n))
  {
    hide Cycle, Answers, OpenReady, NothingInProgress, Apply, Run;
    var start := [Spawn(0, Supervising(Locking))];
    RunAppend(Start(b), start, Answers(0, Cycle(n)));
    RunSpawn(Start(b), 0, Supervising(Locking));
    CycleRuns(Start(b).(processes := map[0 := Supervising(Locking)]), 0, n);
  }

  lemma RunSpawn(w: World, pid: nat, p: Process)
    requires pid !in w.processes && Initial(p)
    ensures Run(w, [Spawn(pid, p)]) == w.(processes := w.processes[pid := p])
  {
    assert [Spawn(pid, p)][1..] == [];
  }

  lemma RunAct(w: World, pid: nat, a: Answer)
    ensures Run(w, [Act(pid, a)]) == Next(w, Act(pid, a))
  {
    assert [Act(pid, a)][1..] == [];
  }

  /** The reporter's claim takes no lock: it chooses issue k, a supervisor cycle claims issue n, and then
      the reporter's edit lands. */
  function Race(k: nat, n: nat): seq<Event> {
    [Spawn(0, Supervising(Locking))] + [Spawn(1, Dispatching(Choosing))] + [Act(1, Pick(k))]
    + Answers(0, Cycle(n)) + [Act(1, Ok)]
  }

  /** The reporter has chosen, or makes its first edit. */
  lemma ReporterPicks(w: World, pid: nat, k: nat)
    requires pid in w.processes && w.processes[pid] == Dispatching(Choosing) && OpenReady(w.board, k)
    requires StatusLabels(w.board[k].labels) == [READY]
    ensures var edits := ReplaceEdits(k, w.board[k].labels, w.board[k].body, IN_PROGRESS, true);
            Run(w, [Act(pid, Pick(k))]) == w.(processes := w.processes[pid := Dispatching(Claims(edits))])
  {
    RunAct(w, pid, Pick(k));
    hide Run, ReplaceEdits;
  }

  lemma ReporterEdits(w: World, pid: nat, edits: seq<Edit>)
    requires pid in w.processes && w.processes[pid] == Dispatching(Claims(edits)) && edits != []
    ensures Run(w, [Act(pid, Ok)]).board == Apply(w.board, edits[0])
  {
    RunAct(w, pid, Ok);
    hide Run, Apply;
  }

  lemma RaceEnds(b: Board, k: nat, n: nat)
    requires OpenReady(b, k) && OpenReady(b, n) && NothingInProgress(b)
    requires StatusLabels(b[k].labels) == [READY]
    ensures var edits := ReplaceEdits(k, b[k].labels, b[k].body, IN_PROGRESS, true);
            edits != [] && Run(Start(b), Race(k, n)).board == Apply(Apply(b, ClaimEdit(n)), edits[0])
  {
    assert k in b;
    FirstSwap(k, b[k].labels, b[k].body);
    hide Cycle, Answers, NothingInProgress, Run, ReplaceEdits, OpenReady, Apply, StatusLabels;
    var e0, e1, e2 := [Spawn(0, Supervising(Locking))], [Spawn(1, Dispatching(Choosing))], [Act(1, Pick(k))];
    var es := Answers(0, Cycle(n));
    var edits := ReplaceEdits(k, b[k].labels, b[k].body, IN_PROGRESS, true);
    var w0 := Start(b);
    RunSpawn(w0, 0, Supervising(Locking));
    var w1 := Run(w0, e0);
    RunSpawn(w1, 1, Dispatching(Choosing));
    var w2 := Run(w1, e1);
    ReporterPicks(w2, 1, k);
    var w3 := Run(w2, e2);
    CycleRuns(w3, 0, n);
    var w4 := Run(w3, es);
    ReporterEdits(w4, 1, edits);
    RunAppend(w0, e0, e1);
    RunAppend(w0, e0 + e1, e2);
    RunAppend(w0, e0 + e1 + e2, es);
    RunAppend(w0, e0 + e1 + e2 + es, [Act(1, Ok)]);
  }

  /** After that race at most one open issue is in progress exactly when both agents chose the same one. */
  lemma UnlockedClaimRaces(b: Board, k: nat, n: nat)
    requires OpenReady(b, k) && OpenReady(b, n) && NothingInProgress(b)
    requires StatusLabels(b[k].labels) == [READY]
    ensures AtMostOne(Run(Start(b), Race(k, n)).board) <==> k == n
  {
    RaceEnds(b, k, n);
    FirstSwap(k, b[k].labels, b[k].body);
    hide ReplaceEdits, Apply, OpenReady, Race, Run;
    OpenReadyIsOpen(b, k);
    Claimed(b, n);
    var c := Apply(b, ClaimEdit(n));
    Swapped(c, k, Without([READY], [IN_PROGRESS]));
    var d := Apply(c, SwapLabels(k, Without([READY], [IN_PROGRESS]), IN_PROGRESS));
    if k != n {
      assert d[n] == c[n];
      SameBusy(c, d, n);
    } else {
      forall m | Busy(d, m) ensures m == k {
        if m != k { SameBusy(d, b, m); StillIdle(b, m); }
      }
    }
  }

  lemma SameBusy(b: Board, c: Board, m: nat)
    requires m in b && m in c && b[m] == c[m] && Busy(b, m)
    ensures Busy(c, m)
  {
  }

  lemma StillIdle(b: Board, m: nat)
    requires NothingInProgress(b)
    ensures !Busy(b, m)
  {
  }

  lemma OpenReadyIsOpen(b: Board, k: nat)
    requires OpenReady(b, k)
    ensures k in b && b[k].open
  {
  }

  lemma FirstSwap(k: nat, labels: seq<string>, body: string)
    requires StatusLabels(labels) == [READY]
    ensures var edits := ReplaceEdits(k, labels, body, IN_PROGRESS, true);
            edits != [] && edits[0] == SwapLabels(k, Without([READY], [IN_PROGRESS]), IN_PROGRESS)
  {
    hide SyncedBody, Without;
    StatusesApart();
    assert [READY][0] != [IN_PROGRESS][0];
  }
}
