/** The task queue as a whole: any number of watchers, dispatchers and supervisors with their runner
    children, interleaved at the grain of single `gh` calls, any of which may fail before or after
    taking effect, on one shared board and one supervisor lock file. */
module Queue {
  import opened Text
  import opened TaskStatus
  import opened Tracker
  import opened Dependencies
  import opened Watcher

  // ---------------------------------------------------------------- processes

  /** scripts/local_codex_task_runner.py execute, up to the claim; what follows does not touch issues. */
  datatype Runner = Listing(number: nat) | Viewing(number: nat) | Claiming(number: nat) | Working | Ended

  /** scripts/local_agent_supervisor.py execute. Locked is the state between the exclusive create and
      the write of the pid; Leaked and Orphaned have died without reaching the unlink. */
  datatype Supervisor =
    | Locking
    | Locked
    | Inspecting
    | ListingInProgress
    | ListingReady
    | Running(runner: Runner)
    | Releasing
    | Gone
    | Leaked
    | Orphaned(runner: Runner)

  /** The reporter's --claim path: a selection from an earlier snapshot, then its edits. */
  datatype Dispatcher = Choosing | Claims(edits: seq<Edit>) | Finished

  datatype Process = Watching(pc: Pc) | Supervising(sup: Supervisor) | Dispatching(disp: Dispatcher)

  datatype World = World(board: Board, lockFile: bool, processes: map<nat, Process>)

  /** What the environment answers to the next call of a process. */
  datatype Answer = Ok | Pick(number: nat) | Fails(applied: bool) | Killed

  datatype Event = Spawn(pid: nat, process: Process) | Close(number: nat) | Act(pid: nat, answer: Answer)

  predicate Carries(b: Board, n: nat, tag: string) { n in b && tag in b[n].labels }

  predicate Busy(b: Board, n: nat) { Carries(b, n, IN_PROGRESS) && b[n].open }

  /** What `gh issue list --state open --label status:in-progress` finds. */
  predicate NothingInProgress(b: Board) { forall n :: n in b ==> !Busy(b, n) }

  predicate OpenReady(b: Board, n: nat) { Carries(b, n, READY) && b[n].open }

  function ClaimEdit(n: nat): Edit { SwapLabels(n, [READY], IN_PROGRESS) }

  function RunnerStep(b: Board, r: Runner, a: Answer): (Board, Runner) {
    match r
    case Listing(n) => (b, if a.Ok? && NothingInProgress(b) then Viewing(n) else Ended)
    case Viewing(n) => (b, if a.Ok? && OpenReady(b, n) then Claiming(n) else Ended)
    case Claiming(n) =>
      if a.Ok? then (Apply(b, ClaimEdit(n)), Working)
      else (if a == Fails(true) then Apply(b, ClaimEdit(n)) else b, Ended)
    case Working => (b, Ended)
    case Ended => (b, Ended)
  }

  function SupervisorStep(b: Board, lockFile: bool, s: Supervisor, a: Answer): (Board, bool, Supervisor) {
    match s
    case Locking =>
      if lockFile || !a.Ok? then (b, lockFile, Gone) else (b, true, Locked)
    case Locked => (b, lockFile, if a.Ok? then Inspecting else Leaked)
    case Inspecting => (b, lockFile, if a.Killed? then Leaked else if a.Ok? then ListingInProgress else Releasing)
    case ListingInProgress =>
      (b, lockFile, if a.Killed? then Leaked else if a.Ok? && NothingInProgress(b) then ListingReady else Releasing)
    case ListingReady =>
      (b, lockFile, if a.Killed? then Leaked
                    else if a.Pick? && OpenReady(b, a.number) then Running(Listing(a.number)) else Releasing)
    case Running(r) =>
      if a.Killed? then (b, lockFile, Orphaned(r))
      else if r.Ended? then (b, lockFile, Releasing)
      else var (c, r') := RunnerStep(b, r, a); (c, lockFile, Running(r'))
    case Orphaned(r) => var (c, r') := RunnerStep(b, r, a); (c, lockFile, Orphaned(r'))
    case Releasing => if a.Killed? then (b, lockFile, Leaked) else (b, false, Gone)
    case Gone => (b, lockFile, Gone)
    case Leaked => (b, lockFile, Leaked)
  }

  function WatcherStep(b: Board, pc: Pc, a: Answer): (Board, Pc) {
    if a.Ok? then (Step(b, pc).board, Step(b, pc).pc)
    else if a == Fails(true) && pc.Writing? && pc.edits != [] then (Apply(b, pc.edits[0]), Stopped)
    else (b, Stopped)
  }

  function DispatcherStep(b: Board, d: Dispatcher, a: Answer): (Board, Dispatcher) {
    match d
    case Choosing =>
      if a.Pick? && OpenReady(b, a.number) && StatusLabels(b[a.number].labels) == [READY]
      then (b, Claims(ReplaceEdits(a.number, b[a.number].labels, b[a.number].body, IN_PROGRESS, true)))
      else (b, Finished)
    case Claims(edits) =>
      if edits == [] || (!a.Ok? && a != Fails(true)) then (b, Finished)
      else (Apply(b, edits[0]), if a.Ok? then Claims(edits[1..]) else Finished)
    case Finished => (b, Finished)
  }

  predicate Initial(p: Process) {
    || (p.Watching? && p.pc.Resolving?)
    || p == Supervising(Locking)
    || p == Dispatching(Choosing)
  }

  function ProcessStep(b: Board, lockFile: bool, p: Process, a: Answer): (Board, bool, Process) {
    match p
    case Watching(pc) => var (c, q) := WatcherStep(b, pc, a); (c, lockFile, Watching(q))
    case Supervising(s) => var (c, l, t) := SupervisorStep(b, lockFile, s, a); (c, l, Supervising(t))
    case Dispatching(d) => var (c, e) := DispatcherStep(b, d, a); (c, lockFile, Dispatching(e))
  }

  function Next(w: World, e: Event): World {
    match e
    case Spawn(pid, p) =>
      if pid !in w.processes && Initial(p) then w.(processes := w.processes[pid := p]) else w
    case Close(n) =>
      if n in w.board then w.(board := w.board[n := w.board[n].(open := false)]) else w
    case Act(pid, a) =>
      if pid !in w.processes then w
      else
        var (c, l, q) := ProcessStep(w.board, w.lockFile, w.processes[pid], a);
        World(c, l, w.processes[pid := q])
  }

  /** Every run is a list of events; quantifying over the list quantifies over every reachable state. */
  function Run(w: World, es: seq<Event>): World
    decreases |es|
  {
    if es == [] then w else Run(Next(w, es[0]), es[1..])
  }

  function Start(b: Board): World { World(b, false, map[]) }

  // ---------------------------------------------------------------- the lock

  predicate HoldsLock(p: Process) { p.Supervising? && !p.sup.Locking? && !p.sup.Gone? }

  /** The lock file exists exactly while one process is between its exclusive create and its unlink. */
  ghost predicate LockInv(w: World) {
    && (w.lockFile ==> exists p :: p in w.processes && HoldsLock(w.processes[p]))
    && (forall p :: p in w.processes && HoldsLock(w.processes[p]) ==> w.lockFile)
    && (forall p, q :: p in w.processes && q in w.processes && HoldsLock(w.processes[p]) && HoldsLock(w.processes[q]) ==> p == q)
  }

  lemma ProcessLock(b: Board, lockFile: bool, p: Process, a: Answer)
    requires HoldsLock(p) ==> lockFile
    ensures var (c, l, q) := ProcessStep(b, lockFile, p, a);
            if HoldsLock(p) then l == HoldsLock(q)
            else l == (lockFile || HoldsLock(q)) && (HoldsLock(q) ==> !lockFile)
  {
    hide WatcherStep, DispatcherStep, RunnerStep;
  }

  lemma NextLock(w: World, e: Event)
    requires LockInv(w)
    ensures LockInv(Next(w, e))
  {
    hide WatcherStep, DispatcherStep, SupervisorStep, ProcessStep, HoldsLock;
    var v := Next(w, e);
    match e
    case Spawn(pid, p) =>
      InitialHoldsNot(p);
      if v.lockFile {
        var h :| h in w.processes && HoldsLock(w.processes[h]);
        assert h in v.processes && v.processes[h] == w.processes[h];
      }
    case Close(n) => assert v.processes == w.processes;
    case Act(pid, a) =>
      if pid in w.processes {
        ProcessLock(w.board, w.lockFile, w.processes[pid], a);
        assert forall p :: p in v.processes && p != pid ==> p in w.processes && v.processes[p] == w.processes[p];
        if v.lockFile && !HoldsLock(v.processes[pid]) {
          var h :| h in w.processes && HoldsLock(w.processes[h]);
          assert h in v.processes && HoldsLock(v.processes[h]);
        }
      }
  }

  lemma InitialHoldsNot(p: Process)
    ensures Initial(p) ==> !HoldsLock(p)
  {
  }

  /** In every interleaving the lock file and its one holder go together. */
  lemma {:induction false} LockAlways(w: World, es: seq<Event>)
    requires LockInv(w)
    ensures LockInv(Run(w, es))
    decreases |es|
  {
    if es != [] {
      NextLock(w, es[0]);
      LockAlways(Next(w, es[0]), es[1..]);
    }
  }

  /** The unlink at the end of a cycle always finds the file it removes. */
  lemma ReleaseFindsFile(w: World, es: seq<Event>, pid: nat)
    requires LockInv(w)
    requires var v := Run(w, es); pid in v.processes && v.processes[pid] == Supervising(Releasing)
    ensures Run(w, es).lockFile
  {
    LockAlways(w, es);
  }

  // ---------------------------------------------------------------- the watcher alone is one of the runs

  /** The undisturbed watcher run that process_merged_pr is shown to be is a run of this queue. */
  lemma SoloIsARun(w: World, pid: nat, pc: Pc) returns (es: seq<Event>)
    requires pid in w.processes && w.processes[pid] == Watching(pc)
    ensures Run(w, es) == World(Solo(w.board, pc).0, w.lockFile, w.processes[pid := Watching(Stopped)])
    decreases Stage(pc), Ids(pc), Phase(pc), Work(pc)
  {
    hide Step, Before;
    if pc.Stopped? {
      es := [];
      assert w.processes[pid := Watching(Stopped)] == w.processes;
    } else {
      StepShrinks(w.board, pc);
      var v := Next(w, Act(pid, Ok));
      var s := Step(w.board, pc);
      assert v == World(s.board, w.lockFile, w.processes[pid := Watching(s.pc)]);
      var rest := SoloIsARun(v, pid, s.pc);
      es := [Act(pid, Ok)] + rest;
      assert es[1..] == rest;
      assert Solo(w.board, pc).0 == Solo(s.board, s.pc).0 by { BeforeBoard(s.notes, Solo(s.board, s.pc)); }
      assert v.processes[pid := Watching(Stopped)] == w.processes[pid := Watching(Stopped)];
    }
  }

  lemma BeforeBoard(notes: seq<Note>, r: (Board, seq<Note>))
    ensures Before(notes, r).0 == r.0
  {
  }
}
