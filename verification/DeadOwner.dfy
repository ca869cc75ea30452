/** The lock file of an owner that is dead: nobody removes it. When the lock can still be freed, and how it
    comes to an owner's death. */
module DeadOwner {
  import opened Tracker
  import opened Watcher
  import opened Queue

  /** Past the exclusive create and never to reach the unlink. */
  predicate Dead(p: Process) { p.Supervising? && (p.sup.Leaked? || p.sup.Orphaned?) }

  /** The two ways to die: killed while holding the lock, or failing to write the pid. */
  lemma DiesExactly(b: Board, lockFile: bool, s: Supervisor, a: Answer)
    ensures var (_, _, t) := SupervisorStep(b, lockFile, s, a);
            Dead(Supervising(t)) <==>
              || Dead(Supervising(s))
              || (HoldsLock(Supervising(s)) && (a.Killed? || (s.Locked? && !a.Ok?)))
  {
    hide RunnerStep;
  }

  /** A supervisor whose pid cannot be written leaves the file behind, on any board. */
  lemma PidNotWritten(b: Board, pid: nat)
    ensures Run(Start(b), [Spawn(pid, Supervising(Locking)), Act(pid, Ok), Act(pid, Fails(false))])
         == World(b, true, map[pid := Supervising(Leaked)])
  {
    var es := [Spawn(pid, Supervising(Locking)), Act(pid, Ok), Act(pid, Fails(false))];
    var started := World(b, false, map[pid := Supervising(Locking)]);
    var locked := World(b, true, map[pid := Supervising(Locked)]);
    assert Next(Start(b), es[0]) == started;
    assert Next(started, es[1]) == locked;
    assert Next(locked, es[2]) == World(b, true, map[pid := Supervising(Leaked)]);
    assert es[1..] == [es[1], es[2]] && es[1..][1..] == [es[2]] && [es[2]][1..] == [];
    hide Next;
    assert Run(started, es[1..]) == Run(locked, [es[2]]);
    assert Run(locked, [es[2]]) == Run(Next(locked, es[2]), []);
  }

  // ---------------------------------------------------------------- for ever

  lemma NextStaysDead(w: World, e: Event, p: nat)
    requires LockInv(w) && p in w.processes && Dead(w.processes[p])
    ensures var v := Next(w, e);
            p in v.processes && Dead(v.processes[p]) && v.processes[p].sup.Leaked? == w.processes[p].sup.Leaked?
  {
    hide RunnerStep, WatcherStep, DispatcherStep, LockInv, Initial;
  }

  /** A dead owner keeps the lock: whatever happens afterwards the file stays, and every other supervisor is
      still before its exclusive create or has turned away. */
  lemma {:induction false} LockedForGood(w: World, es: seq<Event>, p: nat)
    requires LockInv(w) && p in w.processes && Dead(w.processes[p])
    ensures var v := Run(w, es);
            && v.lockFile && p in v.processes && Dead(v.processes[p])
            && v.processes[p].sup.Leaked? == w.processes[p].sup.Leaked?
            && forall q :: q in v.processes && q != p && v.processes[q].Supervising? ==> v.processes[q].sup.Locking? || v.processes[q].sup.Gone?
    decreases |es|
  {
    hide LockInv, Dead, Next, Initial;
    if es == [] {
      OnlyHolder(w, p);
    } else {
      NextLock(w, es[0]);
      NextStaysDead(w, es[0], p);
      LockedForGood(Next(w, es[0]), es[1..], p);
    }
  }

  lemma OnlyHolder(w: World, p: nat)
    requires LockInv(w) && p in w.processes && Dead(w.processes[p])
    ensures w.lockFile
    ensures forall q :: q in w.processes && q != p && w.processes[q].Supervising? ==> w.processes[q].sup.Locking? || w.processes[q].sup.Gone?
  {
    assert HoldsLock(w.processes[p]);
  }

  // ---------------------------------------------------------------- as long as it lives

  /** Steps a living owner is away from its unlink when everything fails. */
  function ToUnlink(s: Supervisor): nat {
    match s
    case Locked => 4
    case Running(r) => if r.Ended? then 2 else 3
    case Releasing => 1
    case _ => 2
  }

  /** The answer that takes a living owner on. */
  function Onwards(s: Supervisor): Answer { if s.Locked? then Ok else Fails(false) }

  lemma StepsOn(b: Board, lockFile: bool, s: Supervisor)
    requires HoldsLock(Supervising(s)) && !Dead(Supervising(s))
    ensures var (_, l, t) := SupervisorStep(b, lockFile, s, Onwards(s));
            if s.Releasing? then !l else HoldsLock(Supervising(t)) && !Dead(Supervising(t)) && ToUnlink(t) < ToUnlink(s)
  {
    hide NothingInProgress, OpenReady, Apply;
  }

  lemma {:induction false} LivingOwnerUnlinks(w: World, p: nat) returns (es: seq<Event>)
    requires p in w.processes && HoldsLock(w.processes[p]) && !Dead(w.processes[p])
    ensures !Run(w, es).lockFile
    decreases ToUnlink(w.processes[p].sup)
  {
    hide SupervisorStep, ToUnlink;
    var s := w.processes[p].sup;
    var e := Act(p, Onwards(s));
    StepsOn(w.board, w.lockFile, s);
    if s.Releasing? {
      es := [e];
      assert es[1..] == [];
    } else {
      var rest := LivingOwnerUnlinks(Next(w, e), p);
      es := [e] + rest;
      assert es[1..] == rest;
    }
  }

  /** A lock that is held can be freed by some continuation exactly when its owner is not dead. */
  lemma FreedExactly(w: World)
    requires LockInv(w) && w.lockFile
    ensures (exists es :: !Run(w, es).lockFile) <==> forall p :: p in w.processes && HoldsLock(w.processes[p]) ==> !Dead(w.processes[p])
  {
    hide Dead, Run;
    var p :| p in w.processes && HoldsLock(w.processes[p]);
    if Dead(w.processes[p]) {
      forall es ensures Run(w, es).lockFile { LockedForGood(w, es, p); }
    } else {
      var es := LivingOwnerUnlinks(w, p);
    }
  }
}
