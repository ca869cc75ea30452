/** scripts/local_agent_supervisor.py: the lock object, the dispatch decision and one supervisor cycle,
    with the runner child it starts (scripts/local_codex_task_runner.py). A cycle is shown to be a run
    of the queue's supervisor process. */
module Supervision {
  import opened Text
  import opened TaskStatus
  import opened Tracker
  import opened Queue
  import opened InProgress
  import opened Sorting

  // ---------------------------------------------------------------- the lock

  class Disk {
    var files: set<string>

    constructor (files: set<string>)
      ensures this.files == files
    {
      this.files := files;
    }
  }

  class FileLock {
    const path: string
    var fd: bool
    var acquired: bool

    constructor (path: string)
      ensures this.path == path && !fd && !acquired
    {
      this.path, fd, acquired := path, false, false;
    }

    /** The exclusive create and the write of the pid. An existing file is not an error, only a lock not
        acquired; a write that fails is one, and leaves the file behind. */
    method Enter(disk: Disk, writes: bool) returns (raised: bool)
      requires !fd && !acquired
      modifies this, disk
      ensures acquired <==> path !in old(disk.files) && writes
      ensures raised <==> path !in old(disk.files) && !writes
      ensures disk.files == old(disk.files) + {path}
    {
      raised := false;
      if path in disk.files {
        assert disk.files + {path} == disk.files;
        return;
      }
      disk.files := disk.files + {path};
      fd := true;
      if !writes { return true; }
      acquired := true;
    }

    /** Unlinks only what this object acquired; a file that is gone already is passed over. */
    method Exit(disk: Disk)
      modifies this, disk
      ensures !fd && acquired == old(acquired)
      ensures disk.files == if acquired then old(disk.files) - {path} else old(disk.files)
    {
      fd := false;
      if acquired { disk.files := disk.files - {path}; }
    }
  }

  // ---------------------------------------------------------------- the dispatch decision

  datatype Pr = Pr(number: nat, labels: seq<string>, open: bool, merged: bool, comments: seq<string>)

  const CHANGES_REQUESTED := "pr:changes-requested"
  const FIX_TOKEN := "@local-agent fix"

  predicate FixRequested(pr: Pr) {
    || CHANGES_REQUESTED in pr.labels
    || exists i :: 0 <= i < |pr.comments| && Contains(Lower(pr.comments[i]), FIX_TOKEN)
  }

  /** A fix is asked for by the label, or by a comment that holds the words in whatever case. */
  lemma FixMeans(pr: Pr)
    ensures FixRequested(pr) <==>
              || "pr:changes-requested" in pr.labels
              || exists i, j :: 0 <= i < |pr.comments| && HasWordsAt(pr.comments[i], "@local-agent fix", j)
  {
    hide Lower;
    forall i, j | 0 <= i < |pr.comments|
      ensures HasWordsAt(pr.comments[i], FIX_TOKEN, j)
              <==> 0 <= j <= |pr.comments[i]| && FIX_TOKEN <= Lower(pr.comments[i])[j..]
    {
      WordsFold(pr.comments[i], FIX_TOKEN, j);
    }
    if i :| 0 <= i < |pr.comments| && Contains(Lower(pr.comments[i]), FIX_TOKEN) {
      var j :| 0 <= j <= |Lower(pr.comments[i])| && FIX_TOKEN <= Lower(pr.comments[i])[j..];
      assert HasWordsAt(pr.comments[i], FIX_TOKEN, j);
    }
    if i, j :| 0 <= i < |pr.comments| && HasWordsAt(pr.comments[i], FIX_TOKEN, j) {
      assert Contains(Lower(pr.comments[i]), FIX_TOKEN);
    }
  }

  predicate HasWordsAt(s: string, words: string, j: int) { 0 <= j && j + |words| <= |s| && AnyCase(s[j..j + |words|], words) }

  lemma WordsFold(s: string, words: string, j: int)
    requires forall k :: 0 <= k < |words| ==> !('A' <= words[k] <= 'Z') && words[k] < '\U{80}'
    ensures HasWordsAt(s, words, j) <==> 0 <= j <= |s| && words <= Lower(s)[j..]
  {
    if 0 <= j && j + |words| <= |s| {
      var part := s[j..j + |words|];
      SameCase(part, words);
      assert Lower(part) == Lower(s)[j..][..|words|];
    }
  }

  predicate NeedsFix(pr: Pr) { pr.open && !pr.merged && FixRequested(pr) }

  predicate LowerNumber(a: Pr, b: Pr) { a.number < b.number }

  /** The least-numbered open pull request that asks for a fix. */
  ghost predicate Chosen(prs: seq<Pr>, r: Option<Pr>) {
    && (r.None? <==> forall pr :: pr in prs ==> !NeedsFix(pr))
    && (r.Some? ==> r.value in prs && NeedsFix(r.value)
                    && forall pr :: pr in prs && NeedsFix(pr) ==> r.value.number <= pr.number)
  }

  method SelectPrForFix(prs: seq<Pr>) returns (r: Option<Pr>)
    ensures Chosen(prs, r)
  {
    hide FixRequested, Sorted;
    var sorted := Sorted(prs, LowerNumber);
    SortedAscending(prs, LowerNumber);
    for i := 0 to |sorted|
      invariant forall j :: 0 <= j < i ==> !NeedsFix(sorted[j])
    {
      if !sorted[i].open || sorted[i].merged { continue; }
      if FixRequested(sorted[i]) {
        assert sorted[i] in sorted;
        forall pr | pr in prs && NeedsFix(pr) ensures sorted[i].number <= pr.number {
          var j :| 0 <= j < |sorted| && sorted[j] == pr;
        }
        return Some(sorted[i]);
      }
    }
    forall pr | pr in prs ensures !NeedsFix(pr) {
      var j :| 0 <= j < |sorted| && sorted[j] == pr;
    }
    return None;
  }

  /** list_issues: the open issues with a label. */
  function OpenWith(b: Board, tag: string): set<nat> { set n | n in b && Carries(b, n, tag) && b[n].open }

  lemma {:induction false} LeastExists(s: set<nat>, x: nat)
    requires x in s
    ensures exists n :: n in s && forall m :: m in s ==> n <= m
    decreases x
  {
    if m :| m in s && m < x { LeastExists(s, m); }
  }

  function Least(s: set<nat>): (n: nat)
    requires s != {}
    ensures n in s && forall m :: m in s ==> n <= m
  {
    var x :| x in s;
    LeastExists(s, x);
    var n :| n in s && forall m :: m in s ==> n <= m;
    n
  }

  lemma OpenWithReady(b: Board, n: nat)
    ensures n in OpenWith(b, READY) <==> OpenReady(b, n)
  {
  }

  // ---------------------------------------------------------------- one cycle

  /** Everything outside the process: each call may fail, before or after it took effect. */
  class Outside {
    const faulty: bool

    constructor (faulty: bool)
      ensures this.faulty == faulty
    {
      this.faulty := faulty;
    }

    method Reply() returns (a: Answer)
      ensures a.Ok? || (faulty && a.Fails?)
    {
      var fails: bool, applied: bool := *, *;
      a := if faulty && fails then Fails(applied) else Ok;
    }
  }

  lemma {:induction false} AloneAppend(b: Board, l: bool, s: Supervisor, xs: seq<Answer>, ys: seq<Answer>)
    ensures var (c, m, t) := Alone(b, l, s, xs); Alone(b, l, s, xs + ys) == Alone(c, m, t, ys)
    decreases |xs|
  {
    hide SupervisorStep;
    if xs == [] {
      assert xs + ys == ys;
    } else {
      assert (xs + ys)[1..] == xs[1..] + ys;
      var (c, m, t) := SupervisorStep(b, l, s, xs[0]);
      AloneAppend(c, m, t, xs[1..], ys);
    }
  }

  lemma AloneOnce(b: Board, l: bool, s: Supervisor, a: Answer)
    ensures Alone(b, l, s, [a]) == SupervisorStep(b, l, s, a)
  {
    assert [a][1..] == [];
  }

  lemma AloneMore(b: Board, l: bool, s: Supervisor, xs: seq<Answer>, a: Answer)
    ensures var (c, m, t) := Alone(b, l, s, xs); Alone(b, l, s, xs + [a]) == SupervisorStep(c, m, t, a)
  {
    hide SupervisorStep;
    AloneAppend(b, l, s, xs, [a]);
    var (c, m, t) := Alone(b, l, s, xs);
    AloneOnce(c, m, t, a);
  }

  predicate Claimable(b: Board, n: nat) { NothingInProgress(b) && OpenReady(b, n) }

  /** The runner child started with --issue-number: its own check for work in progress, its own view of
      the issue, the claim, and then work that touches no issue. */
  method RunRunner(client: GitHub, outside: Outside, number: nat) returns (ok: bool, ghost trace: seq<Answer>)
    modifies client
    ensures Alone(old(client.issues), true, Running(Listing(number)), trace) == (client.issues, true, Running(Ended))
    ensures client.issues == old(client.issues)
         || (Claimable(old(client.issues), number) && client.issues == Apply(old(client.issues), ClaimEdit(number)))
    ensures ok ==> Claimable(old(client.issues), number) && client.issues == Apply(old(client.issues), ClaimEdit(number))
    ensures !outside.faulty ==> ok == Claimable(old(client.issues), number)
  {
    hide NothingInProgress, OpenReady, Apply, Alone;
    ghost var b := client.issues;
    ghost var s := Running(Listing(number));
    trace := [];
    AloneNone(b, true, s);
    var a := outside.Reply();
    AloneMore(b, true, s, trace, a);
    trace := trace + [a];
    if !a.Ok? || !NothingInProgress(client.issues) { return false, trace; }
    a := outside.Reply();
    AloneMore(b, true, s, trace, a);
    trace := trace + [a];
    if !a.Ok? || !OpenReady(client.issues, number) { return false, trace; }
    a := outside.Reply();
    AloneMore(b, true, s, trace, a);
    trace := trace + [a];
    if a != Fails(false) { client.issues := Apply(client.issues, ClaimEdit(number)); }
    if !a.Ok? { return false, trace; }
    a := outside.Reply();
    AloneMore(b, true, s, trace, a);
    trace := trace + [a];
    ok := a.Ok?;
  }

  datatype Outcome =
    | LockHeld
    | PidNotWritten
    | Failed
    | Dirty
    | Fixing(pr: nat)
    | WorkInProgress
    | NothingReady
    | Planned(number: nat)
    | Dispatched(number: nat, completed: bool)

  /** What the cycle decides when nothing outside fails. */
  ghost predicate Decided(b: Board, held: bool, dirty: bool, prs: seq<Pr>, dryRun: bool, r: Outcome) {
    if held then r == LockHeld
    else if dirty then r == Dirty
    else if exists pr :: pr in prs && NeedsFix(pr) then r.Fixing? && exists pr: Pr :: Chosen(prs, Some(pr)) && pr.number == r.pr
    else if !NothingInProgress(b) then r == WorkInProgress
    else if OpenWith(b, READY) == {} then r == NothingReady
    else if dryRun then r == Planned(Least(OpenWith(b, READY)))
    else r == Dispatched(Least(OpenWith(b, READY)), true)
  }

  /** execute: one cycle of the supervisor on one lock path. */
  class Cycle {
    const lockPath: string
    const dirty: bool
    const prs: seq<Pr>
    const dryRun: bool

    constructor (lockPath: string, dirty: bool, prs: seq<Pr>, dryRun: bool)
      ensures this.lockPath == lockPath && this.dirty == dirty && this.prs == prs && this.dryRun == dryRun
    {
      this.lockPath, this.dirty, this.prs, this.dryRun := lockPath, dirty, prs, dryRun;
    }

    /** The body of the cycle, under the lock. */
    method Dispatch(client: GitHub, outside: Outside) returns (r: Outcome, ghost trace: seq<Answer>)
      modifies client
      ensures !r.LockHeld? && !r.PidNotWritten?
      ensures client.issues == old(client.issues) || (r.Dispatched? && client.issues == Apply(old(client.issues), ClaimEdit(r.number)))
      ensures r.Dispatched? ==>
                && OpenWith(old(client.issues), READY) != {} && r.number == Least(OpenWith(old(client.issues), READY))
                && NothingInProgress(old(client.issues)) && !dryRun && !dirty && forall pr :: pr in prs ==> !NeedsFix(pr)
      ensures r.Dispatched? && r.completed ==> client.issues == Apply(old(client.issues), ClaimEdit(r.number))
      ensures !outside.faulty ==> Decided(old(client.issues), false, dirty, prs, dryRun, r)
      ensures Alone(old(client.issues), true, Inspecting, trace) == (client.issues, true, Releasing)
    {
      hide NothingInProgress, Apply, Alone, FixRequested, NeedsFix, OpenReady, Least;
      ghost var b := client.issues;
      trace := [Fails(false)];
      AloneOnce(b, true, Inspecting, Fails(false));
      var a := outside.Reply();
      if !a.Ok? { return Failed, trace; }
      if dirty { return Dirty, trace; }
      var _ := outside.Reply();
      a := outside.Reply();
      if !a.Ok? { return Failed, trace; }
      var pr := SelectPrForFix(prs);
      if pr.Some? {
        a := Ok;
        if !dryRun { a := outside.Reply(); }
        return if a.Ok? then Fixing(pr.value.number) else Failed, trace;
      }
      AloneOnce(b, true, Inspecting, Ok);
      a := outside.Reply();
      AloneMore(b, true, Inspecting, [Ok], a);
      trace := [Ok, a];
      assert [Ok] + [a] == trace;
      if !a.Ok? { return Failed, trace; }
      if !NothingInProgress(client.issues) { return WorkInProgress, trace; }
      a := outside.Reply();
      AloneMore(b, true, Inspecting, trace, a);
      ghost var sofar := trace;
      trace := trace + [a];
      if !a.Ok? { return Failed, trace; }
      if OpenWith(client.issues, READY) == {} { return NothingReady, trace; }
      var number := Least(OpenWith(client.issues, READY));
      if dryRun { return Planned(number), trace; }
      assert OpenReady(b, number) by { OpenWithReady(b, number); }
      AloneMore(b, true, Inspecting, sofar, Pick(number));
      ghost var more;
      var completed;
      completed, more := RunRunner(client, outside, number);
      AloneAppend(b, true, Inspecting, sofar + [Pick(number)], more);
      trace := sofar + [Pick(number)] + more;
      AloneMore(b, true, Inspecting, trace, Ok);
      trace := trace + [Ok];
      r := Dispatched(number, completed);
    }

    method Execute(disk: Disk, client: GitHub, outside: Outside, writes: bool) returns (r: Outcome, ghost trace: seq<Answer>)
      modifies disk, client
      ensures lockPath in old(disk.files) ==> r == LockHeld
      ensures r.PidNotWritten? <==> lockPath !in old(disk.files) && !writes
      ensures disk.files == if r.PidNotWritten? then old(disk.files) + {lockPath} else old(disk.files)
      ensures client.issues == old(client.issues)
           || (r.Dispatched? && OpenWith(old(client.issues), READY) != {} && r.number == Least(OpenWith(old(client.issues), READY))
               && NothingInProgress(old(client.issues)) && !dryRun && !dirty && (forall pr :: pr in prs ==> !NeedsFix(pr))
               && client.issues == Apply(old(client.issues), ClaimEdit(r.number)))
      ensures !outside.faulty && writes ==> Decided(old(client.issues), lockPath in old(disk.files), dirty, prs, dryRun, r)
      ensures Alone(old(client.issues), lockPath in old(disk.files), Locking, trace)
           == (client.issues, lockPath in disk.files, if r.PidNotWritten? then Leaked else Gone)
    {
      assert Decided(client.issues, true, dirty, prs, dryRun, LockHeld);
      hide NothingInProgress, Apply, Alone, Decided, OpenWith, FixRequested;
      ghost var b := client.issues;
      ghost var held := lockPath in disk.files;
      var lock := new FileLock(lockPath);
      var raised := lock.Enter(disk, writes);
      AloneOnce(b, held, Locking, Ok);
      trace := [Ok];
      if !raised && !lock.acquired {
        lock.Exit(disk);
        return LockHeld, trace;
      }
      if raised {
        AloneMore(b, held, Locking, trace, Fails(false));
        trace := trace + [Fails(false)];
        return PidNotWritten, trace;
      }
      AloneMore(b, held, Locking, trace, Ok);
      trace := trace + [Ok];
      ghost var more;
      r, more := Dispatch(client, outside);
      AloneAppend(b, held, Locking, trace, more);
      trace := trace + more;
      lock.Exit(disk);
      AloneMore(b, held, Locking, trace, Ok);
      trace := trace + [Ok];
      assert disk.files == old(disk.files);
    }
  }
}
