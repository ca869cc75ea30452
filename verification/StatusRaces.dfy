/** Two watcher runs side by side, step by step in the queue: how an issue ends with two statuses, and
    how, with one claim in between, it ends with none. */
module StatusRaces {
  import opened Text
  import opened TaskStatus
  import opened Tracker
  import opened Dependencies
  import opened Watcher
  import opened Queue
  import opened InProgress
  import opened MergedDependencies
  import opened Unblocking
  import opened Restart

  // ---------------------------------------------------------------- many steps of one watcher

  function Acts(pid: nat, steps: nat): seq<Event> { seq(steps, i => Act(pid, Ok)) }

  /** The world with one watcher at another place. */
  function At(w: World, b: Board, pid: nat, pc: Pc): World { World(b, w.lockFile, w.processes[pid := Watching(pc)]) }

  lemma {:induction false} RunActs(w: World, pid: nat, steps: nat)
    requires pid in w.processes && w.processes[pid].Watching?
    ensures var (c, q) := After(w.board, w.processes[pid].pc, steps); Run(w, Acts(pid, steps)) == At(w, c, pid, q)
    decreases steps
  {
    hide Step;
    var pc := w.processes[pid].pc;
    if steps == 0 {
      assert w.processes[pid := Watching(pc)] == w.processes;
    } else {
      assert Acts(pid, steps)[1..] == Acts(pid, steps - 1);
      var s := Step(w.board, pc);
      var v := Next(w, Act(pid, Ok));
      assert v == At(w, s.board, pid, s.pc);
      RunActs(v, pid, steps - 1);
      var (c, q) := After(s.board, s.pc, steps - 1);
      assert v.processes[pid := Watching(q)] == w.processes[pid := Watching(q)];
    }
  }

  lemma {:induction false} AfterMore(b: Board, pc: Pc, j: nat, k: nat)
    ensures var (c, q) := After(b, pc, j); After(b, pc, j + k) == After(c, q, k)
    decreases j
  {
    hide Step;
    if j > 0 { AfterMore(Step(b, pc).board, Step(b, pc).pc, j - 1, k); }
  }

  lemma AfterOne(b: Board, pc: Pc)
    ensures After(b, pc, 1) == (Step(b, pc).board, Step(b, pc).pc)
  {
    hide Step;
    assert After(Step(b, pc).board, Step(b, pc).pc, 0) == (Step(b, pc).board, Step(b, pc).pc);
  }

  lemma {:induction false} AfterWriting(b: Board, edits: seq<Edit>, next: Pc)
    ensures After(b, Writing(edits, next), |edits|) == (ApplyAll(b, edits), Writing([], next))
    decreases |edits|
  {
    hide Apply;
    if edits != [] {
      assert Step(b, Writing(edits, next)) == StepResult(Apply(b, edits[0]), Writing(edits[1..], next), []);
      AfterWriting(Apply(b, edits[0]), edits[1..], next);
    }
  }

  /** All edits and the step off them. */
  lemma AfterWritten(b: Board, edits: seq<Edit>, next: Pc)
    ensures After(b, Writing(edits, next), |edits| + 1) == (ApplyAll(b, edits), next)
  {
    AfterWriting(b, edits, next);
    AfterMore(b, Writing(edits, next), |edits|, 1);
    AfterOne(ApplyAll(b, edits), Writing([], next));
    hide ApplyAll, After;
  }

  // ---------------------------------------------------------------- a run that frees one issue

  /** Issue d unblocks issue n alone, and n waits for nothing but d that is not merged. */
  ghost predicate Frees(b: Board, d: nat, id: string, n: nat) {
    && d in b && n in b && n != d && FindIssue(b, id) == Some(n) && Unblocked(b, d) == [id]
    && Field(DEPENDS_ON, b[n].body).Some? && MERGED !in b[n].labels
    && forall e :: e in DependsOn(b, n) ==> FindIssue(b, e) == Some(d) || IsMerged(b, e)
  }

  lemma {:induction false} AfterChecking(b: Board, pc: Pc)
    requires pc.Checking? && pc.unresolved == [] && pc.missing == [] && forall e :: e in pc.deps ==> IsMerged(b, e)
    ensures After(b, pc, |pc.deps|) == (b, pc.(deps := []))
    decreases |pc.deps|
  {
    hide FindIssue;
    if pc.deps != [] {
      assert IsMerged(b, pc.deps[0]) by { assert pc.deps[0] in pc.deps; }
      var q := pc.(deps := pc.deps[1..]);
      assert Step(b, pc) == StepResult(b, q, []);
      assert forall e :: e in q.deps ==> e in pc.deps;
      AfterChecking(b, q);
    }
  }

  function ReadyEdits(b: Board, n: nat): seq<Edit>
    requires n in b
  {
    ReplaceEdits(n, b[n].labels, b[n].body, READY, false)
  }

  function StepsToDecide(b: Board, n: nat): nat
    requires n in b
  {
    3 + |DependsOn(b, n)|
  }

  /** From its own issue merged to the decision about n. */
  lemma AfterRefreshing(b: Board, d: nat, id: string, n: nat)
    requires Frees(b, d, id, n) && MERGED in b[d].labels
    ensures After(b, Refreshing(d), StepsToDecide(b, n)) == (b, Readies(b, n))
  {
    hide FindIssue, Field, TaskList, ReplaceEdits, After;
    var deps := DependsOn(b, n);
    var start := Checking(id, n, b[n].labels, b[n].body, deps, [], [], []);
    var done := start.(deps := []);
    assert Step(b, Refreshing(d)) == StepResult(b, Scanning([id]), []);
    assert Step(b, Scanning([id])) == StepResult(b, start, []) by { assert [id][1..] == []; }
    assert Step(b, done).board == b && Step(b, done).pc == Writing(ReadyEdits(b, n), Scanning([]));
    hide Step;
    forall e | e in deps ensures IsMerged(b, e) {}
    AfterChecking(b, start);
    AfterOne(b, Refreshing(d));
    AfterOne(b, Scanning([id]));
    AfterOne(b, done);
    AfterMore(b, Refreshing(d), 1, 2 + |deps|);
    AfterMore(b, Scanning([id]), 1, 1 + |deps|);
    AfterMore(b, start, |deps|, 1);
  }

  /** c has d merged as well and is otherwise, labels of others included, what b is. */
  ghost predicate OnlyMarks(b: Board, d: nat, c: Board) {
    && d in b && c.Keys == b.Keys && (forall k :: k in b && k != d ==> c[k] == b[k])
    && c[d].title == b[d].title && Field(UNBLOCKS, c[d].body) == Field(UNBLOCKS, b[d].body)
    && Field(DEPENDS_ON, c[d].body) == Field(DEPENDS_ON, b[d].body) && MERGED in c[d].labels
  }

  lemma MarkedOnly(b: Board, d: nat)
    requires d in b
    ensures OnlyMarks(b, d, Marked(b, d, MERGED))
  {
    hide Field, Marked;
    MarkedMerged(b, d);
  }

  lemma FreesStill(b: Board, d: nat, id: string, n: nat, c: Board)
    requires Frees(b, d, id, n) && OnlyMarks(b, d, c)
    ensures Frees(c, d, id, n)
  {
    hide Field, TaskList, FindIssue;
    assert Grows(b, c);
    SameFind(b, c, id);
    assert DependsOn(c, n) == DependsOn(b, n) && Unblocked(c, d) == Unblocked(b, d);
    forall e | e in DependsOn(c, n) ensures FindIssue(c, e) == Some(d) || IsMerged(c, e) { SameFind(b, c, e); }
  }

  function MergedEdits(b: Board, n: nat): seq<Edit>
    requires n in b
  {
    ReplaceEdits(n, b[n].labels, b[n].body, MERGED, false)
  }

  predicate ResolvesTo(b: Board, pr: PullRequest, n: nat) {
    pr.merged && ResolveTaskIssue(b, pr).Some? && ResolveTaskIssue(b, pr).value.1 == n
  }

  /** About to write merged, or ready, on n. */
  function Marks(b: Board, n: nat): Pc
    requires n in b
  {
    Writing(MergedEdits(b, n), Refreshing(n))
  }

  function Readies(b: Board, n: nat): Pc
    requires n in b
  {
    Writing(ReadyEdits(b, n), Scanning([]))
  }

  lemma AfterResolving(b: Board, pr: PullRequest, d: nat)
    requires ResolvesTo(b, pr, d)
    ensures d in b && After(b, Resolving(pr), 1) == (b, Marks(b, d))
  {
    hide ResolveTaskIssue, ReplaceEdits;
    AfterOne(b, Resolving(pr));
  }

  function StepsToFree(edits: seq<Edit>, c: Board, n: nat): nat
    requires n in c
  {
    |edits| + 1 + StepsToDecide(c, n)
  }

  /** From the pending edits for d, made on b, to the pending edits for n. */
  lemma AfterFreeing(b: Board, edits: seq<Edit>, d: nat, id: string, n: nat, c: Board)
    requires d in c && n in c && Frees(c, d, id, n) && MERGED in c[d].labels && c == ApplyAll(b, edits)
    ensures After(b, Writing(edits, Refreshing(d)), StepsToFree(edits, c, n)) == (c, Readies(c, n))
  {
    hide ApplyAll, After, Frees, StepsToDecide, ReplaceEdits;
    AfterWritten(b, edits, Refreshing(d));
    AfterRefreshing(c, d, id, n);
    AfterMore(b, Writing(edits, Refreshing(d)), |edits| + 1, StepsToDecide(c, n));
  }

  // ---------------------------------------------------------------- two statuses

  predicate Stands(w: World, b: Board, p: nat, pc: Pc, q: nat, qc: Pc) {
    w.board == b && !w.lockFile && w.processes == map[p := Watching(pc), q := Watching(qc)]
  }

  /** Watcher p steps on, watcher q waits. */
  lemma Turn(w: World, b: Board, p: nat, pc: Pc, q: nat, qc: Pc, steps: nat, c: Board, pd: Pc)
    requires p != q && Stands(w, b, p, pc, q, qc) && After(b, pc, steps) == (c, pd)
    ensures Stands(Run(w, Acts(p, steps)), c, p, pd, q, qc) && Stands(Run(w, Acts(p, steps)), c, q, qc, p, pd)
  {
    hide Run, Acts, After;
    RunActs(w, p, steps);
    assert w.processes[p := Watching(pd)] == map[p := Watching(pd), q := Watching(qc)] == map[q := Watching(qc), p := Watching(pd)];
  }

  lemma Begin(b: Board, pr0: PullRequest, pr1: PullRequest)
    ensures Stands(Run(Start(b), Spawns(pr0, pr1)), b, 1, Resolving(pr1), 0, Resolving(pr0))
  {
    hide Run;
    RunSpawn(Start(b), 0, Watching(Resolving(pr0)));
    var v := Run(Start(b), [Spawn(0, Watching(Resolving(pr0)))]);
    RunSpawn(v, 1, Watching(Resolving(pr1)));
    RunAppend(Start(b), [Spawn(0, Watching(Resolving(pr0)))], [Spawn(1, Watching(Resolving(pr1)))]);
    assert map[0 := Watching(Resolving(pr0))][1 := Watching(Resolving(pr1))]
      == map[1 := Watching(Resolving(pr1)), 0 := Watching(Resolving(pr0))];
  }

  function Spawns(pr0: PullRequest, pr1: PullRequest): seq<Event> {
    [Spawn(0, Watching(Resolving(pr0)))] + [Spawn(1, Watching(Resolving(pr1)))]
  }

  /** Both watchers have read their issue. */
  function BothRead(pr0: PullRequest, pr1: PullRequest): seq<Event> { Spawns(pr0, pr1) + Acts(1, 1) + Acts(0, 1) }

  lemma HaveRead(b: Board, pr0: PullRequest, pr1: PullRequest, d: nat, e: nat)
    requires ResolvesTo(b, pr0, d) && ResolvesTo(b, pr1, e)
    ensures d in b && e in b && Stands(Run(Start(b), BothRead(pr0, pr1)), b, 0, Marks(b, d), 1, Marks(b, e))
  {
    AfterResolving(b, pr1, e);
    AfterResolving(b, pr0, d);
    hide Run, Acts, ResolvesTo, After, Marks, Stands, Spawns;
    Begin(b, pr0, pr1);
    var w := Run(Start(b), Spawns(pr0, pr1));
    Turn(w, b, 1, Resolving(pr1), 0, Resolving(pr0), 1, b, Marks(b, e));
    Turn(Run(w, Acts(1, 1)), b, 0, Resolving(pr0), 1, Marks(b, e), 1, b, Marks(b, d));
    RunAppend(Start(b), Spawns(pr0, pr1), Acts(1, 1));
    RunAppend(Start(b), Spawns(pr0, pr1) + Acts(1, 1), Acts(0, 1));
  }

  /** The first goes on up to its decision about n, on the board m it marked. */
  function ToDecision(b: Board, pr0: PullRequest, pr1: PullRequest, d: nat, m: Board, n: nat): seq<Event>
    requires d in b && n in m
  {
    BothRead(pr0, pr1) + Acts(0, StepsToFree(MergedEdits(b, d), m, n))
  }

  lemma StillFrees(b: Board, d: nat, id: string, n: nat, m: Board)
    requires Frees(b, d, id, n) && m == Marked(b, d, MERGED)
    ensures n in b && n in m && m[n] == b[n] && MERGED !in b[n].labels && d in m && MERGED in m[d].labels && Frees(m, d, id, n)
  {
    hide Marked, Unblocked, DependsOn, FindIssue, Field, IsMerged;
    MarkedOnly(b, d);
    FreesStill(b, d, id, n, m);
  }

  lemma Decided(b: Board, pr0: PullRequest, pr1: PullRequest, d: nat, id: string, n: nat, e: nat, m: Board)
    requires Frees(b, d, id, n) && ResolvesTo(b, pr0, d) && ResolvesTo(b, pr1, e) && m == Marked(b, d, MERGED)
    ensures e in b && n in m && Stands(Run(Start(b), ToDecision(b, pr0, pr1, d, m, n)), m, 1, Marks(b, e), 0, Readies(m, n))
  {
    StillFrees(b, d, id, n, m);
    HaveRead(b, pr0, pr1, d, e);
    assert Marks(b, d) == Writing(MergedEdits(b, d), Refreshing(d)) && m == ApplyAll(b, MergedEdits(b, d));
    hide Run, Acts, Frees, ResolvesTo, After, Marks, Readies, StepsToFree, Marked, Stands, BothRead, MergedEdits, ApplyAll;
    AfterFreeing(b, MergedEdits(b, d), d, id, n, m);
    Turn(Run(Start(b), BothRead(pr0, pr1)), b, 0, Marks(b, d), 1, Marks(b, e), StepsToFree(MergedEdits(b, d), m, n), m, Readies(m, n));
    RunAppend(Start(b), BothRead(pr0, pr1), Acts(0, StepsToFree(MergedEdits(b, d), m, n)));
  }

  /** Two watchers, the first freeing n, the second marking it merged from labels read before; the first
      writes last. */
  function BothEvents(b: Board, pr0: PullRequest, pr1: PullRequest, d: nat, m: Board, n: nat): seq<Event>
    requires d in b && n in b && n in m
  {
    ToDecision(b, pr0, pr1, d, m, n) + Acts(1, |MergedEdits(b, n)|) + Acts(0, |ReadyEdits(m, n)|)
  }

  lemma BothWrite(b: Board, pr0: PullRequest, pr1: PullRequest, d: nat, id: string, n: nat, m: Board)
    requires Frees(b, d, id, n) && ResolvesTo(b, pr0, d) && ResolvesTo(b, pr1, n) && m == Marked(b, d, MERGED)
    ensures n in m && Run(Start(b), BothEvents(b, pr0, pr1, d, m, n)).board
                   == ApplyAll(ApplyAll(m, MergedEdits(b, n)), ReadyEdits(m, n))
  {
    Decided(b, pr0, pr1, d, id, n, n, m);
    var w := Run(Start(b), ToDecision(b, pr0, pr1, d, m, n));
    var merges, readies := MergedEdits(b, n), ReadyEdits(m, n);
    assert Marks(b, n) == Writing(merges, Refreshing(n)) && Readies(m, n) == Writing(readies, Scanning([]));
    hide Run, Acts, Frees, ResolvesTo, After, ReplaceEdits, ApplyAll, Marked, ToDecision, Marks, Readies;
    var c := ApplyAll(m, merges);
    AfterWriting(m, merges, Refreshing(n));
    Turn(w, m, 1, Writing(merges, Refreshing(n)), 0, Writing(readies, Scanning([])), |merges|, c, Writing([], Refreshing(n)));
    AfterWriting(c, readies, Scanning([]));
    Turn(Run(w, Acts(1, |merges|)), c, 0, Writing(readies, Scanning([])), 1, Writing([], Refreshing(n)), |readies|,
         ApplyAll(c, readies), Writing([], Scanning([])));
    RunAppend(Start(b), ToDecision(b, pr0, pr1, d, m, n), Acts(1, |merges|));
    RunAppend(Start(b), ToDecision(b, pr0, pr1, d, m, n) + Acts(1, |merges|), Acts(0, |readies|));
  }

  /** After that run n is ready and merged at once exactly when it was not ready before. */
  lemma BothStatuses(b: Board, pr0: PullRequest, pr1: PullRequest, d: nat, id: string, n: nat)
    requires Frees(b, d, id, n) && ResolvesTo(b, pr0, d) && ResolvesTo(b, pr1, n)
    ensures n in Marked(b, d, MERGED)
    ensures var c := Run(Start(b), BothEvents(b, pr0, pr1, d, Marked(b, d, MERGED), n)).board;
            Carries(c, n, READY) && Carries(c, n, MERGED) <==> READY !in b[n].labels
  {
    var m := Marked(b, d, MERGED);
    BothWrite(b, pr0, pr1, d, id, n, m);
    StillFrees(b, d, id, n, m);
    hide Run, Frees, ResolvesTo, Marked, BothEvents, ApplyAll, ReplaceEdits;
    BothOn(b, m, n);
  }

  lemma BothOn(b: Board, m: Board, n: nat)
    requires n in b && n in m && m[n] == b[n] && MERGED !in b[n].labels
    ensures var c := ApplyAll(ApplyAll(m, MergedEdits(b, n)), ReadyEdits(m, n));
            Carries(c, n, READY) && Carries(c, n, MERGED) <==> READY !in b[n].labels
  {
    hide ReplaceEdits, ApplyAll;
    RacingReplacements(m, n);
  }

  // ---------------------------------------------------------------- no status at all

  lemma {:induction false} PartlyAll(b: Board, d: nat, c: Board, es: seq<Edit>)
    requires Partly(b, d, c) && AllWithin(b, d, es)
    ensures Partly(b, d, ApplyAll(c, es))
    decreases |es|
  {
    hide Partly, Within;
    if es != [] {
      assert es[0] in es;
      PartlyEdit(b, d, c, es[0]);
      assert forall e :: e in es[1..] ==> e in es;
      PartlyAll(b, d, Apply(c, es[0]), es[1..]);
    }
  }

  lemma {:induction false} MergedStaysOn(b: Board, d: nat, c: Board, es: seq<Edit>)
    requires Partly(b, d, c) && AllWithin(b, d, es) && MERGED in c[d].labels
    ensures d in ApplyAll(c, es) && MERGED in ApplyAll(c, es)[d].labels
    decreases |es|
  {
    hide Within, SameFields, IssuePartly;
    if es != [] {
      assert es[0] in es;
      PartlyEdit(b, d, c, es[0]);
      assert forall e :: e in es[1..] ==> e in es;
      MergedStaysOn(b, d, Apply(c, es[0]), es[1..]);
    }
  }

  /** Marking d again with the edits of a second run for it changes nothing that matters. */
  lemma MarkedAgain(b: Board, d: nat, m: Board)
    requires d in b && m == Marked(b, d, MERGED)
    ensures OnlyMarks(m, d, ApplyAll(m, MergedEdits(b, d)))
  {
    hide Field, SyncedBody, StatusLabels, BareStatus, IsStatus, IssuePartly;
    NothingDone(b, d);
    ReplaceWithin(b, d, b, d, MERGED);
    PartlyAll(b, d, b, MergedEdits(b, d));
    PartlyAll(b, d, m, MergedEdits(b, d));
    MarkedOnly(b, d);
    assert forall e :: e in MergedEdits(b, d) ==> Within(b, d, e);
    MergedStaysOn(b, d, m, MergedEdits(b, d));
    ApplyAllFrame(m, MergedEdits(b, d), d);
    hide ApplyAll, Marked, ReplaceEdits;
    var c := ApplyAll(m, MergedEdits(b, d));
    assert SameFields(b[d].body, c[d].body) && SameFields(b[d].body, m[d].body);
  }

  /** A second run for the same pull request follows the first up to the same decision about n. */
  function TwiceDecided(b: Board, pr: PullRequest, d: nat, m: Board, m2: Board, n: nat): seq<Event>
    requires d in b && n in m && n in m2
  {
    ToDecision(b, pr, pr, d, m, n) + Acts(1, StepsToFree(MergedEdits(b, d), m2, n))
  }

  /** What a second marking of d leaves as it is. */
  lemma TwiceMarked(b: Board, d: nat, id: string, n: nat, m: Board, m2: Board)
    requires Frees(b, d, id, n) && m == Marked(b, d, MERGED) && m2 == ApplyAll(m, MergedEdits(b, d))
    ensures n in b && n in m && n in m2 && m[n] == b[n] && m2[n] == b[n] && m2.Keys == b.Keys
    ensures forall k :: k in b && k != d ==> k in m2 && m2[k] == b[k]
    ensures d in b && d in m2 && !Carries(m2, d, IN_PROGRESS) && MERGED in m2[d].labels && Frees(m2, d, id, n)
  {
    StillFrees(b, d, id, n, m);
    MarkedAgain(b, d, m);
    NotInProgress(b, d, m);
    MarkedOnly(b, d);
    hide Unblocked, DependsOn, FindIssue, Field, IsMerged, ReplaceEdits, ApplyAll, Marked, TaskList;
    FreesStill(m, d, id, n, m2);
  }

  lemma DecidedTwice(b: Board, pr: PullRequest, d: nat, id: string, n: nat, m: Board, m2: Board)
    requires Frees(b, d, id, n) && ResolvesTo(b, pr, d) && m == Marked(b, d, MERGED) && m2 == ApplyAll(m, MergedEdits(b, d))
    ensures n in m && n in m2 && d in b
    ensures Stands(Run(Start(b), TwiceDecided(b, pr, d, m, m2, n)), m2, 0, Readies(m, n), 1, Readies(m2, n))
  {
    TwiceMarked(b, d, id, n, m, m2);
    hide Frees, ResolvesTo, Marked, Run, Marks, Readies, Stands, ToDecision, TwiceDecided, StepsToFree, ReplaceEdits, ApplyAll;
    Decided(b, pr, pr, d, id, n, d, m);
    SecondDecides(b, pr, d, id, n, m, m2);
  }

  lemma SecondDecides(b: Board, pr: PullRequest, d: nat, id: string, n: nat, m: Board, m2: Board)
    requires d in b && n in m && n in m2 && d in m2 && Frees(m2, d, id, n) && MERGED in m2[d].labels
    requires m2 == ApplyAll(m, MergedEdits(b, d))
    requires Stands(Run(Start(b), ToDecision(b, pr, pr, d, m, n)), m, 1, Marks(b, d), 0, Readies(m, n))
    ensures Stands(Run(Start(b), TwiceDecided(b, pr, d, m, m2, n)), m2, 0, Readies(m, n), 1, Readies(m2, n))
  {
    assert Marks(b, d) == Writing(MergedEdits(b, d), Refreshing(d));
    hide Run, Acts, Frees, After, Marks, Readies, StepsToFree, Stands, ToDecision, MergedEdits, ApplyAll;
    AfterFreeing(m, MergedEdits(b, d), d, id, n, m2);
    var steps := StepsToFree(MergedEdits(b, d), m2, n);
    Turn(Run(Start(b), ToDecision(b, pr, pr, d, m, n)), m, 1, Marks(b, d), 0, Readies(m, n), steps, m2, Readies(m2, n));
    RunAppend(Start(b), ToDecision(b, pr, pr, d, m, n), Acts(1, steps));
  }

  lemma NotInProgress(b: Board, d: nat, m: Board)
    requires d in b && m == Marked(b, d, MERGED)
    ensures !Carries(ApplyAll(m, MergedEdits(b, d)), d, IN_PROGRESS)
  {
    StatusesApart();
    assert IsStatus(IN_PROGRESS);
    MarkedMerged(b, d);
    AddsOnly(d, b[d].labels, b[d].body, MERGED);
    hide IsStatus, Field, Marked, ReplaceEdits;
    NeverAdded(m, MergedEdits(b, d), d, IN_PROGRESS);
  }

  // The rest of the run: the first watcher makes n ready, the second has just found it so, a supervisor
  // claims it, and the second takes in-progress off.

  function Rest(edits: seq<Edit>): seq<Edit> { if edits == [] then [] else edits[1..] }

  lemma ReadyAgain(m2: Board, n: nat)
    requires n in m2 && StatusLabels(m2[n].labels) == [IN_PROGRESS]
    ensures var edits, c := ReadyEdits(m2, n), ApplyAll(m2, ReadyEdits(m2, n));
            && edits != [] && edits[0] == AddLabel(n, READY) && Apply(c, edits[0]) == c
            && RemoveLabel(n, IN_PROGRESS) in edits[1..]
            && (forall e :: e in edits[1..] ==> !e.SwapLabels? && !e.AddLabel?)
            && n in c && READY in c[n].labels && c[n].open == m2[n].open && c.Keys == m2.Keys
            && (forall l :: l in c[n].labels && IsStatus(l) ==> l == READY)
            && (forall k :: k in m2 && k != n ==> c[k] == m2[k])
  {
    hide IsStatus, SyncedBody, StatusLabels, ReplaceEdits, ApplyAll, BareStatus;
    OnlyInProgress(m2[n].labels);
    ReplaceEffect(m2, n, READY, false);
    ReadyShape(n, m2[n].labels, m2[n].body);
    var c := ApplyAll(m2, ReadyEdits(m2, n));
    assert c[n := c[n]] == c;
  }

  lemma OnlyInProgress(labels: seq<string>)
    requires StatusLabels(labels) == [IN_PROGRESS]
    ensures IN_PROGRESS in StatusLabels(labels) && READY !in labels && IsStatus(READY)
  {
    StatusesApart();
    assert IsStatus(READY);
    assert forall l :: l in [IN_PROGRESS] ==> l == IN_PROGRESS;
  }

  lemma ReadyShape(n: nat, labels: seq<string>, body: string)
    requires READY !in labels && IN_PROGRESS in StatusLabels(labels)
    ensures var edits := ReplaceEdits(n, labels, body, READY, false);
            && edits != [] && edits[0] == AddLabel(n, READY) && RemoveLabel(n, IN_PROGRESS) in edits[1..]
            && (forall e :: e in edits[1..] ==> !e.SwapLabels? && !e.AddLabel?)
  {
    StatusesApart();
    hide SyncedBody, BareStatus, StatusLabels, Removals;
    var removals := Removals(n, StatusLabels(labels), READY);
    var edits := ReplaceEdits(n, labels, body, READY, false);
    var bodies := edits[1 + |removals|..];
    assert edits[1..] == removals + bodies;
  }

  lemma ClaimTakesReady(c: Board, n: nat)
    requires OpenReady(c, n) && forall l :: l in c[n].labels && IsStatus(l) ==> l == READY
    ensures forall l :: IsStatus(l) && l != IN_PROGRESS ==> !Carries(Apply(c, ClaimEdit(n)), n, l)
  {
    hide IsStatus;
  }

  lemma NothingLeft(c: Board, es: seq<Edit>, n: nat, tag: string)
    requires forall l :: IsStatus(l) && l != tag ==> !Carries(c, n, l)
    requires RemoveLabel(n, tag) in es && forall e :: e in es ==> !e.SwapLabels? && !e.AddLabel?
    ensures forall l :: IsStatus(l) ==> !Carries(ApplyAll(c, es), n, l)
  {
    hide IsStatus, ApplyAll;
    forall l | IsStatus(l) ensures !Carries(ApplyAll(c, es), n, l) {
      if l == tag { TakenAway(c, es, n, l); } else { NeverAdded(c, es, n, l); }
    }
  }

  lemma OnlyReadyThere(b: Board, d: nat, n: nat, m2: Board, c: Board)
    requires d in b && n in b && m2.Keys == b.Keys && (forall k :: k in b && k != d ==> m2[k] == b[k]) && !Carries(m2, d, IN_PROGRESS)
    requires c.Keys == m2.Keys && (forall k :: k in m2 && k != n ==> c[k] == m2[k])
    requires forall l :: l in c[n].labels && IsStatus(l) ==> l == READY
    requires forall k :: Busy(b, k) ==> k == n
    ensures NothingInProgress(c)
  {
    StatusesApart();
    assert IsStatus(IN_PROGRESS);
    hide IsStatus;
    forall k | k in c ensures !Busy(c, k) {
      if k != n && k != d { assert Busy(c, k) == Busy(b, k); }
    }
  }

  /** From the second decision on: n ready, found ready by the other watcher, claimed, taken off. */
  lemma LastSteps(w: World, m2: Board, n: nat)
    requires n in m2 && StatusLabels(m2[n].labels) == [IN_PROGRESS] && m2[n].open
    requires Stands(w, m2, 0, Readies(m2, n), 1, Readies(m2, n))
    requires NothingInProgress(ApplyAll(m2, ReadyEdits(m2, n)))
    ensures forall l :: IsStatus(l) ==> !Carries(Run(w, LastEvents(m2, n)).board, n, l)
  {
    var edits := ReadyEdits(m2, n);
    var c := ApplyAll(m2, edits);
    ReadyAgain(m2, n);
    assert OpenReady(c, n);
    ClaimTakesReady(c, n);
    NothingLeft(Apply(c, ClaimEdit(n)), edits[1..], n, IN_PROGRESS);
    assert Readies(m2, n) == Writing(edits, Scanning([]));
    hide ReplaceEdits, ApplyAll, Apply, Readies, IsStatus, StatusLabels, OpenReady, NothingInProgress;
    LastRun(w, m2, n, edits, c);
  }

  function LastEvents(m2: Board, n: nat): seq<Event>
    requires n in m2
  {
    LastOf(ReadyEdits(m2, n), n)
  }

  function LastOf(edits: seq<Edit>, n: nat): seq<Event> {
    Acts(0, |edits|) + Acts(1, 1) + [Spawn(2, Supervising(Locking))] + Answers(2, Cycle(n)) + Acts(1, |Rest(edits)|)
  }

  lemma LastRun(w: World, m2: Board, n: nat, edits: seq<Edit>, c: Board)
    requires edits != [] && c == ApplyAll(m2, edits) && Apply(c, edits[0]) == c && OpenReady(c, n) && NothingInProgress(c)
    requires Stands(w, m2, 0, Writing(edits, Scanning([])), 1, Writing(edits, Scanning([])))
    ensures Run(w, LastOf(edits, n)).board == ApplyAll(Apply(c, ClaimEdit(n)), edits[1..])
  {
    hide Run, Acts, Answers, Cycle, ApplyAll, Apply, OpenReady, NothingInProgress, After;
    var pc, end, late := Writing(edits, Scanning([])), Writing([], Scanning([])), Writing(edits[1..], Scanning([]));
    AfterWriting(m2, edits, Scanning([]));
    Turn(w, m2, 0, pc, 1, pc, |edits|, c, end);
    var w1 := Run(w, Acts(0, |edits|));
    AfterOne(c, pc);
    Turn(w1, c, 1, pc, 0, end, 1, c, late);
    var w2 := Run(w1, Acts(1, 1));
    RunSpawn(w2, 2, Supervising(Locking));
    var w3 := Run(w2, [Spawn(2, Supervising(Locking))]);
    CycleRuns(w3, 2, n);
    var w4 := Run(w3, Answers(2, Cycle(n)));
    AfterWriting(w4.board, edits[1..], Scanning([]));
    RunActs(w4, 1, |Rest(edits)|);
    RunAppend(w, Acts(0, |edits|), Acts(1, 1));
    RunAppend(w, Acts(0, |edits|) + Acts(1, 1), [Spawn(2, Supervising(Locking))]);
    RunAppend(w, Acts(0, |edits|) + Acts(1, 1) + [Spawn(2, Supervising(Locking))], Answers(2, Cycle(n)));
    RunAppend(w, Acts(0, |edits|) + Acts(1, 1) + [Spawn(2, Supervising(Locking))] + Answers(2, Cycle(n)), Acts(1, |Rest(edits)|));
  }

  /** The same pull request processed twice at once, while its dependent n is in progress and free: n can
      be made ready, claimed, and end without any status. */
  lemma StatusLost(b: Board, pr: PullRequest, d: nat, id: string, n: nat, m: Board, m2: Board)
    requires Frees(b, d, id, n) && ResolvesTo(b, pr, d) && m == Marked(b, d, MERGED) && m2 == ApplyAll(m, MergedEdits(b, d))
    requires StatusLabels(b[n].labels) == [IN_PROGRESS] && b[n].open && forall k :: Busy(b, k) ==> k == n
    ensures n in m && n in m2
    ensures forall l :: IsStatus(l) ==>
              !Carries(Run(Start(b), TwiceDecided(b, pr, d, m, m2, n) + LastEvents(m2, n)).board, n, l)
  {
    TwiceMarked(b, d, id, n, m, m2);
    DecidedTwice(b, pr, d, id, n, m, m2);
    assert Readies(m, n) == Readies(m2, n);
    ReadyAgain(m2, n);
    hide ReplaceEdits, ApplyAll, Readies, IsStatus, StatusLabels, Frees, ResolvesTo, Marked, Run, TwiceDecided, LastEvents, Stands, Busy,
      NothingInProgress;
    OnlyReadyThere(b, d, n, m2, ApplyAll(m2, ReadyEdits(m2, n)));
    var w := Run(Start(b), TwiceDecided(b, pr, d, m, m2, n));
    LastSteps(w, m2, n);
    RunAppend(Start(b), TwiceDecided(b, pr, d, m, m2, n), LastEvents(m2, n));
  }
}
