/** A watcher run that stops on its way: which of the issues it was to free are left asleep, and that nobody
    wakes them but another run. */
module Forgotten {
  import opened Text
  import opened TaskStatus
  import opened Tracker
  import opened Dependencies
  import opened Watcher
  import opened Queue
  import opened InProgress
  import opened MergedDependencies
  import opened Unblocking
  import opened Restart
  import opened StatusKept
  import opened StatusRaces
  import opened WakeUp

  // ---------------------------------------------------------------- a run under way

  ghost predicate Sound(c: Board, pc: Pc) {
    Safe(c) && WellFormed(c) && PcSafe(c, pc) && PcTidy(c, pc) && Mirrors(c, Watching(pc))
  }

  /** The run for n has begun on b and stands at pc, with the board c. */
  ghost predicate Going(b: Board, n: nat, c: Board, pc: Pc) {
    Partly(b, n, c) && OnTheWay(b, n, c, pc) && Sound(c, pc)
  }

  lemma StepSound(c: Board, pc: Pc)
    requires Sound(c, pc)
    ensures var s := Step(c, pc); Sound(s.board, s.pc) && Follows(c, s.board)
    ensures var s := Step(c, pc); forall d, tag :: Carries(c, d, tag) && !Threatens(pc, d, tag) ==> Carries(s.board, d, tag)
  {
    hide Safe, WellFormed, PcSafe, PcTidy, Mirrors, Step, Grows, Follows, Threatens;
    WatcherSafe(c, pc, Ok);
    WatcherTidy(c, pc, Ok);
    WatcherMirrors(c, pc);
    WellFormedStays(c, Step(c, pc).board);
  }

  lemma StepGoing(b: Board, n: nat, c: Board, pc: Pc)
    requires n in b && KeepsMergedOnMerge(b, n) && Going(b, n, c, pc)
    ensures Going(b, n, Step(c, pc).board, Step(c, pc).pc) && Follows(c, Step(c, pc).board)
  {
    hide Sound, Step, Partly, OnTheWay, KeepsMergedOnMerge, Follows, Threatens;
    StepSound(c, pc);
    StepOnTheWay(b, n, c, pc);
  }

  /** An issue the run is to make ready. */
  ghost predicate Due(b: Board, n: nat, d: nat) { n in b && d in b && OutcomeOnMerge(b, n, d) == Some(READY) }

  lemma DueMeans(b: Board, n: nat, d: nat)
    requires Due(b, n, d)
    ensures n in b && d in b && d != n && MERGED !in b[d].labels && Listed(b, Unblocked(b, n), d) && FreeOnMerge(b, n, d)
  {
    StatusesApart();
    hide Listed, FreeOnMerge, Malformed, Unblocked;
  }

  lemma DueUnmerged(b: Board, n: nat, d: nat, c: Board)
    requires Due(b, n, d) && Partly(b, n, c)
    ensures n in c && d in c && !Carries(c, d, MERGED)
  {
    DueMeans(b, n, d);
    assert IssuePartly(b, n, d, c[d].labels);
    hide OutcomeOnMerge, IssuePartly, Partly, IsStatus, Touched;
    SameMergedLabel(b, n, c, d);
    PartlyKeys(b, n, c);
  }

  lemma DueFree(b: Board, n: nat, d: nat, c: Board)
    requires Due(b, n, d) && Partly(b, n, c) && MERGED in c[n].labels
    ensures DepsMerged(c, d)
  {
    DueMeans(b, n, d);
    PartlyGrows(b, n, c);
    hide OutcomeOnMerge, Field, TaskList, FindIssue, IsMerged, Partly, DependsOn, Grows;
    SameDependsOn(b, c, d);
    forall e | e in DependsOn(c, d) ensures IsMerged(c, e) { PartlyMerged(b, n, c, e); }
  }

  lemma ReadyStays(b: Board, n: nat, d: nat, c: Board, pc: Pc)
    requires Due(b, n, d) && Going(b, n, c, pc) && Carries(c, d, READY)
    ensures Carries(Step(c, pc).board, d, READY)
  {
    DueUnmerged(b, n, d, c);
    hide Safe, WellFormed, PcSafe, Mirrors, Step, PcTidy, Partly, OnTheWay, Threatens, Due;
    StepSound(c, pc);
    NotThreatened(c, Watching(pc), d, READY);
  }

  // ---------------------------------------------------------------- what is not ready is still before the run

  lemma NotSeenReady(b: Board, n: nat, d: nat, c: Board, pc: Pc)
    requires Due(b, n, d) && Going(b, n, c, pc) && !Carries(c, d, READY)
    ensures !SawAwake(pc, d)
    ensures pc.Checking? ==> DepsMerged(c, d)
  {
    DueUnmerged(b, n, d, c);
    if pc.Checking? { DueFree(b, n, d, c); }
    hide Sound, Due, Partly, DepsMerged;
  }

  lemma StepRemembers(b: Board, n: nat, d: nat, c: Board, pc: Pc)
    requires Due(b, n, d) && KeepsMergedOnMerge(b, n) && Going(b, n, c, pc)
    requires Carries(c, d, READY) || Covers(c, pc, d)
    ensures var s := Step(c, pc); Going(b, n, s.board, s.pc) && (Carries(s.board, d, READY) || Covers(s.board, s.pc, d))
  {
    StepGoing(b, n, c, pc);
    hide Step, KeepsMergedOnMerge, Covers;
    if Carries(c, d, READY) {
      ReadyStays(b, n, d, c, pc);
    } else {
      NotSeenReady(b, n, d, c, pc);
      DueUnmerged(b, n, d, c);
      DueUnmerged(b, n, d, Step(c, pc).board);
      hide Partly, OnTheWay, Follows, DepsMerged, SawAwake, Safe, WellFormed, PcSafe, PcTidy, Mirrors, Due;
      StepCovers(c, pc, d);
    }
  }

  // ---------------------------------------------------------------- and once listed, what is ready is behind it

  /** The issue is not found by two of the ids. */
  ghost predicate Once(b: Board, ids: seq<string>, n: nat) {
    forall i, j :: 0 <= i < j < |ids| && FindIssue(b, ids[i]) == Some(n) ==> FindIssue(b, ids[j]) != Some(n)
  }

  lemma OnceRest(b: Board, ids: seq<string>, n: nat)
    requires ids != [] && Once(b, ids, n)
    ensures Once(b, ids[1..], n) && (FindIssue(b, ids[0]) == Some(n) ==> !Listed(b, ids[1..], n))
  {
    hide FindIssue;
  }

  lemma OnceStays(b: Board, c: Board, ids: seq<string>, n: nat)
    requires Grows(b, c) && Once(b, ids, n)
    ensures Once(c, ids, n)
  {
    hide Grows, FindIssue;
    forall id: string ensures FindIssue(c, id) == FindIssue(b, id) { SameFind(b, c, id); }
  }

  /** Behind the place where the run deals with the issue it does not come back to it. */
  ghost predicate NoReturn(c: Board, pc: Pc, n: nat) {
    match pc
    case Writing(edits, next) => NoReturn(c, next, n) && (edits != [] && edits[0].number == n ==> !Covers(c, next, n))
    case Refreshing(source) => source in c && Once(c, Unblocked(c, source), n)
    case Scanning(ids) => Once(c, ids, n)
    case Checking(_, target, _, _, _, _, _, rest) => Once(c, rest, n) && (target == n ==> !Listed(c, rest, n))
    case _ => true
  }

  lemma PlaceSame(b: Board, c: Board, pc: Pc, n: nat)
    requires Follows(b, c) && (pc.Refreshing? || pc.Scanning?)
    ensures Covers(c, pc, n) <==> Covers(b, pc, n)
    ensures NoReturn(b, pc, n) ==> NoReturn(c, pc, n)
  {
    hide Field, TaskList, Listed, FindIssue, Once;
    FollowsGrows(b, c);
    match pc
    case Refreshing(source) =>
      if source in b {
        assert Unblocked(c, source) == Unblocked(b, source);
        ListedStays(b, c, Unblocked(b, source), n);
        if NoReturn(b, pc, n) { OnceStays(b, c, Unblocked(b, source), n); }
      }
    case Scanning(ids) =>
      ListedStays(b, c, ids, n);
      if NoReturn(b, pc, n) { OnceStays(b, c, ids, n); }
  }

  /** Exactly one of the two: ready, or still before the run. */
  ghost predicate Either(c: Board, pc: Pc, d: nat) { NoReturn(c, pc, d) && (Carries(c, d, READY) <==> !Covers(c, pc, d)) }

  lemma WriteEither(c: Board, edits: seq<Edit>, next: Pc, d: nat)
    requires d in c && edits != [] && PcTidy(c, Writing(edits, next)) && Follows(c, Apply(c, edits[0]))
    requires Carries(c, d, READY) ==> Carries(Apply(c, edits[0]), d, READY)
    requires Either(c, Writing(edits, next), d)
    ensures Either(Apply(c, edits[0]), Writing(edits[1..], next), d)
  {
    hide Follows, Once, Unblocked, Listed;
    var e, rest := edits[0], edits[1..];
    PlaceSame(c, Apply(c, e), next, d);
    assert e in edits && TidyEdit(c, e, e);
    if Carries(Apply(c, e), d, READY) && !Carries(c, d, READY) { AddedOnly(c, e, d); }
    if rest != [] { assert rest[0] == edits[1] && edits[1] in edits; }
    if e == AddLabel(d, READY) { AddedIsOn(c, d); }
    hide Covers, Apply;
    CoversWriting(c, edits, next, d);
    CoversWriting(Apply(c, e), rest, next, d);
  }

  lemma CoversWriting(c: Board, edits: seq<Edit>, next: Pc, d: nat)
    ensures Covers(c, Writing(edits, next), d) <==> (edits != [] && edits[0] == AddLabel(d, READY)) || Covers(c, next, d)
  {
  }

  lemma AddedOnly(c: Board, e: Edit, d: nat)
    requires TidyEdit(c, e, e) && Carries(Apply(c, e), d, READY) && !Carries(c, d, READY)
    ensures e == AddLabel(d, READY)
  {
  }

  lemma WritingEither(b: Board, n: nat, d: nat, c: Board, edits: seq<Edit>, next: Pc)
    requires Due(b, n, d) && KeepsMergedOnMerge(b, n) && Going(b, n, c, Writing(edits, next)) && Either(c, Writing(edits, next), d)
    ensures Either(Step(c, Writing(edits, next)).board, Step(c, Writing(edits, next)).pc, d)
  {
    var pc := Writing(edits, next);
    hide KeepsMergedOnMerge, Partly, OnTheWay, Follows, Due, Safe, WellFormed, PcSafe, Mirrors, Covers, NoReturn, Apply;
    if edits == [] {
      CoversWriting(c, edits, next, d);
      NextNoReturn(c, edits, next, d);
    } else {
      DueMeans(b, n, d);
      DueUnmerged(b, n, d, c);
      StepGoing(b, n, c, pc);
      if Carries(c, d, READY) { ReadyStays(b, n, d, c, pc); }
      WriteEither(c, edits, next, d);
    }
  }

  lemma NextNoReturn(c: Board, edits: seq<Edit>, next: Pc, d: nat)
    requires NoReturn(c, Writing(edits, next), d)
    ensures NoReturn(c, next, d)
  {
  }

  lemma StepEither(b: Board, n: nat, d: nat, c: Board, pc: Pc)
    requires Due(b, n, d) && KeepsMergedOnMerge(b, n) && Going(b, n, c, pc) && Either(c, pc, d) && !pc.Resolving?
    ensures Either(Step(c, pc).board, Step(c, pc).pc, d)
  {
    hide KeepsMergedOnMerge, Partly, Due, Once, Unblocked, Listed, Decide, CheckOne, ScanOne, Apply, FindIssue, Safe, WellFormed, PcSafe,
      PcTidy, Mirrors, Covers, DependsOn, Field, TaskList;
    match pc
    case Writing(edits, next) => WritingEither(b, n, d, c, edits, next);
    case Refreshing(source) => RefreshEither(c, source, d);
    case Scanning(ids) => if ids != [] { ScanEither(c, ids, d); } else { NothingListed(c, d); CoversPlaces(c, d); }
    case Checking(_, _, _, _, _, _, _, _) =>
      hide OnTheWay;
      StepRemembers(b, n, d, c, pc);
      CheckingEither(b, n, d, c, pc);
    case Stopped =>
  }

  lemma RefreshEither(c: Board, source: nat, d: nat)
    requires Either(c, Refreshing(source), d)
    ensures Either(Step(c, Refreshing(source)).board, Step(c, Refreshing(source)).pc, d)
  {
    hide Field, TaskList, Listed, Once;
  }

  lemma CoversPlaces(c: Board, d: nat)
    ensures Covers(c, Scanning([]), d) <==> Listed(c, [], d)
    ensures !Covers(c, Stopped, d)
  {
  }

  lemma ScanEither(c: Board, ids: seq<string>, d: nat)
    requires ids != [] && WellFormed(c) && Either(c, Scanning(ids), d)
    ensures Either(c, ScanOne(c, ids).0, d)
  {
    hide Field, TaskList, Listed, FindIssue, Once;
    OnceRest(c, ids, d);
    ListedFirst(c, ids, d);
  }

  /** Under check the board stays as it is. */
  lemma CheckingEither(b: Board, n: nat, d: nat, c: Board, pc: Pc)
    requires pc.Checking? && Going(b, n, c, pc) && Either(c, pc, d)
    requires var s := Step(c, pc); Carries(s.board, d, READY) || Covers(s.board, s.pc, d)
    ensures Either(Step(c, pc).board, Step(c, pc).pc, d)
  {
    hide Field, TaskList, Listed, FindIssue, Once, Partly, OnTheWay, Safe, WellFormed, IsMerged, DependsOn, Mirrors;
    if pc.deps == [] {
      DecideEither(c, pc, d);
    } else {
      CheckOneEither(c, pc, d);
    }
  }

  lemma CheckOneEither(c: Board, pc: Pc, d: nat)
    requires pc.Checking? && pc.deps != [] && NoReturn(c, pc, d)
    ensures NoReturn(c, CheckOne(c, pc), d) && (Covers(c, CheckOne(c, pc), d) ==> Covers(c, pc, d))
  {
    hide FindIssue, Listed, Once;
  }

  lemma DecideEither(c: Board, pc: Pc, d: nat)
    requires pc.Checking? && pc.deps == [] && PcSafe(c, pc) && NoReturn(c, pc, d)
    ensures NoReturn(c, Decide(pc).0, d) && (Covers(c, Decide(pc).0, d) ==> Covers(c, pc, d))
  {
    hide Listed, Once, Field, TaskList, IsMerged, SyncedBody;
    if pc.missing == [] && MERGED !in pc.labels {
      AddsOnly(pc.target, pc.labels, pc.body, READY);
      var edits := ReplaceEdits(pc.target, pc.labels, pc.body, READY, false);
      hide ReplaceEdits;
      assert edits != [] ==> edits[0] in edits;
      CoversWriting(c, edits, Scanning(pc.rest), d);
    }
  }

  // ---------------------------------------------------------------- every prefix of a run

  lemma Begun(b: Board, pr: PullRequest, n: nat)
    requires WellFormed(b) && Safe(b) && ResolvesTo(b, pr, n)
    ensures n in b && Going(b, n, b, Marks(b, n)) && After(b, Resolving(pr), 1) == (b, Marks(b, n))
  {
    AfterResolving(b, pr, n);
    AfterOne(b, Resolving(pr));
    assert Step(b, Resolving(pr)).pc == Marks(b, n) && Step(b, Resolving(pr)).board == b;
    hide ResolvesTo, Safe, WellFormed, Step, After;
    StepSound(b, Resolving(pr)) by { assert Sound(b, Resolving(pr)); }
    NothingDone(b, n);
    hide Partly, Sound, ReplaceEdits;
    ReplaceWithin(b, n, b, n, MERGED);
    FirstMakesMerged(n, b[n].labels, b[n].body);
  }

  lemma {:induction false} AfterRemembers(b: Board, n: nat, d: nat, c: Board, pc: Pc, steps: nat)
    requires Due(b, n, d) && KeepsMergedOnMerge(b, n) && Going(b, n, c, pc) && (Carries(c, d, READY) || Covers(c, pc, d))
    ensures var (f, q) := After(c, pc, steps); Going(b, n, f, q) && (Carries(f, d, READY) || Covers(f, q, d))
    decreases steps
  {
    hide Due, KeepsMergedOnMerge, Going, Carries, Covers, Step;
    if steps > 0 {
      StepRemembers(b, n, d, c, pc);
      AfterRemembers(b, n, d, Step(c, pc).board, Step(c, pc).pc, steps - 1);
    }
  }

  lemma NeverBack(c: Board, pc: Pc)
    requires pc.Writing? ==> !pc.next.Resolving?
    ensures !Step(c, pc).pc.Resolving?
  {
    hide ResolveTaskIssue, FindIssue, Field, TaskList, ReplaceEdits, Apply, SyncedBody, StatusLabels, BareStatus;
  }

  lemma {:induction false} AfterEither(b: Board, n: nat, d: nat, c: Board, pc: Pc, steps: nat)
    requires Due(b, n, d) && KeepsMergedOnMerge(b, n) && Going(b, n, c, pc) && Either(c, pc, d) && !pc.Resolving?
    ensures var (f, q) := After(c, pc, steps); Going(b, n, f, q) && Either(f, q, d)
    decreases steps
  {
    hide Due, KeepsMergedOnMerge, Partly, OnTheWay, Safe, WellFormed, PcSafe, Tidy, Mirrors, Either, Step;
    if steps > 0 {
      DueMeans(b, n, d);
      StepGoing(b, n, c, pc);
      NeverBack(c, pc);
      StepEither(b, n, d, c, pc);
      AfterEither(b, n, d, Step(c, pc).board, Step(c, pc).pc, steps - 1);
    }
  }

  lemma MarksCovers(b: Board, n: nat, d: nat)
    requires Due(b, n, d)
    ensures n in b && Covers(b, Marks(b, n), d)
    ensures Once(b, Unblocked(b, n), d) ==> NoReturn(b, Marks(b, n), d)
  {
    DueMeans(b, n, d);
    AddsOnly(n, b[n].labels, b[n].body, MERGED);
    hide Due, Listed, Once, Unblocked, ReplaceEdits;
    CoversWriting(b, MergedEdits(b, n), Refreshing(n), d);
  }

  lemma FromMarks(b: Board, n: nat, d: nat, steps: nat)
    requires n in b && WellFormed(b) && Due(b, n, d) && !Carries(b, d, READY) && Going(b, n, b, Marks(b, n))
    ensures var (c, pc) := After(b, Marks(b, n), steps);
            && (Carries(c, d, READY) || Covers(c, pc, d))
            && (Once(b, Unblocked(b, n), d) ==> (Carries(c, d, READY) <==> !Covers(c, pc, d)))
  {
    MarksCovers(b, n, d);
    WellFormedOutcome(b, n, d);
    assert !Marks(b, n).Resolving?;
    hide WellFormed, Due, KeepsMergedOnMerge, Going, After, Marks, Covers, Carries, Once, NoReturn, Unblocked;
    AfterRemembers(b, n, d, b, Marks(b, n), steps);
    if Once(b, Unblocked(b, n), d) { AfterEither(b, n, d, b, Marks(b, n), steps); }
  }

  /** At every point of a run that has begun: an issue it is to make ready, and that was not ready, is ready now
      or still before the run, and never both if the list names it once. */
  lemma ReadyOrAhead(b: Board, pr: PullRequest, n: nat, d: nat, steps: nat)
    requires WellFormed(b) && Safe(b) && ResolvesTo(b, pr, n) && Due(b, n, d) && !Carries(b, d, READY) && steps > 0
    ensures n in b
    ensures var (c, pc) := After(b, Resolving(pr), steps);
            && (Carries(c, d, READY) || Covers(c, pc, d))
            && (Once(b, Unblocked(b, n), d) ==> (Carries(c, d, READY) <==> !Covers(c, pc, d)))
  {
    hide WellFormed, Safe, ResolvesTo, Due, Going, After, Marks, Covers, Carries, Once, Unblocked;
    Begun(b, pr, n);
    FromMarks(b, n, d, steps - 1);
    AfterMore(b, Resolving(pr), 1, steps - 1);
  }

  // ---------------------------------------------------------------- stopped there

  /** One watcher started alone, and its next call failing without effect after so many steps. */
  function StoppedAfter(pr: PullRequest, steps: nat): seq<Event> {
    [Spawn(0, Watching(Resolving(pr)))] + Acts(0, steps) + [Act(0, Fails(false))]
  }

  lemma StopsThere(b: Board, pr: PullRequest, steps: nat)
    ensures Run(Start(b), StoppedAfter(pr, steps)) == World(After(b, Resolving(pr), steps).0, false, map[0 := Watching(Stopped)])
  {
    hide Run, Acts, After;
    var spawn, fail := [Spawn(0, Watching(Resolving(pr)))], [Act(0, Fails(false))];
    var w := World(b, false, map[0 := Watching(Resolving(pr))]);
    RunSpawn(Start(b), 0, Watching(Resolving(pr)));
    assert Run(Start(b), spawn) == w;
    RunActs(w, 0, steps);
    var (c, pc) := After(b, Resolving(pr), steps);
    var v := World(c, false, map[0 := Watching(pc)]);
    assert At(w, c, 0, pc) == v;
    RunAct(v, 0, Fails(false));
    assert v.processes[0 := Watching(Stopped)] == map[0 := Watching(Stopped)];
    RunAppend(Start(b), spawn, Acts(0, steps));
    RunAppend(Start(b), spawn + Acts(0, steps), fail);
  }

  /** Nobody is left, and nobody new comes. */
  lemma {:induction false} NobodyWakes(w: World, es: seq<Event>)
    requires w.processes == map[0 := Watching(Stopped)] && forall e :: e in es ==> !e.Spawn?
    ensures forall d, tag :: Carries(Run(w, es).board, d, tag) <==> Carries(w.board, d, tag)
    decreases |es|
  {
    if es != [] {
      assert es[0] in es && forall e :: e in es[1..] ==> e in es;
      var v := Next(w, es[0]);
      assert v.processes == map[0 := Watching(Stopped)];
      assert forall d, tag :: Carries(v.board, d, tag) <==> Carries(w.board, d, tag);
      hide Next;
      NobodyWakes(v, es[1..]);
    }
  }

  /** Wherever a run that has begun stops, an issue it was to make ready is asleep exactly when it was still
      before the run (one way for a list that names it twice), and stays so until somebody else comes. */
  lemma FailureForgets(b: Board, pr: PullRequest, n: nat, d: nat, steps: nat)
    requires WellFormed(b) && Safe(b) && ResolvesTo(b, pr, n) && Due(b, n, d) && !Carries(b, d, READY) && steps > 0
    ensures n in b
    ensures var (c, pc) := After(b, Resolving(pr), steps);
            var w := Run(Start(b), StoppedAfter(pr, steps));
            && w == World(c, false, map[0 := Watching(Stopped)])
            && (Carries(c, d, READY) || Covers(c, pc, d))
            && (Once(b, Unblocked(b, n), d) ==> (Carries(c, d, READY) <==> !Covers(c, pc, d)))
            && forall es: seq<Event> :: (forall e: Event :: e in es ==> !e.Spawn?) ==> (Carries(Run(w, es).board, d, READY) <==> Carries(c, d, READY))
  {
    hide WellFormed, Safe, ResolvesTo, Due, After, Covers, Carries, Once, Unblocked, Run, StoppedAfter;
    ReadyOrAhead(b, pr, n, d, steps);
    StopsThere(b, pr, steps);
    var w := Run(Start(b), StoppedAfter(pr, steps));
    forall es: seq<Event> | forall e: Event :: e in es ==> !e.Spawn?
      ensures Carries(Run(w, es).board, d, READY) <==> Carries(w.board, d, READY)
    {
      NobodyWakes(w, es);
    }
  }

  /** Stopped behind the very first edit the issue is merged and nobody has been looked at. */
  lemma MergedAndNoMore(b: Board, pr: PullRequest, n: nat)
    requires ResolvesTo(b, pr, n) && MERGED !in b[n].labels
    ensures Run(Start(b), StoppedAfter(pr, 2)) == World(Apply(b, AddLabel(n, MERGED)), false, map[0 := Watching(Stopped)])
  {
    StopsThere(b, pr, 2);
    AfterResolving(b, pr, n);
    AfterMore(b, Resolving(pr), 1, 1);
    AfterOne(b, Marks(b, n));
    FirstMakesMerged(n, b[n].labels, b[n].body);
    hide ResolvesTo, After, Run, ReplaceEdits, Apply;
  }

  /** Any later run to its end for an issue that lists it wakes it, be it for another pull request. */
  lemma LaterRunWakes(c: Board, pr: PullRequest, m: nat, d: nat)
    requires ResolvesTo(c, pr, m) && KeepsMergedOnMerge(c, m)
    requires d in c && d != m && !Malformed(c, d) && MERGED !in c[d].labels && DepsMerged(c, d) && Listed(c, Unblocked(c, m), d)
    ensures Carries(Solo(c, Resolving(pr)).0, d, READY)
  {
    MergeUnblocks(c, pr, ResolveTaskIssue(c, pr).value.0, m);
    assert FreeOnMerge(c, m, d) by { hide Malformed, Listed, KeepsMergedOnMerge; }
    hide Malformed, Listed, KeepsMergedOnMerge, DepsMerged, FreeOnMerge, ResolveTaskIssue, Solo, IsStatus;
    assert OutcomeOnMerge(c, m, d) == Some(READY);
  }
}
