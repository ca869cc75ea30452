/** Two tasks, the second waiting for the first: a board on which what StatusRaces, Forgotten and WakeUp speak
    of happens. */
module TwoTasks {
  import opened Text
  import opened TaskStatus
  import opened Tracker
  import opened Footers
  import opened Dependencies
  import opened Watcher
  import opened Queue
  import opened InProgress
  import opened MergedDependencies
  import opened Unblocking
  import opened Restart
  import opened StatusKept
  import opened StatusRaces
  import opened WakeUp
  import opened Forgotten
  import opened StatusTurns
  import opened AttentionRace

  const FIRST_BODY := "Depends on:\nUnblocks: OPS-2"
  const SECOND_BODY := "Depends on: OPS-1"

  function Tasks(first: seq<string>, second: seq<string>): Board {
    map[1 := Issue("[OPS-1]", FIRST_BODY, first, true), 2 := Issue("[OPS-2]", SECOND_BODY, second, true)]
  }

  const FIRST_MERGED := PullRequest("", Footer("OPS-1", 1), true)
  const SECOND_MERGED := PullRequest("", Footer("OPS-2", 2), true)

  // ---------------------------------------------------------------- reading it

  lemma ListOfOne(id: string)
    requires IsLaneId(id)
    ensures TaskList(Some(id)) == [id]
  {
    hide IsLaneId, KeepIds, SplitOn;
    assert PrintIds([id]) == id;
    assert [] + id == id;
    WatcherReadsPrinted([id], []);
  }

  lemma LaneIds()
    ensures IsLaneId("OPS-1") && IsLaneId("OPS-2")
  {
    assert "OPS-1" == LaneText(OPS) + "-" + "1" && "OPS-2" == LaneText(OPS) + "-" + "2";
  }

  /** The line of a field that has a value. */
  lemma ReadsLine(needle: string, line: string, value: string)
    requires line != [] && Stripped(line) && needle <= Lower(line) && line[|needle|..] == [' '] + value && value != [] && Stripped(value)
    ensures FieldOf(needle, [line]) == Some(value)
  {
    hide Strip, Lower;
    StripOf(line);
    StripOf(value);
  }

  lemma Needles()
    ensures var depends, unblocks := Lower(DEPENDS_ON + ":"), Lower(UNBLOCKS + ":");
            |depends| == 11 && depends[0] == 'd' && |unblocks| == 9 && unblocks[0] == 'u'
  {
  }

  lemma Labels(name: string, value: string)
    ensures Lower(name + ":") <= Lower(name + ":" + value)
  {
    assert Lower(name + ":" + value)[..|name| + 1] == Lower(name + ":");
  }

  lemma OtherFirst(needle: string, line: string, rest: seq<string>)
    requires line != [] && Stripped(line) && needle != [] && needle[0] != Lower(line)[0]
    ensures FieldOf(needle, [line] + rest) == FieldOf(needle, rest)
  {
    StripOf(line);
    hide Strip, Lower;
    assert ([line] + rest)[1..] == rest;
  }

  lemma NoLines(needle: string)
    ensures FieldOf(needle, []) == None
  {
  }

  const EMPTY_LINE := "Depends on:"
  const UNBLOCKS_LINE := "Unblocks: OPS-2"

  lemma LineChars()
    ensures Stripped(EMPTY_LINE) && NoBreaks(EMPTY_LINE) && EMPTY_LINE == DEPENDS_ON + ":" && EMPTY_LINE[11..] == []
    ensures Stripped(UNBLOCKS_LINE) && NoBreaks(UNBLOCKS_LINE) && UNBLOCKS_LINE == UNBLOCKS + ":" + " OPS-2"
    ensures UNBLOCKS_LINE[9..] == [' '] + "OPS-2" && Lower(EMPTY_LINE)[0] == 'd' && Lower(UNBLOCKS_LINE)[0] == 'u'
  {
  }

  lemma FirstLines()
    ensures SplitLines(FIRST_BODY) == [EMPTY_LINE] + [UNBLOCKS_LINE]
  {
    LineChars();
    assert FIRST_BODY == EMPTY_LINE + "\n" + UNBLOCKS_LINE;
    hide EMPTY_LINE, UNBLOCKS_LINE, FIRST_BODY;
    SplitFirst(EMPTY_LINE, UNBLOCKS_LINE);
    SplitSingle(UNBLOCKS_LINE);
    hide SplitLines;
  }

  /** The first line is the field without a value, the second another field with one. */
  lemma TwoFields(depends: string, unblocks: string, empty: string, line: string, value: string)
    requires empty != [] && Stripped(empty) && depends <= Lower(empty) && empty[|depends|..] == []
    requires unblocks != [] && unblocks[0] != Lower(empty)[0]
    requires line != [] && Stripped(line) && unblocks <= Lower(line) && line[|unblocks|..] == [' '] + value && value != [] && Stripped(value)
    ensures FieldOf(depends, [empty] + [line]) == Some([]) && FieldOf(unblocks, [empty] + [line]) == Some(value)
  {
    hide Lower, FieldOf, Strip;
    StripOf(empty);
    StripOf([]);
    FieldOfFirst(depends, empty, [line]);
    OtherFirst(unblocks, empty, [line]);
    ReadsLine(unblocks, line, value);
  }

  lemma FirstFields()
    ensures Field(DEPENDS_ON, FIRST_BODY) == Some([]) && Field(UNBLOCKS, FIRST_BODY) == Some("OPS-2")
  {
    FirstLines();
    FirstValues();
    hide FieldOf, SplitLines, Lower, EMPTY_LINE, UNBLOCKS_LINE, FIRST_BODY;
  }

  lemma FirstValues()
    ensures FieldOf(Lower(DEPENDS_ON + ":"), [EMPTY_LINE] + [UNBLOCKS_LINE]) == Some([])
    ensures FieldOf(Lower(UNBLOCKS + ":"), [EMPTY_LINE] + [UNBLOCKS_LINE]) == Some("OPS-2")
  {
    LineChars();
    Needles();
    Labels(DEPENDS_ON, []);
    Labels(UNBLOCKS, " OPS-2");
    assert DEPENDS_ON + ":" + [] == EMPTY_LINE;
    hide FieldOf, Lower;
    TwoFields(Lower(DEPENDS_ON + ":"), Lower(UNBLOCKS + ":"), EMPTY_LINE, UNBLOCKS_LINE, "OPS-2");
  }

  lemma SecondChars()
    ensures Stripped(SECOND_BODY) && NoBreaks(SECOND_BODY) && SECOND_BODY == DEPENDS_ON + ":" + " OPS-1"
    ensures SECOND_BODY[11..] == [' '] + "OPS-1" && Lower(SECOND_BODY)[0] == 'd'
  {
    var a, b := DEPENDS_ON + ":", " OPS-1";
    assert SECOND_BODY == a + b && |a| == 11;
    assert NoBreaks(a) && NoBreaks(b) && b == [' '] + "OPS-1";
    assert a[0] == 'D' && b[5] == '1';
    hide SECOND_BODY;
  }

  lemma SecondValues()
    ensures FieldOf(Lower(DEPENDS_ON + ":"), [SECOND_BODY]) == Some("OPS-1") && FieldOf(Lower(UNBLOCKS + ":"), [SECOND_BODY]) == None
  {
    SecondChars();
    Needles();
    Labels(DEPENDS_ON, " OPS-1");
    hide FieldOf, Lower;
    ReadsLine(Lower(DEPENDS_ON + ":"), SECOND_BODY, "OPS-1");
    assert [SECOND_BODY] + [] == [SECOND_BODY];
    OtherFirst(Lower(UNBLOCKS + ":"), SECOND_BODY, []);
    NoLines(Lower(UNBLOCKS + ":"));
  }

  lemma SecondFields()
    ensures Field(DEPENDS_ON, SECOND_BODY) == Some("OPS-1") && Field(UNBLOCKS, SECOND_BODY) == None
  {
    SecondChars();
    SplitSingle(SECOND_BODY);
    SecondValues();
    hide FieldOf, SplitLines, Lower, SECOND_BODY;
  }

  lemma Finds(first: seq<string>, second: seq<string>)
    ensures FindIssue(Tasks(first, second), "OPS-1") == Some(1) && FindIssue(Tasks(first, second), "OPS-2") == Some(2)
  {
    TitlesFind(Tasks(first, second));
  }

  lemma TitlesFind(b: Board)
    requires b.Keys == {1, 2} && b[1].title == "[OPS-1]" && b[2].title == "[OPS-2]"
    ensures FindIssue(b, "OPS-1") == Some(1) && FindIssue(b, "OPS-2") == Some(2)
  {
    assert TitlePrefix("OPS-1") == "[OPS-1]" && TitlePrefix("OPS-2") == "[OPS-2]";
    assert "[OPS-1]"[5] == '1' && "[OPS-2]"[5] == '2';
    assert Titled(b, "OPS-1") == {1} && Titled(b, "OPS-2") == {2};
  }

  lemma Reads(first: seq<string>, second: seq<string>)
    ensures var b := Tasks(first, second);
            && DependsOn(b, 1) == [] && Unblocked(b, 1) == ["OPS-2"]
            && DependsOn(b, 2) == ["OPS-1"] && Unblocked(b, 2) == []
            && Field(DEPENDS_ON, b[1].body).Some? && Field(DEPENDS_ON, b[2].body).Some?
  {
    FirstFields();
    SecondFields();
    hide Field;
    LaneIds();
    ListOfOne("OPS-1");
    ListOfOne("OPS-2");
    EmptyList();
  }

  lemma NumberedResolves(b: Board, n: nat, pr: PullRequest)
    requires n in b && pr.merged && WatcherIssue(pr.body) == Some(n) && WatcherFooterId(pr.body).Some?
    ensures ResolvesTo(b, pr, n)
  {
    assert WatcherId(pr.body).Some? by { hide WatcherFooterId, WatcherTitleId; }
    hide WatcherId, WatcherIssue, FindIssue;
  }

  lemma ResolvesFooter(b: Board, letters: string, digits: string, n: nat, pr: PullRequest)
    requires CanonicalParts(letters + "-" + digits, letters, digits) && n in b
    requires pr.merged && pr.body == Footer(letters + "-" + digits, n)
    ensures ResolvesTo(b, pr, n)
  {
    ReadsFooter(letters, digits, n);
    hide Footer, WatcherFooterId, WatcherIssue, CanonicalParts, ResolvesTo, DispatchId, DispatchIssue;
    NumberedResolves(b, n, pr);
  }

  lemma Resolves(first: seq<string>, second: seq<string>)
    ensures ResolvesTo(Tasks(first, second), FIRST_MERGED, 1) && ResolvesTo(Tasks(first, second), SECOND_MERGED, 2)
  {
    assert "OPS" + "-" + "1" == "OPS-1" && "OPS" + "-" + "2" == "OPS-2";
    hide Footer, ResolvesTo;
    ResolvesFooter(Tasks(first, second), "OPS", "1", 1, FIRST_MERGED);
    ResolvesFooter(Tasks(first, second), "OPS", "2", 2, SECOND_MERGED);
  }

  lemma InOrderBoard(first: seq<string>, second: seq<string>)
    requires MERGED !in second
    ensures var b := Tasks(first, second); WellFormed(b) && Mutual(b) && Frees(b, 1, "OPS-2", 2)
    ensures DepsMerged(Tasks(first, second), 2) <==> MERGED in first
  {
    Finds(first, second);
    Reads(first, second);
    hide FindIssue, Field, TaskList;
    var b := Tasks(first, second);
    assert Unblocked(b, 1)[0] == "OPS-2";
    assert "OPS-1" in DependsOn(b, 2);
  }

  // ---------------------------------------------------------------- what happens on it

  lemma NoWorkIsSafe(b: Board)
    requires forall n, tag :: Carries(b, n, tag) ==> !MayWork(tag)
    ensures Safe(b)
  {
    hide DepsMerged;
  }

  lemma WaitingIsSafe()
    ensures Safe(Tasks([], [BLOCKED]))
  {
    StatusesApart();
    hide FIRST_BODY, SECOND_BODY;
    NoWorkIsSafe(Tasks([], [BLOCKED]));
  }

  lemma OnlySecondWorks(n: nat, tag: string)
    requires Carries(Tasks([MERGED], [IN_PROGRESS]), n, tag) && MayWork(tag)
    ensures n == 2
  {
    StatusesApart();
    hide FIRST_BODY, SECOND_BODY;
  }

  lemma WorkingIsSafe()
    ensures Safe(Tasks([MERGED], [IN_PROGRESS]))
  {
    StatusesApart();
    InOrderBoard([MERGED], [IN_PROGRESS]);
    hide DepsMerged, WellFormed, Mutual, Frees, Tasks, Carries, MayWork;
    var b := Tasks([MERGED], [IN_PROGRESS]);
    forall n, tag | Carries(b, n, tag) && MayWork(tag) ensures DepsMerged(b, n) { OnlySecondWorks(n, tag); }
  }

  /** Nothing has begun, and the second task waits for the first alone. */
  lemma Waiting()
    ensures var b := Tasks([], [BLOCKED]);
            && WellFormed(b) && Safe(b) && Mutual(b) && Frees(b, 1, "OPS-2", 2) && !DepsMerged(b, 2)
            && ResolvesTo(b, FIRST_MERGED, 1) && ResolvesTo(b, SECOND_MERGED, 2)
            && 1 in b && 2 in b && READY !in b[2].labels
  {
    StatusesApart();
    WaitingIsSafe();
    InOrderBoard([], [BLOCKED]);
    Resolves([], [BLOCKED]);
    hide WellFormed, Safe, Mutual, Frees, ResolvesTo, DepsMerged, FIRST_BODY, SECOND_BODY, FIRST_MERGED, SECOND_MERGED;
  }

  /** The first task is merged, and the second in progress. */
  lemma Working()
    ensures var b := Tasks([MERGED], [IN_PROGRESS]);
            && WellFormed(b) && Safe(b) && Frees(b, 1, "OPS-2", 2) && ResolvesTo(b, FIRST_MERGED, 1)
            && 1 in b && 2 in b && HasStatus(b, 2)
  {
    StatusesApart();
    WorkingIsSafe();
    InOrderBoard([MERGED], [IN_PROGRESS]);
    Resolves([MERGED], [IN_PROGRESS]);
    hide WellFormed, Safe, Mutual, Frees, ResolvesTo, DepsMerged, FIRST_BODY, SECOND_BODY, FIRST_MERGED, SECOND_MERGED;
    assert Carries(Tasks([MERGED], [IN_PROGRESS]), 2, IN_PROGRESS) && IsStatus(IN_PROGRESS);
  }

  /** Two watchers at once: the second task ends ready and merged. */
  lemma TwoStatusesHere()
    ensures var b := Tasks([], [BLOCKED]);
            && WellFormed(b) && Safe(b) && 1 in b && 2 in b && 2 in Marked(b, 1, MERGED)
            && var c := Run(Start(b), BothEvents(b, FIRST_MERGED, SECOND_MERGED, 1, Marked(b, 1, MERGED), 2)).board;
               Carries(c, 2, READY) && Carries(c, 2, MERGED)
  {
    Waiting();
    hide *;
    BothStatuses(Tasks([], [BLOCKED]), FIRST_MERGED, SECOND_MERGED, 1, "OPS-2", 2);
  }

  lemma OnlyWorking()
    ensures var b := Tasks([MERGED], [IN_PROGRESS]);
            StatusLabels(b[2].labels) == [IN_PROGRESS] && b[2].open && forall k :: Busy(b, k) ==> k == 2
  {
    StatusesApart();
    hide FIRST_BODY, SECOND_BODY, IsStatus;
    assert IsStatus(IN_PROGRESS);
    assert [IN_PROGRESS][1..] == [];
    assert StatusLabels([]) == [];
  }

  lemma LostOn(b: Board, pr: PullRequest, d: nat, id: string, n: nat)
    requires Frees(b, d, id, n) && ResolvesTo(b, pr, d)
    requires StatusLabels(b[n].labels) == [IN_PROGRESS] && b[n].open && forall k :: Busy(b, k) ==> k == n
    ensures d in b && Supported(MERGED)
    ensures var m := Marked(b, d, MERGED);
            var m2 := ApplyAll(m, MergedEdits(b, d));
            n in m && n in m2
            && forall l :: IsStatus(l) ==> !Carries(Run(Start(b), TwiceDecided(b, pr, d, m, m2, n) + LastEvents(m2, n)).board, n, l)
  {
    assert Supported(MERGED) && d in b;
    hide *;
    var m := Marked(b, d, MERGED);
    StatusLost(b, pr, d, id, n, m, ApplyAll(m, MergedEdits(b, d)));
  }

  /** One pull request processed twice at once and a claim in between: the second task ends without a status. */
  lemma NoStatusHere()
    ensures var b := Tasks([MERGED], [IN_PROGRESS]);
            && WellFormed(b) && Safe(b) && 1 in b && 2 in b && HasStatus(b, 2)
            && var m := Marked(b, 1, MERGED);
               var m2 := ApplyAll(m, MergedEdits(b, 1));
               2 in m && 2 in m2
               && forall l :: IsStatus(l) ==>
                    !Carries(Run(Start(b), TwiceDecided(b, FIRST_MERGED, 1, m, m2, 2) + LastEvents(m2, 2)).board, 2, l)
  {
    Working();
    OnlyWorking();
    hide *;
    LostOn(Tasks([MERGED], [IN_PROGRESS]), FIRST_MERGED, 1, "OPS-2", 2);
  }

  // The second task without a Depends-on field, and marked for attention.

  const MALFORMED: Board :=
    map[1 := Issue("[OPS-1]", FIRST_BODY, [], true), 2 := Issue("[OPS-2]", [], [NEEDS_ATTENTION], true)]

  lemma MalformedSends()
    ensures SendsForAttention(MALFORMED, 1, "OPS-2", 2) && StatusLabels(MALFORMED[2].labels) == [NEEDS_ATTENTION]
  {
    TitlesFind(MALFORMED);
    FirstFields();
    LaneIds();
    ListOfOne("OPS-2");
    SplitSingle([]);
    NoLines(Lower(DEPENDS_ON + ":"));
    assert Field(DEPENDS_ON, MALFORMED[2].body).None? by { hide FieldOf, SplitLines, Lower, FIRST_BODY; }
    hide Field, FindIssue, FIRST_BODY;
    assert [NEEDS_ATTENTION][1..] == [] && StatusLabels([]) == [];
    assert IsStatus(NEEDS_ATTENTION);
  }

  lemma MalformedResolves()
    ensures ResolvesTo(MALFORMED, FIRST_MERGED, 1) && ResolvesTo(MALFORMED, SECOND_MERGED, 2)
  {
    assert "OPS" + "-" + "1" == "OPS-1" && "OPS" + "-" + "2" == "OPS-2";
    hide Footer, ResolvesTo, FIRST_BODY;
    ResolvesFooter(MALFORMED, "OPS", "1", 1, FIRST_MERGED);
    ResolvesFooter(MALFORMED, "OPS", "2", 2, SECOND_MERGED);
  }

  lemma MalformedHas()
    ensures 1 in MALFORMED && 2 in MALFORMED && HasStatus(MALFORMED, 2) && NEEDS_ATTENTION != MERGED
  {
    StatusesApart();
    hide FIRST_BODY;
    assert Carries(MALFORMED, 2, NEEDS_ATTENTION) && IsStatus(NEEDS_ATTENTION);
  }

  /** Two watchers and no claim: the malformed task ends without a status. */
  lemma NoClaimNeededHere()
    ensures 1 in MALFORMED && 2 in MALFORMED && 2 in BothMarked(MALFORMED, 1, 2) && HasStatus(MALFORMED, 2)
    ensures !HasStatus(Run(Start(MALFORMED), AttentionEvents(MALFORMED, SECOND_MERGED, FIRST_MERGED, 1, 2)).board, 2)
  {
    MalformedSends();
    MalformedResolves();
    MalformedHas();
    hide *;
    AttentionLoses(MALFORMED, SECOND_MERGED, FIRST_MERGED, 1, "OPS-2", 2, NEEDS_ATTENTION);
  }

  lemma FreedIsDue(b: Board, d: nat, id: string, n: nat)
    requires Frees(b, d, id, n) && forall e :: e in DependsOn(b, n) ==> FindIssue(b, e) == Some(d)
    ensures Due(b, d, n) && Once(b, Unblocked(b, d), n)
  {
    hide FindIssue, Field, TaskList, Unblocked, DependsOn;
    assert Unblocked(b, d)[0] == id;
    assert Listed(b, Unblocked(b, d), n);
  }

  lemma SecondIsDue()
    ensures var b := Tasks([], [BLOCKED]); Due(b, 1, 2) && Once(b, Unblocked(b, 1), 2)
  {
    Waiting();
    Finds([], [BLOCKED]);
    Reads([], [BLOCKED]);
    var b := Tasks([], [BLOCKED]);
    hide FindIssue, Field, TaskList, FIRST_BODY, SECOND_BODY, Mutual, Frees, WellFormed, Safe, DepsMerged, Due, Once, Unblocked, DependsOn,
      ResolvesTo, Tasks;
    FreedIsDue(b, 1, "OPS-2", 2);
  }

  lemma FirstMarked()
    ensures var b, c := Tasks([], [BLOCKED]), Tasks([MERGED], [BLOCKED]);
            && Apply(b, AddLabel(1, MERGED)) == c && 1 in b && MERGED !in b[1].labels
            && !Carries(c, 2, READY) && Carries(c, 1, MERGED)
  {
    StatusesApart();
    hide FIRST_BODY, SECOND_BODY;
    assert With([], MERGED) == [MERGED];
  }

  /** The watcher stopped behind its first edit: the second task sleeps on. */
  lemma AsleepHere(es: seq<Event>)
    requires forall e :: e in es ==> !e.Spawn?
    ensures var w := Run(Start(Tasks([], [BLOCKED])), StoppedAfter(FIRST_MERGED, 2));
            Carries(w.board, 1, MERGED) && DepsMerged(w.board, 2) && !Carries(Run(w, es).board, 2, READY)
  {
    FirstMarked();
    Resolves([], [BLOCKED]);
    assert DepsMerged(Tasks([MERGED], [BLOCKED]), 2) by {
      StatusesApart();
      InOrderBoard([MERGED], [BLOCKED]);
    }
    hide ResolvesTo, Run, StoppedAfter, DepsMerged, Tasks, FIRST_MERGED, Apply, Carries;
    MergedAndNoMore(Tasks([], [BLOCKED]), FIRST_MERGED, 1);
    NobodyWakes(Run(Start(Tasks([], [BLOCKED])), StoppedAfter(FIRST_MERGED, 2)), es);
  }

  // ---------------------------------------------------------------- a run to its end

  lemma {:induction false} ToTheEnd(b: Board, pc: Pc) returns (steps: nat)
    ensures After(b, pc, steps) == (Solo(b, pc).0, Stopped)
    decreases Stage(pc), Ids(pc), Phase(pc), Work(pc)
  {
    hide Step, Before;
    if pc.Stopped? {
      steps := 0;
    } else {
      StepShrinks(b, pc);
      var s := Step(b, pc);
      var more := ToTheEnd(s.board, s.pc);
      BeforeBoard(s.notes, Solo(s.board, s.pc));
      steps := more + 1;
    }
  }

  lemma {:induction false} ActsUndisturbed(w: World, p: nat, steps: nat)
    requires p in w.processes && w.processes[p].Watching?
    ensures Undisturbed(w, Acts(p, steps))
    decreases steps
  {
    hide WatcherStep, Free;
    if steps > 0 {
      assert Acts(p, steps)[1..] == Acts(p, steps - 1);
      ActsUndisturbed(Next(w, Act(p, Ok)), p, steps - 1);
    }
  }

  /** One watcher run to its end meets what NoLostWakeUp asks for and wakes the second task. */
  lemma WakesHere() returns (es: seq<Event>)
    ensures var b := Tasks([], [BLOCKED]);
            && WellFormed(b) && Safe(b) && Mutual(b) && Undisturbed(Start(b), es) && !DepsMerged(b, 2)
            && var w := Run(Start(b), es);
               && (forall p :: p in w.processes && w.processes[p].Watching? ==> w.processes[p].pc.Stopped?)
               && 2 in w.board && DepsMerged(w.board, 2)
  {
    Waiting();
    SecondIsDue();
    var b := Tasks([], [BLOCKED]);
    hide WellFormed, Safe, Mutual, Undisturbed, DepsMerged, Run, Frees, Tasks, FIRST_MERGED, SECOND_MERGED, Acts, ResolvesTo, Due, Once, Solo,
      Unblocked, After;
    var steps := ToTheEnd(b, Resolving(FIRST_MERGED));
    es := [Spawn(0, Watching(Resolving(FIRST_MERGED)))] + Acts(0, steps);
    RunsToTheEnd(b, FIRST_MERGED, steps);
    DoneIsFree(b, FIRST_MERGED, es);
  }

  lemma RunsToTheEnd(b: Board, pr: PullRequest, steps: nat)
    requires After(b, Resolving(pr), steps) == (Solo(b, Resolving(pr)).0, Stopped)
    ensures var es := [Spawn(0, Watching(Resolving(pr)))] + Acts(0, steps);
            Undisturbed(Start(b), es) && Run(Start(b), es) == World(Solo(b, Resolving(pr)).0, false, map[0 := Watching(Stopped)])
  {
    hide Acts, Solo, After;
    var spawn, acts := [Spawn(0, Watching(Resolving(pr)))], Acts(0, steps);
    var w := World(b, false, map[0 := Watching(Resolving(pr))]);
    RunSpawn(Start(b), 0, Watching(Resolving(pr)));
    RunActs(w, 0, steps);
    ActsUndisturbed(w, 0, steps);
    assert w.processes[0 := Watching(Stopped)] == map[0 := Watching(Stopped)];
    assert (spawn + acts)[1..] == acts;
    assert Next(Start(b), spawn[0]) == w;
    hide Free;
  }

  lemma DoneIsFree(b: Board, pr: PullRequest, es: seq<Event>)
    requires WellFormed(b) && Safe(b) && ResolvesTo(b, pr, 1) && Due(b, 1, 2)
    requires Run(Start(b), es).board == Solo(b, Resolving(pr)).0
    ensures var c := Run(Start(b), es).board; 2 in c && DepsMerged(c, 2)
  {
    StartTidyBoard(b);
    RunSafe(Start(b), es);
    WellFormedOutcome(b, 1, 2);
    DueMeans(b, 1, 2);
    MergeUnblocks(b, pr, ResolveTaskIssue(b, pr).value.0, 1);
    var c := Run(Start(b), es).board;
    hide ResolveTaskIssue, Run, Solo, WellFormed, Safe, KeepsMergedOnMerge, OutcomeOnMerge, Due, Unblocked, Listed, IsStatus;
    assert MERGED in c[1].labels;
    SameDependsOn(b, c, 2);
    forall d | d in DependsOn(c, 2) ensures IsMerged(c, d) { SameFind(b, c, d); }
  }

  lemma StartTidyBoard(b: Board)
    requires WellFormed(b) && Safe(b)
    ensures AllSafe(Start(b))
  {
  }
}
