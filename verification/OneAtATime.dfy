/** One status per issue when the agents take turns at it: a condition on the schedule alone, that a lock on each
    issue would enforce. */
module OneAtATime {
  import opened Text
  import opened TaskStatus
  import opened Tracker
  import opened Dependencies
  import opened Watcher
  import opened Queue
  import opened StatusKept
  import opened StatusTurns

  /** The process has read the labels of n and is to change them, or to decide on that. */
  predicate Holds(p: Process, n: nat) { Moves(Pending(p), n) || (p.Watching? && p.pc.Checking? && p.pc.target == n) }

  ghost predicate NoTwoHold(w: World, n: nat) {
    forall p, q :: p in w.processes && q in w.processes && Holds(w.processes[p], n) && Holds(w.processes[q], n) ==> p == q
  }

  /** Nobody is stopped between two changes to the labels of n: a call that changes them fails, if at all, as the
      first of its list, and without leaving the rest behind. */
  predicate Steady(w: World, e: Event, n: nat) {
    e.Act? && e.pid in w.processes && Moves(Pending(w.processes[e.pid]), n) && !e.answer.Ok? ==>
      var edits := Pending(w.processes[e.pid]);
      PutsOn(edits, n).Some? && (e.answer == Fails(true) ==> !Moves(edits[1..], n))
  }

  ghost predicate TakesTurns(w: World, es: seq<Event>, n: nat)
    decreases |es|
  {
    es == [] || (Steady(w, es[0], n) && NoTwoHold(Next(w, es[0]), n) && TakesTurns(Next(w, es[0]), es[1..], n))
  }

  // ---------------------------------------------------------------- what is read is still so

  /** What the process knows of the labels of n. */
  ghost predicate Knows(labels: seq<string>, p: Process, n: nat) {
    && (p.Watching? && p.pc.Checking? && p.pc.target == n ==> p.pc.labels == labels && One(labels))
    && (Moves(Pending(p), n) ==> MeantFor(labels, Pending(p), n) && (PutsOn(Pending(p), n).Some? ==> One(labels)))
  }

  ghost predicate Careful(w: World, n: nat) {
    && Orderly(w, n) && NoTwoHold(w, n)
    && forall p :: p in w.processes ==> Knows(w.board[n].labels, w.processes[p], n)
  }

  /** A replacement computed from the labels there are was meant for them. */
  lemma FreshMeant(n: nat, labels: seq<string>, body: string, new_: string, swaps: bool)
    requires Supported(new_) && One(labels)
    ensures MeantFor(labels, ReplaceEdits(n, labels, body, new_, swaps), n)
  {
    assert IsStatus(new_);
    ReplacePuts(n, labels, body, new_, swaps);
    QuietMeans(labels, new_);
    hide ReplaceEdits, PutsOn, TakesOff, IsStatus, StatusLabels;
    assert Leaves(labels, ReplaceEdits(n, labels, body, new_, swaps), n, new_);
  }

  lemma QuietMeans(labels: seq<string>, new_: string)
    ensures StatusLabels(labels) == [new_] ==> new_ in labels
  {
    if StatusLabels(labels) == [new_] { assert new_ in StatusLabels(labels); }
  }

  lemma ClaimMeant(labels: seq<string>, n: nat)
    requires One(labels) && READY in labels
    ensures MeantFor(labels, [ClaimEdit(n)], n)
  {
    StatusesApart();
    assert IsStatus(READY) && IsStatus(IN_PROGRESS);
    hide IsStatus;
    assert Leaves(labels, [ClaimEdit(n)], n, IN_PROGRESS);
  }

  lemma NothingMoves(n: nat)
    ensures !Moves([], n)
  {
  }

  lemma OfOther(m: nat, labels: seq<string>, body: string, new_: string, swaps: bool, n: nat)
    requires Supported(new_) && m != n
    ensures !Moves(ReplaceEdits(m, labels, body, new_, swaps), n)
  {
    hide SyncedBody, BareStatus, StatusLabels, Without;
  }

  /** A list about n made now, or about another issue. */
  lemma NewList(labels: seq<string>, m: nat, read: seq<string>, body: string, new_: string, swaps: bool, n: nat)
    requires Supported(new_) && One(labels) && (m == n ==> read == labels)
    ensures var edits := ReplaceEdits(m, read, body, new_, swaps); Moves(edits, n) ==> MeantFor(labels, edits, n)
  {
    if m == n { FreshMeant(n, labels, body, new_, swaps); } else { OfOther(m, read, body, new_, swaps, n); }
  }

  lemma WatcherReads(b: Board, pc: Pc, n: nat)
    requires n in b && Neat(Watching(pc)) && One(b[n].labels) && Knows(b[n].labels, Watching(pc), n)
    requires !Moves(Pending(Watching(pc)), n)
    ensures Knows(b[n].labels, Watching(Step(b, pc).pc), n)
  {
    NothingMoves(n);
    hide One, MeantFor, Shaped, ResolveTaskIssue, FindIssue, Field, TaskList, ReplaceEdits, Apply;
    match pc
    case Resolving(pr) =>
      if pr.merged && ResolveTaskIssue(b, pr).Some? {
        var m := ResolveTaskIssue(b, pr).value.1;
        NewList(b[n].labels, m, b[m].labels, b[m].body, MERGED, false, n);
      }
    case Writing(edits, _) => if edits != [] { assert forall e :: e in edits[1..] ==> e in edits; }
    case Refreshing(_) =>
    case Scanning(ids) =>
      if ids != [] && FindIssue(b, ids[0]).Some? {
        var m := FindIssue(b, ids[0]).value;
        NewList(b[n].labels, m, b[m].labels, b[m].body, NEEDS_ATTENTION, false, n);
      }
    case Checking(_, target, labels, body, _, _, _, _) =>
      NewList(b[n].labels, target, labels, body, NEEDS_ATTENTION, false, n);
      NewList(b[n].labels, target, labels, body, READY, false, n);
    case Stopped =>
  }

  /** A process that changes nothing of n now knows its labels afterwards if it takes n up. */
  lemma StepReads(b: Board, lockFile: bool, p: Process, a: Answer, n: nat)
    requires n in b && Neat(p) && One(b[n].labels) && Knows(b[n].labels, p, n) && !Moves(Pending(p), n)
    ensures var (_, _, q) := ProcessStep(b, lockFile, p, a); Knows(b[n].labels, q, n)
  {
    NothingMoves(n);
    hide One, MeantFor, Step, ReplaceEdits, Apply, NothingInProgress;
    match p
    case Watching(pc) => if a.Ok? { WatcherReads(b, pc, n); }
    case Supervising(s) =>
      if READY in b[n].labels { ClaimMeant(b[n].labels, n); }
    case Dispatching(d) =>
      if a.Pick? && OpenReady(b, a.number) {
        NewList(b[n].labels, a.number, b[a.number].labels, b[a.number].body, IN_PROGRESS, true, n);
      }
      if d.Claims? && d.edits != [] { assert forall e :: e in d.edits[1..] ==> e in d.edits; }
  }

  /** Where a process stands that has made, or failed to make, a change to the labels of n. */
  lemma AfterMove(b: Board, lockFile: bool, p: Process, a: Answer, n: nat)
    requires Moves(Pending(p), n)
    ensures var (_, _, q) := ProcessStep(b, lockFile, p, a);
            && !(q.Watching? && q.pc.Checking?)
            && (a.Ok? ==> Pending(q) == Pending(p)[1..])
            && (!a.Ok? ==> Pending(q) == [] || (Pending(q) == Pending(p) && !TakesEffect(a)))
  {
    NothingMoves(n);
    hide Moves, Apply, NothingInProgress, OpenReady, ReplaceEdits;
  }

  lemma MoveKnows(b: Board, lockFile: bool, p: Process, a: Answer, n: nat)
    requires n in b && Neat(p) && Moves(Pending(p), n) && Knows(b[n].labels, p, n)
    requires !a.Ok? ==> PutsOn(Pending(p), n).Some?
    ensures var (c, _, q) := ProcessStep(b, lockFile, p, a); n in c && Knows(c[n].labels, q, n)
  {
    NothingMoves(n);
    AfterMove(b, lockFile, p, a, n);
    StepPends(b, lockFile, p, a, n);
    NeatMeans(p);
    var edits := Pending(p);
    hide ProcessStep, One, MeantFor, Moves, Neat, Shaped;
    if TakesEffect(a) {
      MoveOn(b, edits, n);
      NoMorePuts(edits, n);
    }
  }

  lemma NoMorePuts(edits: seq<Edit>, n: nat)
    requires Shaped(edits) && edits != []
    ensures PutsOn(edits[1..], n).None?
  {
    if edits[1..] != [] { assert edits[1..][0] == edits[1]; }
  }

  // ---------------------------------------------------------------- runs

  /** Taking turns, each change is in turn. */
  lemma CarefulInTurn(w: World, e: Event, n: nat)
    requires Careful(w, n) && Steady(w, e, n)
    ensures InTurn(w, e, n)
  {
    hide One, MeantFor, Moves, Pending, PutsOn, Orderly, NoTwoHold;
  }

  lemma UnderWayHolds(w: World, h: nat, n: nat, pid: nat, a: Answer)
    requires UnderWay(w, h, n) && pid in w.processes && !Moves(Pending(w.processes[pid]), n)
    ensures var v := Next(w, Act(pid, a)); h != pid && h in v.processes && Holds(v.processes[h], n)
  {
    hide ProcessStep;
  }

  /** When a process that changes nothing of n has taken it up, one status was on n. */
  lemma TakenUp(w: World, pid: nat, a: Answer, n: nat)
    requires Careful(w, n) && pid in w.processes && !Moves(Pending(w.processes[pid]), n)
    requires var v := Next(w, Act(pid, a)); NoTwoHold(v, n) && Holds(v.processes[pid], n)
    ensures One(w.board[n].labels)
  {
    hide ProcessStep, One, MeantFor, Moves, Knows, Holds, HasStatus, Neat;
    if !One(w.board[n].labels) {
      var h :| UnderWay(w, h, n);
      UnderWayHolds(w, h, n, pid, a);
    }
  }

  lemma HoldsNot(labels: seq<string>, p: Process, n: nat)
    requires !Holds(p, n)
    ensures Knows(labels, p, n)
  {
  }

  lemma ActKnows(w: World, pid: nat, a: Answer, n: nat, q: nat)
    requires Careful(w, n) && pid in w.processes && Steady(w, Act(pid, a), n) && q in w.processes
    requires var v := Next(w, Act(pid, a)); NoTwoHold(v, n) && n in v.board
    ensures var v := Next(w, Act(pid, a)); q in v.processes && Knows(v.board[n].labels, v.processes[q], n)
  {
    hide ProcessStep, One, MeantFor, Moves, Knows, HasStatus, Holds, Pending;
    var v := Next(w, Act(pid, a));
    var p := w.processes[pid];
    assert Neat(p) && Knows(w.board[n].labels, p, n) && Knows(w.board[n].labels, w.processes[q], n);
    StepPends(w.board, w.lockFile, p, a, n);
    hide Neat, Orderly;
    if q == pid {
      if Moves(Pending(p), n) {
        MoveKnows(w.board, w.lockFile, p, a, n);
      } else if Holds(v.processes[pid], n) {
        TakenUp(w, pid, a, n);
        StepReads(w.board, w.lockFile, p, a, n);
      } else {
        HoldsNot(v.board[n].labels, v.processes[pid], n);
      }
    } else if Moves(Pending(p), n) {
      assert Holds(p, n) by { MovesHolds(p, n); }
      HoldsNot(v.board[n].labels, w.processes[q], n);
    }
  }

  lemma MovesHolds(p: Process, n: nat)
    requires Moves(Pending(p), n)
    ensures Holds(p, n)
  {
  }

  lemma InitialHoldsNothing(p: Process, n: nat)
    requires Initial(p)
    ensures !Holds(p, n)
  {
    NothingMoves(n);
  }

  lemma NextCareful(w: World, e: Event, n: nat)
    requires Careful(w, n) && Steady(w, e, n) && NoTwoHold(Next(w, e), n)
    ensures Careful(Next(w, e), n) && InTurn(w, e, n)
  {
    CarefulInTurn(w, e, n);
    NextOrderly(w, e, n);
    hide One, MeantFor, Moves, Knows, HasStatus, Holds, Pending, ProcessStep, InTurn, Steady, Initial, NoTwoHold;
    var v := Next(w, e);
    forall q | q in v.processes ensures Knows(v.board[n].labels, v.processes[q], n) {
      match e
      case Act(pid, a) => if pid in w.processes { ActKnows(w, pid, a, n, q); }
      case Spawn(pid, p) => if q == pid && q !in w.processes { InitialHoldsNothing(p, n); HoldsNot(v.board[n].labels, p, n); }
      case Close(_) => assert v.processes[q] == w.processes[q];
    }
  }

  lemma {:induction false} TurnsInTurn(w: World, es: seq<Event>, n: nat)
    requires Careful(w, n) && TakesTurns(w, es, n)
    ensures InTurnAlways(w, es, n)
    decreases |es|
  {
    hide Careful, Steady, NoTwoHold, InTurn, Next;
    if es != [] {
      NextCareful(w, es[0], n);
      TurnsInTurn(Next(w, es[0]), es[1..], n);
    }
  }

  /** On every board, malformed issues included, in every run in which no two agents hold n at once and nobody is
      stopped between two changes to it: n always has a status, and exactly one whenever nobody changes it. */
  lemma OneStatusInTurns(b: Board, es: seq<Event>, n: nat)
    requires n in b && One(b[n].labels) && TakesTurns(Start(b), es, n)
    ensures var w := Run(Start(b), es);
            && n in w.board && HasStatus(w.board, n)
            && ((forall p :: p in w.processes ==> !Moves(Pending(w.processes[p]), n)) ==> One(w.board[n].labels))
  {
    OneHas(b, n);
    assert Careful(Start(b), n);
    hide Careful, One, Run, TakesTurns, InTurnAlways, HasStatus, Moves, Pending;
    TurnsInTurn(Start(b), es, n);
    OneStatusAlways(b, es, n);
  }
}
