/** The other half of StatusKept: a watcher that is about to take the last status off an issue does it when
    it runs on, so the condition there is exact. */
module StatusLoss {
  import opened Text
  import opened TaskStatus
  import opened Tracker
  import opened Dependencies
  import opened Watcher
  import opened Queue
  import InProgress
  import opened MergedDependencies
  import opened Unblocking
  import opened Restart
  import opened StatusKept
  import opened StatusRaces

  /** No status but this one is on n. */
  ghost predicate Only(b: Board, n: nat, tag: string) { forall l :: IsStatus(l) && l != tag ==> !Carries(b, n, l) }

  // ---------------------------------------------------------------- the threat carried out

  function ReadyAgainEdits(pc: Pc): seq<Edit>
    requires pc.Checking?
  {
    ReplaceEdits(pc.target, pc.labels, pc.body, READY, false)
  }

  /** The calls a threatening run has left until the tag is off. */
  function StepsLeft(pc: Pc): nat {
    match pc
    case Writing(edits, _) => |edits|
    case Checking(_, _, _, _, deps, _, _, _) => |deps| + 1 + |ReadyAgainEdits(pc)|
    case _ => 0
  }

  /** From b to c all that the run threatens on n has gone, and nothing has come. */
  ghost predicate Taken(b: Board, pc: Pc, n: nat, c: Board) {
    && (forall l :: IsStatus(l) && Threatens(pc, n, l) ==> !Carries(c, n, l))
    && (forall l :: Carries(c, n, l) ==> Carries(b, n, l))
  }

  lemma WritingTakesOff(b: Board, edits: seq<Edit>, next: Pc, n: nat, tag: string)
    requires Tidy(b, edits) && Threatens(Writing(edits, next), n, tag)
    ensures Taken(b, Writing(edits, next), n, After(b, Writing(edits, next), |edits|).0)
  {
    AfterWriting(b, edits, next);
    hide After, ApplyAll, IsStatus, Carries;
    forall e | e in edits ensures !e.SwapLabels? && !e.AddLabel? {
      assert TidyEdit(b, edits[0], e);
      var i :| 0 <= i < |edits| && edits[i] == e;
    }
    forall l | Threatens(Writing(edits, next), n, l) ensures !Carries(ApplyAll(b, edits), n, l) { TakenAway(b, edits, n, l); }
    forall l | Carries(ApplyAll(b, edits), n, l) ensures Carries(b, n, l) {
      if !Carries(b, n, l) { NeverAdded(b, edits, n, l); }
    }
  }

  /** Ready was there when the issue was viewed, so nothing is added before the other labels go. */
  lemma DecidedThreat(b: Board, pc: Pc, n: nat, tag: string)
    requires pc.Checking? && pc.deps == [] && PcSafe(b, pc) && IsStatus(tag) && Threatens(pc, n, tag)
    ensures var q := Writing(ReadyAgainEdits(pc), Scanning(pc.rest));
            Step(b, pc) == StepResult(b, q, [Change(pc.target, pc.labels, pc.body, READY)]) && Threatens(q, n, tag) && Tidy(b, q.edits)
  {
    hide Field, TaskList, IsMerged, Tidy;
    ReplaceTidy(b, pc.target, pc.labels, pc.body, READY);
    OnlyRemovals(pc.target, pc.labels, pc.body, tag);
    hide SyncedBody, ReplaceEdits, StatusLabels, BareStatus, IsStatus;
  }

  lemma OnlyRemovals(n: nat, labels: seq<string>, body: string, tag: string)
    requires READY in labels && tag in labels && tag != READY && IsStatus(tag)
    ensures var edits := ReplaceEdits(n, labels, body, READY, false); RemoveLabel(n, tag) in edits && !edits[0].AddLabel?
  {
    hide SyncedBody, BareStatus;
    var removals := Removals(n, StatusLabels(labels), READY);
    assert tag in StatusLabels(labels);
    assert RemoveLabel(n, tag) in removals;
    assert LabelEdits(n, labels, READY, false) == [] + removals == removals;
  }

  /** The dependencies looked at, the decision, and then so many edits. */
  lemma AfterDeciding(b: Board, pc: Pc, looked: nat, done: Pc, q: Pc, edits: nat, steps: nat)
    requires steps == looked + 1 + edits
    requires After(b, pc, looked) == (b, done) && Step(b, done).board == b && Step(b, done).pc == q
    ensures After(b, pc, steps) == After(b, q, edits)
  {
    AfterOne(b, done);
    hide *;
    AfterMore(b, pc, looked, 1);
    AfterMore(b, pc, looked + 1, edits);
  }

  lemma StillSafe(b: Board, pc: Pc)
    requires pc.Checking? && PcSafe(b, pc) && DepsMerged(b, pc.target)
    ensures PcSafe(b, pc.(deps := [])) && pc.unresolved == []
    ensures forall e :: e in pc.deps ==> IsMerged(b, e)
  {
    hide Field, TaskList, IsMerged;
  }

  lemma DecidedThreats(b: Board, pc: Pc, n: nat, tag: string)
    requires pc.Checking? && pc.deps == [] && PcSafe(b, pc) && IsStatus(tag) && Threatens(pc, n, tag)
    ensures var q := Writing(ReadyAgainEdits(pc), Scanning(pc.rest));
            && Step(b, pc).board == b && Step(b, pc).pc == q && Tidy(b, q.edits)
            && forall l :: IsStatus(l) && Threatens(pc, n, l) ==> Threatens(q, n, l)
  {
    hide PcSafe, IsStatus, Step, Tidy, ReadyAgainEdits, Threatens;
    DecidedThreat(b, pc, n, tag);
    forall l | IsStatus(l) && Threatens(pc, n, l) ensures Threatens(Writing(ReadyAgainEdits(pc), Scanning(pc.rest)), n, l) {
      DecidedThreat(b, pc, n, l);
    }
  }

  lemma TakenLater(b: Board, pc: Pc, q: Pc, n: nat, c: Board)
    requires Taken(b, q, n, c) && forall l :: IsStatus(l) && Threatens(pc, n, l) ==> Threatens(q, n, l)
    ensures Taken(b, pc, n, c)
  {
    hide IsStatus, Threatens, Carries;
  }

  lemma SameThreats(pc: Pc, n: nat, tag: string)
    requires pc.Checking? && Threatens(pc, n, tag)
    ensures var done := pc.(deps := []);
            && pc.target == n && pc.missing == [] && ReadyAgainEdits(done) == ReadyAgainEdits(pc)
            && StepsLeft(pc) == |pc.deps| + 1 + |ReadyAgainEdits(pc)|
            && forall l :: Threatens(pc, n, l) ==> Threatens(done, n, l)
  {
    hide ReplaceEdits;
  }

  lemma CheckingDecides(b: Board, pc: Pc, n: nat, tag: string)
    requires pc.Checking? && PcSafe(b, pc) && Threatens(pc, n, tag) && IsStatus(tag) && DepsMerged(b, n)
    ensures After(b, pc, StepsLeft(pc)) == After(b, Writing(ReadyAgainEdits(pc), Scanning(pc.rest)), |ReadyAgainEdits(pc)|)
  {
    var done, edits := pc.(deps := []), ReadyAgainEdits(pc);
    hide *;
    SameThreats(pc, n, tag);
    StillSafe(b, pc);
    DecidedThreats(b, done, n, tag);
    AfterChecking(b, pc);
    AfterDeciding(b, pc, |pc.deps|, done, Writing(edits, Scanning(pc.rest)), |edits|, StepsLeft(pc));
  }

  lemma DecisionThreatens(b: Board, pc: Pc, n: nat, tag: string)
    requires pc.Checking? && PcSafe(b, pc) && Threatens(pc, n, tag) && IsStatus(tag) && DepsMerged(b, n)
    ensures Tidy(b, ReadyAgainEdits(pc))
    ensures forall l :: IsStatus(l) && Threatens(pc, n, l) ==> Threatens(Writing(ReadyAgainEdits(pc), Scanning(pc.rest)), n, l)
  {
    var done := pc.(deps := []);
    hide *;
    SameThreats(pc, n, tag);
    StillSafe(b, pc);
    DecidedThreats(b, done, n, tag);
  }

  lemma CheckingTakesOff(b: Board, pc: Pc, n: nat, tag: string)
    requires pc.Checking? && PcSafe(b, pc) && Threatens(pc, n, tag) && IsStatus(tag) && DepsMerged(b, n)
    ensures Taken(b, pc, n, After(b, pc, StepsLeft(pc)).0)
  {
    var edits, next := ReadyAgainEdits(pc), Scanning(pc.rest);
    hide *;
    SameThreats(pc, n, tag);
    CheckingDecides(b, pc, n, tag);
    DecisionThreatens(b, pc, n, tag);
    WritingTakesOff(b, edits, next, n, tag);
    TakenLater(b, pc, Writing(edits, next), n, After(b, Writing(edits, next), |edits|).0);
  }

  lemma ThreatMeans(b: Board, pc: Pc, n: nat, tag: string)
    requires PcSafe(b, pc) && PcTidy(b, pc) && Threatens(pc, n, tag) && IsStatus(tag) && DepsMerged(b, n)
    ensures Taken(b, pc, n, After(b, pc, StepsLeft(pc)).0)
  {
    hide After, Taken, DepsMerged, IsStatus, Tidy, PcSafe, ReplaceEdits;
    match pc
    case Writing(edits, next) => WritingTakesOff(b, edits, next, n, tag);
    case Checking(_, _, _, _, _, _, _, _) => CheckingTakesOff(b, pc, n, tag);
  }

  /** Run on by itself, a watcher that threatens a status of a free issue takes all it threatens off and puts
      nothing on; if that was the last status, none is left. */
  lemma ThreatCarriedOut(w: World, p: nat, n: nat, tag: string)
    requires TidyWorld(w) && p in w.processes && Threat(w.processes[p], n, tag) && IsStatus(tag) && DepsMerged(w.board, n)
    ensures Taken(w.board, w.processes[p].pc, n, Run(w, Acts(p, StepsLeft(w.processes[p].pc))).board)
    ensures Only(w.board, n, tag) ==> !HasStatus(Run(w, Acts(p, StepsLeft(w.processes[p].pc))).board, n)
    ensures forall q :: q in w.processes && q != p ==>
              var v := Run(w, Acts(p, StepsLeft(w.processes[p].pc))); q in v.processes && v.processes[q] == w.processes[q]
  {
    hide Run, After, Taken, Only, HasStatus, DepsMerged, IsStatus, Tidy, StepsLeft, Threatens, Safe, WellFormed, PcSafe, Acts;
    var pc := w.processes[p].pc;
    assert ProcessSafe(w.board, w.processes[p]) && ProcessTidy(w.board, w.processes[p]);
    RunActs(w, p, StepsLeft(pc));
    ThreatMeans(w.board, pc, n, tag);
    LastTaken(w.board, pc, n, After(w.board, pc, StepsLeft(pc)).0, tag);
  }

  lemma LastTaken(b: Board, pc: Pc, n: nat, c: Board, tag: string)
    requires Taken(b, pc, n, c) && IsStatus(tag) && Threatens(pc, n, tag)
    ensures Only(b, n, tag) ==> !HasStatus(c, n)
  {
    hide IsStatus, Threatens, Carries;
  }

  /** A watcher claims nothing. */
  lemma {:induction false} ActsSpare(w: World, p: nat, steps: nat, n: nat)
    requires p in w.processes && w.processes[p].Watching?
    ensures SparedAlways(w, Acts(p, steps), n)
    decreases steps
  {
    hide WatcherStep, Free;
    if steps > 0 {
      assert Acts(p, steps)[1..] == Acts(p, steps - 1);
      ActsSpare(Next(w, Act(p, Ok)), p, steps - 1, n);
    }
  }

  // ---------------------------------------------------------------- exactly when

  lemma {:induction false} RunTidy(w: World, es: seq<Event>)
    requires TidyWorld(w)
    ensures TidyWorld(Run(w, es))
    decreases |es|
  {
    hide TidyWorld, Next;
    if es != [] {
      NextTidy(w, es[0]);
      RunTidy(Next(w, es[0]), es[1..]);
    }
  }

  lemma StartTidy(b: Board)
    requires WellFormed(b) && Safe(b)
    ensures TidyWorld(Start(b))
  {
  }

  lemma InProgressIsFree(b: Board, n: nat)
    requires Safe(b) && Carries(b, n, IN_PROGRESS)
    ensures DepsMerged(b, n)
  {
    hide DepsMerged;
    assert MayWork(IN_PROGRESS);
  }

  /** Some status is on n that nobody is about to take off. */
  ghost predicate Held(w: World, n: nat) { exists tag :: IsStatus(tag) && Carries(w.board, n, tag) && Free(w, n, tag) }

  lemma FreeKeeps(w: World, es: seq<Event>, n: nat)
    requires TidyWorld(w) && Held(w, n) && SparedAlways(w, es, n)
    ensures HasStatus(Run(w, es).board, n)
  {
    hide TidyWorld, Run, SparedAlways, Threat;
    StatusesApart();
    assert IsStatus(IN_PROGRESS) && IsStatus(READY) && IsStatus(MERGED);
    hide IsStatus;
    var tag :| IsStatus(tag) && Carries(w.board, n, tag) && Free(w, n, tag);
    var tags := {tag, READY, MERGED, IN_PROGRESS};
    assert Anchored(w, n, tags);
    RunAnchors(w, es, n, tags);
    var held :| held in tags && Carries(Run(w, es).board, n, held) && Free(Run(w, es), n, held);
  }

  lemma {:induction false} SparedAppend(w: World, es: seq<Event>, fs: seq<Event>, n: nat)
    requires SparedAlways(w, es, n) && SparedAlways(Run(w, es), fs, n)
    ensures SparedAlways(w, es + fs, n)
    decreases |es|
  {
    hide Next, Spared;
    if es == [] {
      assert es + fs == fs;
    } else {
      assert (es + fs)[1..] == es[1..] + fs;
      SparedAppend(Next(w, es[0]), es[1..], fs, n);
    }
  }

  /** Each of these tags is off n, or some watcher is about to take it off. */
  ghost predicate AllThreatened(w: World, n: nat, left: seq<string>) {
    forall tag :: IsStatus(tag) && Carries(w.board, n, tag) ==> tag in left && !Free(w, n, tag)
  }

  /** One watcher after another takes off what it threatens. */
  lemma {:induction false} ThreatenedLoses(w: World, n: nat, left: seq<string>) returns (es: seq<Event>)
    requires TidyWorld(w) && DepsMerged(w.board, n) && AllThreatened(w, n, left)
    ensures SparedAlways(w, es, n) && !HasStatus(Run(w, es).board, n)
    decreases |left|
  {
    hide TidyWorld, DepsMerged, Run, SparedAlways, Free, IsStatus, Carries;
    if left == [] {
      es := [];
      NothingThere(w, n);
    } else if IsStatus(left[0]) && Carries(w.board, n, left[0]) {
      var first := FirstTakes(w, n, left);
      var v := Run(w, first);
      var more := ThreatenedLoses(v, n, left[1..]);
      es := first + more;
      SparedAppend(w, first, more, n);
      InProgress.RunAppend(w, first, more);
    } else {
      Shorter(w, n, left);
      es := ThreatenedLoses(w, n, left[1..]);
    }
  }

  lemma NothingThere(w: World, n: nat)
    requires AllThreatened(w, n, [])
    ensures SparedAlways(w, [], n) && !HasStatus(Run(w, []).board, n)
  {
    hide IsStatus, Carries, Free;
  }

  lemma Shorter(w: World, n: nat, left: seq<string>)
    requires left != [] && AllThreatened(w, n, left) && !(IsStatus(left[0]) && Carries(w.board, n, left[0]))
    ensures AllThreatened(w, n, left[1..])
  {
    hide IsStatus, Carries, Free;
    assert forall tag :: tag in left ==> tag == left[0] || tag in left[1..];
  }

  lemma FirstTakes(w: World, n: nat, left: seq<string>) returns (es: seq<Event>)
    requires TidyWorld(w) && DepsMerged(w.board, n) && AllThreatened(w, n, left) && left != []
    requires IsStatus(left[0]) && Carries(w.board, n, left[0])
    ensures SparedAlways(w, es, n) && TidyWorld(Run(w, es)) && DepsMerged(Run(w, es).board, n) && AllThreatened(Run(w, es), n, left[1..])
  {
    hide TidyWorld, DepsMerged, Run, SparedAlways, IsStatus, Carries, Threatens, StepsLeft, Acts, Taken;
    var tag := left[0];
    var p :| p in w.processes && Threat(w.processes[p], n, tag);
    ThreatCarriedOut(w, p, n, tag);
    es := Acts(p, StepsLeft(w.processes[p].pc));
    ActsSpare(w, p, StepsLeft(w.processes[p].pc), n);
    RunTidy(w, es);
    RunFree(w, es, n);
    StillThreatened(w, Run(w, es), p, n, left);
  }

  lemma RunFree(w: World, es: seq<Event>, n: nat)
    requires TidyWorld(w) && DepsMerged(w.board, n)
    ensures DepsMerged(Run(w, es).board, n)
  {
    RunSafe(w, es);
    hide Run, DepsMerged, Grows;
    DepsStayMerged(w.board, Run(w, es).board, n);
  }

  lemma StillThreatened(w: World, v: World, p: nat, n: nat, left: seq<string>)
    requires AllThreatened(w, n, left) && left != [] && p in w.processes && Threat(w.processes[p], n, left[0]) && IsStatus(left[0])
    requires Taken(w.board, w.processes[p].pc, n, v.board)
    requires forall q :: q in w.processes && q != p ==> q in v.processes && v.processes[q] == w.processes[q]
    ensures AllThreatened(v, n, left[1..])
  {
    hide IsStatus, Carries, Threatens;
    assert forall tag :: tag in left ==> tag == left[0] || tag in left[1..];
    forall tag | IsStatus(tag) && Carries(v.board, n, tag) ensures tag in left[1..] && !Free(v, n, tag) {
      assert Carries(w.board, n, tag);
      var q :| q in w.processes && Threat(w.processes[q], n, tag);
      assert q != p && Threat(v.processes[q], n, tag);
    }
  }

  /** In every reachable world: an issue in progress can lose every status, without a further claim at the wrong
      moment, exactly when watchers are about to take off each status it has. */
  lemma LostExactly(b: Board, before: seq<Event>, n: nat)
    requires WellFormed(b) && Safe(b) && Carries(Run(Start(b), before).board, n, IN_PROGRESS)
    ensures var w := Run(Start(b), before);
            (exists es :: SparedAlways(w, es, n) && !HasStatus(Run(w, es).board, n))
            <==> forall tag :: IsStatus(tag) && Carries(w.board, n, tag) ==> !Free(w, n, tag)
  {
    hide Run, SparedAlways, HasStatus, TidyWorld, WellFormed, Safe, Free, Carries, IsStatus;
    StartTidy(b);
    RunTidy(Start(b), before);
    LostWhenThreatened(Run(Start(b), before), n);
  }

  lemma LostWhenThreatened(w: World, n: nat)
    requires TidyWorld(w) && Carries(w.board, n, IN_PROGRESS)
    ensures (exists es :: SparedAlways(w, es, n) && !HasStatus(Run(w, es).board, n))
            <==> forall tag :: IsStatus(tag) && Carries(w.board, n, tag) ==> !Free(w, n, tag)
  {
    InProgressIsFree(w.board, n);
    StatusesListed(w, n);
    hide Run, SparedAlways, HasStatus, TidyWorld, Free, Carries, IsStatus, DepsMerged, StatusLabels;
    if Held(w, n) {
      forall es | SparedAlways(w, es, n) ensures HasStatus(Run(w, es).board, n) { FreeKeeps(w, es, n); }
    } else {
      var es := ThreatenedLoses(w, n, StatusLabels(w.board[n].labels));
    }
  }

  lemma StatusesListed(w: World, n: nat)
    requires n in w.board
    ensures forall tag :: IsStatus(tag) && Carries(w.board, n, tag) ==> tag in StatusLabels(w.board[n].labels)
  {
  }

  // ---------------------------------------------------------------- the claim

  lemma ClaimLeavesOne(w: World, e: Event, n: nat)
    requires TidyWorld(w) && ClaimsNow(w, e, n) && n in w.board
    requires forall l :: IsStatus(l) && Carries(w.board, n, l) ==> l == READY || l == IN_PROGRESS
    ensures var c := Next(w, e).board; Carries(c, n, IN_PROGRESS) && Only(c, n, IN_PROGRESS)
  {
    hide IsStatus, WatcherStep, Safe, WellFormed, ProcessSafe, Without, With;
    var p := w.processes[e.pid];
    assert ProcessTidy(w.board, p);
    if p.Dispatching? { assert p.disp.edits[0] in p.disp.edits; }
  }

  lemma ClaimThreatensNobody(w: World, e: Event, n: nat)
    requires TidyWorld(w) && ClaimsNow(w, e, n)
    ensures Free(Next(w, e), n, IN_PROGRESS) <==> Free(w, n, IN_PROGRESS)
  {
    hide WatcherStep, SupervisorStep, DispatcherStep, Threatens, AllSafe, ProcessTidy;
    var v := Next(w, e);
    assert forall q :: q in w.processes ==> q in v.processes && (Threat(v.processes[q], n, IN_PROGRESS) <==> Threat(w.processes[q], n, IN_PROGRESS));
    assert forall q :: q in v.processes ==> q in w.processes;
  }

  /** In every reachable world: behind a claim of a ready issue its status can be lost, without a further
      claim at the wrong moment, exactly when this claim came at one. */
  lemma ClaimLosesExactly(b: Board, before: seq<Event>, e: Event, n: nat)
    requires WellFormed(b) && Safe(b)
    requires var w := Run(Start(b), before);
             && ClaimsNow(w, e, n) && n in w.board
             && forall l :: IsStatus(l) && Carries(w.board, n, l) ==> l == READY || l == IN_PROGRESS
    ensures var w := Run(Start(b), before);
            var v := Next(w, e);
            (exists es :: SparedAlways(v, es, n) && !HasStatus(Run(v, es).board, n)) <==> !Spared(w, e, n)
  {
    assert IsStatus(IN_PROGRESS);
    hide Run, SparedAlways, HasStatus, TidyWorld, WellFormed, Safe, Free, IsStatus, ClaimsNow, Next;
    StartTidy(b);
    RunTidy(Start(b), before);
    var w := Run(Start(b), before);
    NextTidy(w, e);
    ClaimLeavesOne(w, e, n);
    ClaimThreatensNobody(w, e, n);
    LostWhenThreatened(Next(w, e), n);
  }
}
