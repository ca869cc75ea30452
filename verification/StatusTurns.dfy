/** One status per issue over all runs and on every board: kept as long as each list of edits is made on
    labels it was meant for, and exactly then by the run that makes it. */
module StatusTurns {
  import opened Text
  import opened TaskStatus
  import opened Tracker
  import opened Dependencies
  import opened Watcher
  import opened Queue
  import InProgress
  import opened StatusKept
  import opened StatusRaces
  import opened Restart

  /** One status stands among the labels. */
  ghost predicate One(labels: seq<string>) {
    exists goal :: IsStatus(goal) && goal in labels && forall l :: l in labels && IsStatus(l) ==> l == goal
  }

  // ---------------------------------------------------------------- a list of edits

  /** The edits a process is in the middle of making. */
  function Pending(p: Process): seq<Edit> {
    match p
    case Watching(pc) => if pc.Writing? then pc.edits else []
    case Dispatching(d) => if d.Claims? then d.edits else []
    case Supervising(s) => if (s.Running? || s.Orphaned?) && s.runner.Claiming? then [ClaimEdit(s.runner.number)] else []
  }

  /** What one replacement sends: at most one status is put on, first, and not taken off again. */
  predicate Shaped(edits: seq<Edit>) {
    && (forall e :: e in edits ==> e.number == edits[0].number)
    && (forall i :: 0 < i < |edits| ==> edits[i].RemoveLabel? || edits[i].SetBody?)
    && (edits != [] && (edits[0].AddLabel? || edits[0].SwapLabels?) ==>
          IsStatus(edits[0].tag) && RemoveLabel(edits[0].number, edits[0].tag) !in edits)
  }

  /** Labels of n are still to be changed. */
  predicate Moves(edits: seq<Edit>, n: nat) { exists e :: e in edits && e.number == n && !e.SetBody? }

  /** What the list puts on n. */
  function PutsOn(edits: seq<Edit>, n: nat): Option<string> {
    if edits != [] && edits[0].number == n && (edits[0].AddLabel? || edits[0].SwapLabels?) then Some(edits[0].tag) else None
  }

  predicate TakesOff(edits: seq<Edit>, n: nat, tag: string) {
    || RemoveLabel(n, tag) in edits
    || (edits != [] && edits[0].SwapLabels? && edits[0].number == n && tag in edits[0].removed)
  }

  /** The list was meant for these labels: every status among them is taken off, but for the one put on or, when
      none is put on, one that is there. */
  ghost predicate MeantFor(labels: seq<string>, edits: seq<Edit>, n: nat) {
    exists goal :: Leaves(labels, edits, n, goal)
  }

  predicate Leaves(labels: seq<string>, edits: seq<Edit>, n: nat, goal: string) {
    && IsStatus(goal)
    && (match PutsOn(edits, n) case Some(tag) => tag == goal case None => goal in labels && !TakesOff(edits, n, goal))
    && forall l :: l in labels && IsStatus(l) && l != goal ==> TakesOff(edits, n, l)
  }

  lemma ReplaceShaped(n: nat, labels: seq<string>, body: string, new_: string, swaps: bool)
    requires Supported(new_)
    ensures Shaped(ReplaceEdits(n, labels, body, new_, swaps))
  {
    assert IsStatus(new_);
    var olds := StatusLabels(labels);
    hide SyncedBody, BareStatus, StatusLabels, IsStatus, Removals, Without, Shaped;
    var puts: seq<Edit> := if swaps then if olds == [new_] then [] else [SwapLabels(n, Without(olds, [new_]), new_)]
                           else if new_ in labels then [] else [AddLabel(n, new_)];
    var removals := if swaps then [] else Removals(n, olds, new_);
    var synced := SyncedBody(body, BareStatus(new_).value);
    var bodies := if synced == body then [] else [SetBody(n, synced)];
    assert ReplaceEdits(n, labels, body, new_, swaps) == puts + (removals + bodies);
    hide ReplaceEdits, LabelEdits;
    assert forall e :: e in removals ==> e.RemoveLabel? && e.number == n && e.tag != new_;
    PartsShaped(puts, removals + bodies, n, new_);
  }

  lemma PartsShaped(puts: seq<Edit>, rest: seq<Edit>, n: nat, new_: string)
    requires puts == [] || (|puts| == 1 && puts[0].number == n && (puts[0].AddLabel? || puts[0].SwapLabels?) && puts[0].tag == new_)
    requires forall e :: e in rest ==> e.number == n && ((e.RemoveLabel? && e.tag != new_) || e.SetBody?)
    requires IsStatus(new_)
    ensures Shaped(puts + rest)
  {
    hide IsStatus;
    var edits := puts + rest;
    forall i | |puts| <= i < |edits| ensures edits[i] in rest { assert edits[i] == rest[i - |puts|]; }
    assert forall e :: e in edits ==> e in puts || e in rest;
  }

  /** The labels after one edit. */
  lemma OneEdit(b: Board, edits: seq<Edit>, n: nat, tag: string)
    requires Shaped(edits) && edits != [] && n in b
    ensures var c, rest := Apply(b, edits[0]), edits[1..];
            && n in c && Shaped(rest) && PutsOn(rest, n).None?
            && (PutsOn(edits, n) == Some(tag) || (Carries(b, n, tag) && !TakesOff(edits, n, tag))
                <==> Carries(c, n, tag) && !TakesOff(rest, n, tag))
  {
    hide IsStatus;
    var rest := edits[1..];
    RestShaped(edits);
    assert forall e :: e in edits <==> e == edits[0] || e in rest;
    if rest != [] { assert rest[0] == edits[1]; }
  }

  lemma RestShaped(edits: seq<Edit>)
    requires Shaped(edits) && edits != []
    ensures Shaped(edits[1..])
  {
    hide IsStatus;
    var rest := edits[1..];
    assert forall e :: e in rest ==> e in edits;
    forall i | 0 <= i < |rest| ensures rest[i] == edits[i + 1] {}
    if rest != [] { assert rest[0] in edits; }
  }

  /** The labels after the whole list. */
  lemma {:induction false} ListEffect(b: Board, edits: seq<Edit>, n: nat, tag: string)
    requires Shaped(edits) && n in b
    ensures n in ApplyAll(b, edits)
    ensures Carries(ApplyAll(b, edits), n, tag) <==> PutsOn(edits, n) == Some(tag) || (Carries(b, n, tag) && !TakesOff(edits, n, tag))
    decreases |edits|
  {
    hide Apply, Shaped;
    if edits != [] {
      OneEdit(b, edits, n, tag);
      ListEffect(Apply(b, edits[0]), edits[1..], n, tag);
    }
  }

  /** The labels end with exactly one status exactly when the list was meant for those it found. */
  lemma MeantForExactly(b: Board, edits: seq<Edit>, n: nat)
    requires Shaped(edits) && n in b
    ensures n in ApplyAll(b, edits)
    ensures One(ApplyAll(b, edits)[n].labels) <==> MeantFor(b[n].labels, edits, n)
  {
    var c := ApplyAll(b, edits);
    ListEffect(b, edits, n, READY);
    forall tag ensures tag in c[n].labels <==> PutsOn(edits, n) == Some(tag) || (tag in b[n].labels && !TakesOff(edits, n, tag)) {
      ListEffect(b, edits, n, tag);
    }
    PutsStatus(edits, n);
    hide ApplyAll, Shaped;
    AfterMeans(b[n].labels, edits, n, c[n].labels);
  }

  lemma PutsStatus(edits: seq<Edit>, n: nat)
    requires Shaped(edits)
    ensures PutsOn(edits, n).Some? ==> IsStatus(PutsOn(edits, n).value)
  {
  }

  lemma AfterMeans(before: seq<string>, edits: seq<Edit>, n: nat, after: seq<string>)
    requires forall tag :: tag in after <==> PutsOn(edits, n) == Some(tag) || (tag in before && !TakesOff(edits, n, tag))
    requires PutsOn(edits, n).Some? ==> IsStatus(PutsOn(edits, n).value)
    ensures One(after) <==> MeantFor(before, edits, n)
  {
    hide TakesOff, IsStatus, PutsOn;
    if One(after) {
      var goal :| IsStatus(goal) && goal in after && forall l :: l in after && IsStatus(l) ==> l == goal;
      if PutsOn(edits, n).Some? { assert PutsOn(edits, n).value in after; }
      assert Leaves(before, edits, n, goal);
    }
    if MeantFor(before, edits, n) {
      var goal :| Leaves(before, edits, n, goal);
      assert goal in after;
    }
  }

  // ---------------------------------------------------------------- a replacement made on other labels

  /** A replacement computed from some labels, made on whatever the labels are now, leaves its status alone on
      the issue exactly when no status has come since that it has not read, and the one it sets has not
      gone in case it was there. */
  lemma StaleReplacement(b: Board, n: nat, labels: seq<string>, body: string, new_: string, swaps: bool)
    requires n in b && Supported(new_)
    ensures var c := ApplyAll(b, ReplaceEdits(n, labels, body, new_, swaps));
            (forall l :: IsStatus(l) ==> (Carries(c, n, l) <==> l == new_))
            <==> && (forall l :: IsStatus(l) && Carries(b, n, l) ==> l in labels || l == new_)
                 && ((if swaps then StatusLabels(labels) == [new_] else new_ in labels) ==> Carries(b, n, new_))
  {
    var edits := ReplaceEdits(n, labels, body, new_, swaps);
    assert IsStatus(new_);
    ReplaceShaped(n, labels, body, new_, swaps);
    hide ApplyAll, Shaped, IsStatus;
    forall l | IsStatus(l)
      ensures Carries(ApplyAll(b, edits), n, l) <==> PutsOn(edits, n) == Some(l) || (Carries(b, n, l) && !TakesOff(edits, n, l))
    {
      ListEffect(b, edits, n, l);
    }
    ReplacePuts(n, labels, body, new_, swaps);
    hide ReplaceEdits, PutsOn, TakesOff;
    if swaps && StatusLabels(labels) == [new_] { assert new_ in StatusLabels(labels); }
  }

  lemma ReplacePuts(n: nat, labels: seq<string>, body: string, new_: string, swaps: bool)
    requires Supported(new_)
    ensures var edits := ReplaceEdits(n, labels, body, new_, swaps);
            var quiet := if swaps then StatusLabels(labels) == [new_] else new_ in labels;
            && PutsOn(edits, n) == (if quiet then None else Some(new_))
            && forall l :: IsStatus(l) ==> (TakesOff(edits, n, l) <==> l in labels && l != new_)
  {
    assert IsStatus(new_);
    var olds := StatusLabels(labels);
    assert forall l :: IsStatus(l) ==> (l in olds <==> l in labels);
    hide SyncedBody, BareStatus, IsStatus, StatusLabels, Removals, Without;
    var synced := SyncedBody(body, BareStatus(new_).value);
    var bodies := if synced == body then [] else [SetBody(n, synced)];
    assert ReplaceEdits(n, labels, body, new_, swaps) == LabelEdits(n, labels, new_, swaps) + bodies;
    hide ReplaceEdits;
    if swaps { SwapPuts(n, olds, new_, bodies); } else { AddPuts(n, labels, olds, new_, bodies); }
  }

  lemma SwapPuts(n: nat, olds: seq<string>, new_: string, bodies: seq<Edit>)
    requires forall e :: e in bodies ==> e.SetBody?
    ensures var edits := (if olds == [new_] then [] else [SwapLabels(n, Without(olds, [new_]), new_)]) + bodies;
            && PutsOn(edits, n) == (if olds == [new_] then None else Some(new_))
            && forall l :: TakesOff(edits, n, l) <==> l in olds && l != new_
  {
    if olds == [new_] {
      assert forall l :: l in olds <==> l == new_;
      assert [] + bodies == bodies;
      if bodies != [] { assert bodies[0] in bodies; }
    } else {
      hide Without;
      var e := SwapLabels(n, Without(olds, [new_]), new_);
      var edits := [e] + bodies;
      assert edits[0] == e;
      assert forall l :: RemoveLabel(n, l) !in edits;
    }
  }

  lemma AddPuts(n: nat, labels: seq<string>, olds: seq<string>, new_: string, bodies: seq<Edit>)
    requires forall e :: e in bodies ==> e.SetBody?
    ensures var edits := (if new_ in labels then [] else [AddLabel(n, new_)]) + Removals(n, olds, new_) + bodies;
            && PutsOn(edits, n) == (if new_ in labels then None else Some(new_))
            && forall l :: TakesOff(edits, n, l) <==> l in olds && l != new_
  {
    hide Removals;
    var puts, removals := if new_ in labels then [] else [AddLabel(n, new_)], Removals(n, olds, new_);
    var edits := puts + removals + bodies;
    assert forall e :: e in edits <==> e in puts || e in removals || e in bodies;
    assert forall l :: RemoveLabel(n, l) in edits <==> RemoveLabel(n, l) in removals;
    assert forall e :: e in edits ==> !e.SwapLabels?;
    if new_ in labels {
      assert forall e :: e in edits ==> !e.AddLabel?;
    } else {
      assert edits[0] == AddLabel(n, new_);
    }
    if edits != [] { assert edits[0] in edits; }
    forall l ensures TakesOff(edits, n, l) <==> l in olds && l != new_ {
      assert RemoveLabel(n, l) in removals <==> l in olds && l != new_;
    }
  }

  // ---------------------------------------------------------------- one event

  /** A call made with these answers takes effect. */
  predicate TakesEffect(a: Answer) { a.Ok? || a == Fails(true) }

  /** A call that changes labels of n is made in turn: its list was meant for the labels there are, and nothing
      of the list is left behind. A call without effect may fail where n has one status. */
  ghost predicate InTurn(w: World, e: Event, n: nat) {
    e.Act? && e.pid in w.processes && n in w.board && Moves(Pending(w.processes[e.pid]), n) ==>
      var edits := Pending(w.processes[e.pid]);
      if TakesEffect(e.answer) then MeantFor(w.board[n].labels, edits, n) && (e.answer.Ok? || !Moves(edits[1..], n))
      else One(w.board[n].labels)
  }

  ghost predicate UnderWay(w: World, p: nat, n: nat) {
    p in w.processes && n in w.board && Moves(Pending(w.processes[p]), n) && MeantFor(w.board[n].labels, Pending(w.processes[p]), n)
  }

  /** Between two edits of one list there is nothing else, and behind the list no other. */
  predicate Neat(p: Process) {
    && Shaped(Pending(p))
    && (p.Watching? && p.pc.Writing? ==> p.pc.next.Refreshing? || p.pc.next.Scanning?)
  }

  ghost predicate Orderly(w: World, n: nat) {
    && (forall p :: p in w.processes ==> Neat(w.processes[p]))
    && n in w.board && HasStatus(w.board, n)
    && (One(w.board[n].labels) || exists p :: UnderWay(w, p, n))
  }

  lemma MoveOn(b: Board, edits: seq<Edit>, n: nat)
    requires Shaped(edits) && Moves(edits, n) && n in b && MeantFor(b[n].labels, edits, n)
    ensures var c, rest := Apply(b, edits[0]), edits[1..];
            && n in c && Shaped(rest) && MeantFor(c[n].labels, rest, n) && HasStatus(c, n)
            && (!Moves(rest, n) ==> One(c[n].labels))
  {
    var c, rest := Apply(b, edits[0]), edits[1..];
    var goal :| Leaves(b[n].labels, edits, n, goal);
    forall tag
      ensures n in c && Shaped(rest) && PutsOn(rest, n).None?
      ensures PutsOn(edits, n) == Some(tag) || (Carries(b, n, tag) && !TakesOff(edits, n, tag)) <==> Carries(c, n, tag) && !TakesOff(rest, n, tag)
    {
      OneEdit(b, edits, n, tag);
    }
    hide Apply, IsStatus, TakesOff, Shaped, Moves;
    assert Carries(c, n, goal) && !TakesOff(rest, n, goal);
    forall l | l in c[n].labels && IsStatus(l) && l != goal ensures TakesOff(rest, n, l) {
      assert Carries(c, n, l);
    }
    assert Leaves(c[n].labels, rest, n, goal);
    if !Moves(rest, n) { Settled(c[n].labels, rest, n); }
  }

  lemma Settled(labels: seq<string>, edits: seq<Edit>, n: nat)
    requires !Moves(edits, n) && MeantFor(labels, edits, n)
    ensures One(labels)
  {
    hide IsStatus;
    var goal :| Leaves(labels, edits, n, goal);
  }

  /** What one call does to the labels of n and to its own list. */
  ghost predicate Pends(b: Board, p: Process, a: Answer, n: nat, c: Board, q: Process) {
    && Neat(q) && c.Keys == b.Keys
    && (n in b && (!Moves(Pending(p), n) || !TakesEffect(a)) ==> c[n].labels == b[n].labels)
    && (Moves(Pending(p), n) && TakesEffect(a) ==>
          Pending(p) != [] && c == Apply(b, Pending(p)[0]) && (a.Ok? ==> Pending(q) == Pending(p)[1..]))
  }

  /** A step off a list that is made, or between lists. */
  lemma Quiet(b: Board, p: Process, a: Answer, n: nat, q: Process)
    requires Pending(p) == [] && Neat(q)
    ensures Pends(b, p, a, n, b, q)
  {
  }

  lemma OneCall(b: Board, p: Process, a: Answer, n: nat, q: Process)
    requires Neat(p) && Neat(q) && Pending(p) != [] && TakesEffect(a) && (a.Ok? ==> Pending(q) == Pending(p)[1..])
    ensures Pends(b, p, a, n, Apply(b, Pending(p)[0]), q)
  {
    var edits := Pending(p);
    assert edits[0] in edits;
  }

  lemma NoCall(b: Board, p: Process, a: Answer, n: nat, q: Process)
    requires Neat(q) && !TakesEffect(a)
    ensures Pends(b, p, a, n, b, q)
  {
  }

  lemma EmptyShaped()
    ensures Shaped([])
  {
  }

  lemma WatcherPends(b: Board, pc: Pc, a: Answer, n: nat)
    requires Neat(Watching(pc))
    ensures var (c, q) := WatcherStep(b, pc, a); Pends(b, Watching(pc), a, n, c, Watching(q))
  {
    EmptyShaped();
    var (c, q) := WatcherStep(b, pc, a);
    hide Shaped, Pends, Apply, ReplaceEdits;
    if !TakesEffect(a) {
      NoCall(b, Watching(pc), a, n, Watching(q));
    } else if pc.Writing? && pc.edits != [] {
      RestShaped(pc.edits);
      OneCall(b, Watching(pc), a, n, Watching(q));
    } else {
      if a.Ok? { StepNeat(b, pc); }
      assert c == b by { hide ResolveTaskIssue, FindIssue, Field, TaskList, Decide, CheckOne, ScanOne; }
      hide Step;
      Quiet(b, Watching(pc), a, n, Watching(q));
    }
  }

  lemma StepNeat(b: Board, pc: Pc)
    requires Neat(Watching(pc)) && !(pc.Writing? && pc.edits != [])
    ensures Neat(Watching(Step(b, pc).pc))
  {
    EmptyShaped();
    hide Shaped, ResolveTaskIssue, FindIssue, Field, TaskList, ReplaceEdits;
    match pc
    case Resolving(pr) =>
      if pr.merged && ResolveTaskIssue(b, pr).Some? {
        var m := ResolveTaskIssue(b, pr).value.1;
        ReplaceShaped(m, b[m].labels, b[m].body, MERGED, false);
      }
    case Scanning(ids) =>
      if ids != [] && FindIssue(b, ids[0]).Some? {
        var m := FindIssue(b, ids[0]).value;
        ReplaceShaped(m, b[m].labels, b[m].body, NEEDS_ATTENTION, false);
      }
    case Checking(_, target, labels, body, _, _, _, _) =>
      ReplaceShaped(target, labels, body, NEEDS_ATTENTION, false);
      ReplaceShaped(target, labels, body, READY, false);
    case _ =>
  }

  lemma ClaimShaped(n: nat)
    ensures Shaped([ClaimEdit(n)])
  {
    StatusesApart();
  }

  lemma SupervisorPends(b: Board, lockFile: bool, s: Supervisor, a: Answer, n: nat)
    ensures var (c, _, t) := SupervisorStep(b, lockFile, s, a); Pends(b, Supervising(s), a, n, c, Supervising(t))
  {
    EmptyShaped();
    forall k: nat ensures Shaped([ClaimEdit(k)]) { ClaimShaped(k); }
    var (c, _, t) := SupervisorStep(b, lockFile, s, a);
    hide Shaped, Pends, Apply, NothingInProgress, OpenReady;
    assert Neat(Supervising(s)) && Neat(Supervising(t));
    if !TakesEffect(a) {
      NoCall(b, Supervising(s), a, n, Supervising(t));
    } else if (s.Running? || s.Orphaned?) && s.runner.Claiming? {
      OneCall(b, Supervising(s), a, n, Supervising(t));
    } else {
      Quiet(b, Supervising(s), a, n, Supervising(t));
    }
  }

  lemma DispatcherPends(b: Board, d: Dispatcher, a: Answer, n: nat)
    requires Neat(Dispatching(d))
    ensures var (c, e) := DispatcherStep(b, d, a); Pends(b, Dispatching(d), a, n, c, Dispatching(e))
  {
    EmptyShaped();
    var (c, e) := DispatcherStep(b, d, a);
    if a.Pick? && OpenReady(b, a.number) { ReplaceShaped(a.number, b[a.number].labels, b[a.number].body, IN_PROGRESS, true); }
    hide Shaped, Pends, Apply, ReplaceEdits, OpenReady;
    if d.Claims? && d.edits != [] {
      RestShaped(d.edits);
      if TakesEffect(a) { OneCall(b, Dispatching(d), a, n, Dispatching(e)); } else { NoCall(b, Dispatching(d), a, n, Dispatching(e)); }
    } else {
      Quiet(b, Dispatching(d), a, n, Dispatching(e));
    }
  }

  lemma StepPends(b: Board, lockFile: bool, p: Process, a: Answer, n: nat)
    requires Neat(p)
    ensures var (c, _, q) := ProcessStep(b, lockFile, p, a); Pends(b, p, a, n, c, q)
  {
    hide WatcherStep, SupervisorStep, DispatcherStep, Neat, Pends;
    match p
    case Watching(pc) => WatcherPends(b, pc, a, n);
    case Supervising(s) => SupervisorPends(b, lockFile, s, a, n);
    case Dispatching(d) => DispatcherPends(b, d, a, n);
  }

  // ---------------------------------------------------------------- runs

  lemma SameLabelsSame(w: World, v: World, p: nat, n: nat)
    requires UnderWay(w, p, n) && p in v.processes && v.processes[p] == w.processes[p]
    requires n in v.board && v.board[n].labels == w.board[n].labels
    ensures UnderWay(v, p, n)
  {
  }

  lemma OneHas(b: Board, n: nat)
    requires n in b && One(b[n].labels)
    ensures HasStatus(b, n)
  {
    hide IsStatus;
    var goal :| IsStatus(goal) && goal in b[n].labels && forall l :: l in b[n].labels && IsStatus(l) ==> l == goal;
    assert Carries(b, n, goal);
  }

  lemma HasStays(b: Board, c: Board, n: nat)
    requires n in b && n in c && c[n].labels == b[n].labels && HasStatus(b, n)
    ensures HasStatus(c, n)
  {
    hide IsStatus;
    var tag :| IsStatus(tag) && Carries(b, n, tag);
    assert Carries(c, n, tag);
  }

  lemma ActOrderly(w: World, pid: nat, a: Answer, n: nat)
    requires Orderly(w, n) && pid in w.processes && InTurn(w, Act(pid, a), n)
    ensures Orderly(Next(w, Act(pid, a)), n)
  {
    hide ProcessStep, One, MeantFor, HasStatus, Neat, Moves;
    var p, v := w.processes[pid], Next(w, Act(pid, a));
    var edits := Pending(p);
    StepPends(w.board, w.lockFile, p, a, n);
    hide Pending;
    assert forall q :: q in v.processes ==> q in w.processes && (q == pid || v.processes[q] == w.processes[q]);
    if Moves(edits, n) && TakesEffect(a) {
      assert Shaped(edits) by { NeatMeans(p); }
      hide Shaped;
      MoveOn(w.board, edits, n);
      if Moves(edits[1..], n) { assert UnderWay(v, pid, n); }
    } else {
      HasStays(w.board, v.board, n);
      if !One(w.board[n].labels) {
        var q :| UnderWay(w, q, n);
        SameLabelsSame(w, v, q, n);
      }
    }
  }

  lemma NeatMeans(p: Process)
    requires Neat(p)
    ensures Shaped(Pending(p))
  {
  }

  lemma NextOrderly(w: World, e: Event, n: nat)
    requires Orderly(w, n) && InTurn(w, e, n)
    ensures Orderly(Next(w, e), n)
  {
    hide One, MeantFor, HasStatus, Moves, ProcessStep, Shaped;
    EmptyShaped();
    var v := Next(w, e);
    if e.Act? {
      hide InTurn;
      if e.pid in w.processes { ActOrderly(w, e.pid, e.answer, n); } else { assert v == w; }
    } else {
      HasStays(w.board, v.board, n);
      if !One(w.board[n].labels) {
        var q :| UnderWay(w, q, n);
        SameLabelsSame(w, v, q, n);
      }
    }
  }

  ghost predicate InTurnAlways(w: World, es: seq<Event>, n: nat)
    decreases |es|
  {
    es == [] || (InTurn(w, es[0], n) && InTurnAlways(Next(w, es[0]), es[1..], n))
  }

  lemma {:induction false} RunOrderly(w: World, es: seq<Event>, n: nat)
    requires Orderly(w, n) && InTurnAlways(w, es, n)
    ensures Orderly(Run(w, es), n)
    decreases |es|
  {
    hide Orderly, InTurn, Next;
    if es != [] {
      NextOrderly(w, es[0], n);
      RunOrderly(Next(w, es[0]), es[1..], n);
    }
  }

  /** On every board, in every run of any mix of agents in which each change to the labels of n is made in turn:
      n always has a status, and exactly one whenever nobody is in the middle of changing it. */
  lemma OneStatusAlways(b: Board, es: seq<Event>, n: nat)
    requires n in b && One(b[n].labels) && InTurnAlways(Start(b), es, n)
    ensures var w := Run(Start(b), es);
            && n in w.board && HasStatus(w.board, n)
            && ((forall p :: p in w.processes ==> !Moves(Pending(w.processes[p]), n)) ==> One(w.board[n].labels))
  {
    hide One, Run, InTurnAlways, HasStatus, Moves, Pending;
    OneHas(b, n);
    RunOrderly(Start(b), es, n);
  }

  lemma {:induction false} RunNeat(w: World, es: seq<Event>)
    requires forall p :: p in w.processes ==> Neat(w.processes[p])
    ensures forall p :: p in Run(w, es).processes ==> Neat(Run(w, es).processes[p])
    decreases |es|
  {
    hide Neat, ProcessStep;
    if es != [] {
      var v := Next(w, es[0]);
      forall p | p in v.processes ensures Neat(v.processes[p]) { NextNeat(w, es[0], p); }
      hide Next;
      RunNeat(v, es[1..]);
    }
  }

  lemma NextNeat(w: World, e: Event, p: nat)
    requires (forall q :: q in w.processes ==> Neat(w.processes[q])) && p in Next(w, e).processes
    ensures Neat(Next(w, e).processes[p])
  {
    EmptyShaped();
    hide ProcessStep, Shaped;
    if e.Act? && e.pid == p {
      StepPends(w.board, w.lockFile, w.processes[p], e.answer, 0);
      hide Neat;
    }
  }

  /** In every reachable world: a watcher with a list of edits before it that runs on by itself leaves exactly one
      status on n exactly when the list was meant for the labels n has now. */
  lemma OutOfTurn(b: Board, before: seq<Event>, p: nat, n: nat)
    requires var w := Run(Start(b), before); n in w.board && p in w.processes && w.processes[p].Watching? && w.processes[p].pc.Writing?
    ensures var w := Run(Start(b), before);
            var edits := Pending(w.processes[p]);
            var c := Run(w, Acts(p, |edits|)).board;
            n in c && (One(c[n].labels) <==> MeantFor(w.board[n].labels, edits, n))
  {
    hide Run, One, MeantFor, ApplyAll, Shaped, After, Acts;
    RunNeat(Start(b), before);
    var w := Run(Start(b), before);
    var pc := w.processes[p].pc;
    assert Neat(w.processes[p]);
    MeantForExactly(w.board, pc.edits, n);
    AfterWriting(w.board, pc.edits, pc.next);
    RunActs(w, p, |pc.edits|);
  }
}
