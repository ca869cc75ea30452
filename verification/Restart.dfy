/** A watcher run may stop anywhere, any number of times: starting it again for the same pull request ends
    as if it had never stopped. */
module Restart {
  import opened Text
  import opened TaskStatus
  import opened Tracker
  import opened Footers
  import opened Dependencies
  import opened Watcher
  import opened Queue
  import opened MergedDependencies
  import opened Unblocking

  /** Where the run stands after so many steps. */
  function After(b: Board, pc: Pc, steps: nat): (Board, Pc)
    decreases steps
  {
    if steps == 0 then (b, pc) else var s := Step(b, pc); After(s.board, s.pc, steps - 1)
  }

  /** The board that runs for one pull request leave behind when each stops after so many steps. */
  function Stopping(b: Board, pr: PullRequest, stops: seq<nat>): Board
    decreases |stops|
  {
    if stops == [] then b else Stopping(After(b, Resolving(pr), stops[0]).0, pr, stops[1..])
  }

  /** The task id does not stand in the body of the issue alone, where rewriting Status could remove it. */
  predicate NamesTask(b: Board, pr: PullRequest) {
    var number := WatcherIssue(pr.body);
    number.Some? && number.value in b ==>
      WatcherId(pr.body).Some? || WatcherId(pr.title).Some? || WatcherId(b[number.value].title).Some?
  }

  /** The run is about issue n. */
  predicate IsAbout(b: Board, pr: PullRequest, n: nat) {
    pr.merged && NamesTask(b, pr) && ResolveTaskIssue(b, pr).Some? && ResolveTaskIssue(b, pr).value.1 == n
  }

  /** As labels go, the boards are the same. */
  ghost predicate SameLabels(b: Board, c: Board) {
    && b.Keys == c.Keys
    && forall k, l :: k in b ==> (l in b[k].labels <==> l in c[k].labels)
  }

  // ---------------------------------------------------------------- part of the work

  predicate SameFields(before: string, after: string) {
    Field(DEPENDS_ON, after) == Field(DEPENDS_ON, before) && Field(UNBLOCKS, after) == Field(UNBLOCKS, before)
  }

  /** The run for n moves the status of k. */
  ghost predicate Touched(b: Board, n: nat, k: nat)
    requires n in b
  {
    OutcomeOnMerge(b, n, k).Some?
  }

  /** c is b with part of the work for n done: its own status and those of touched issues may have moved. */
  ghost predicate Partly(b: Board, n: nat, c: Board) {
    && n in b && c.Keys == b.Keys
    && (forall k :: k in b ==> c[k].title == b[k].title && SameFields(b[k].body, c[k].body))
    && (forall k :: k in b ==> IssuePartly(b, n, k, c[k].labels))
  }

  ghost predicate IssuePartly(b: Board, n: nat, k: nat, labels: seq<string>)
    requires n in b && k in b
  {
    && (forall l :: !IsStatus(l) ==> (l in labels <==> l in b[k].labels))
    && (MERGED in b[k].labels ==> MERGED in labels)
    && (k != n && MERGED in labels ==> MERGED in b[k].labels)
    && (k != n && !Touched(b, n, k) ==> forall l :: l in labels <==> l in b[k].labels)
  }

  /** An edit that belongs to the work for n. */
  ghost predicate Within(b: Board, n: nat, e: Edit)
    requires n in b
  {
    && e.number in b && (e.number == n || Touched(b, n, e.number))
    && match e
       case AddLabel(k, tag) => IsStatus(tag) && (tag == MERGED ==> k == n)
       case RemoveLabel(_, tag) => IsStatus(tag) && tag != MERGED
       case SwapLabels(_, _, _) => false
       case SetBody(k, body) => SameFields(b[k].body, body)
  }

  ghost predicate AllWithin(b: Board, n: nat, edits: seq<Edit>)
    requires n in b
  {
    forall e :: e in edits ==> Within(b, n, e)
  }

  predicate Follow(b: Board, n: nat, ids: seq<string>)
    requires n in b
  {
    forall id :: id in ids ==> id in Unblocked(b, n)
  }

  /** What was found for a dependency that has been looked at. */
  predicate Looked(b: Board, n: nat, d: string, unresolved: seq<string>, missing: seq<string>) {
    if FindIssue(b, d).None? then unresolved != [] else missing != [] || FindIssue(b, d) == Some(n) || IsMerged(b, d)
  }

  /** A run for n on its way from b, now at c. */
  ghost predicate OnTheWay(b: Board, n: nat, c: Board, pc: Pc)
    requires Partly(b, n, c)
  {
    match pc
    case Resolving(pr) => IsAbout(c, pr, n)
    case Writing(edits, next) =>
      && AllWithin(b, n, edits)
      && (MERGED in c[n].labels || (edits != [] && edits[0] == AddLabel(n, MERGED)))
      && (next == Refreshing(n) || (next.Scanning? && Follow(b, n, next.ids)))
    case Refreshing(source) => source == n && MERGED in c[n].labels
    case Scanning(ids) => MERGED in c[n].labels && Follow(b, n, ids)
    case Checking(id, target, labels, body, deps, unresolved, missing, rest) =>
      && MERGED in c[n].labels && Follow(b, n, rest) && id in Unblocked(b, n) && FindIssue(b, id) == Some(target)
      && labels == c[target].labels && body == c[target].body && Field(DEPENDS_ON, b[target].body).Some?
      && (forall d :: d in deps ==> d in DependsOn(b, target))
      && (unresolved != [] ==> !AllResolve(b, target))
      && (forall d :: d in DependsOn(b, target) ==> d in deps || Looked(b, n, d, unresolved, missing))
    case Stopped => true
  }

  lemma PartlyGrows(b: Board, n: nat, c: Board)
    requires Partly(b, n, c)
    ensures Grows(b, c)
  {
    hide Field, Touched, IsStatus;
  }

  lemma PartlyMerged(b: Board, n: nat, c: Board, id: string)
    requires Partly(b, n, c)
    ensures FindIssue(c, id) == FindIssue(b, id)
    ensures IsMerged(c, id) ==> FindIssue(b, id) == Some(n) || IsMerged(b, id)
    ensures MERGED in c[n].labels && (FindIssue(b, id) == Some(n) || IsMerged(b, id)) ==> IsMerged(c, id)
  {
    hide SameFields, Touched, IsStatus;
    PartlyGrows(b, n, c);
    SameFind(b, c, id);
    if FindIssue(b, id).Some? { assert IssuePartly(b, n, FindIssue(b, id).value, c[FindIssue(b, id).value].labels); }
  }

  lemma PartlyEdit(b: Board, n: nat, c: Board, e: Edit)
    requires Partly(b, n, c) && Within(b, n, e)
    ensures Partly(b, n, Apply(c, e))
    ensures MERGED in c[n].labels ==> MERGED in Apply(c, e)[n].labels
    ensures e == AddLabel(n, MERGED) ==> MERGED in Apply(c, e)[n].labels
  {
    hide Field, Touched, SameFields;
    StatusesApart();
    hide IsStatus;
    var d := Apply(c, e);
    forall k | k in b ensures IssuePartly(b, n, k, d[k].labels) {
      assert IssuePartly(b, n, k, c[k].labels);
      EditedLabelsPartly(b, n, c, e, k);
    }
    hide IssuePartly;
    forall k | k in b ensures d[k].title == b[k].title && SameFields(b[k].body, d[k].body) {}
  }

  lemma EditedLabelsPartly(b: Board, n: nat, c: Board, e: Edit, k: nat)
    requires n in b && k in b && c.Keys == b.Keys && IssuePartly(b, n, k, c[k].labels) && Within(b, n, e)
    ensures k in Apply(c, e) && IssuePartly(b, n, k, Apply(c, e)[k].labels)
  {
    hide Touched, SameFields;
    StatusesApart();
    hide IsStatus;
  }

  lemma SyncKeepsFields(body: string, status: string)
    requires Supported(status)
    ensures SameFields(body, SyncedBody(body, BareStatus(status).value))
  {
    DependsOnIsOther();
    UnblocksIsOther();
    BareStatusIsPlain(status);
    SyncKeepsOtherFields(DEPENDS_ON, body, BareStatus(status).value);
    SyncKeepsOtherFields(UNBLOCKS, body, BareStatus(status).value);
  }

  lemma ReplaceWithin(b: Board, n: nat, c: Board, k: nat, new_: string)
    requires Partly(b, n, c) && k in b
    requires (k == n && new_ == MERGED) || (OutcomeOnMerge(b, n, k) == Some(new_) && MERGED !in b[k].labels && k != n)
    ensures AllWithin(b, n, ReplaceEdits(k, c[k].labels, c[k].body, new_, false))
  {
    StatusesApart();
    hide Field, SyncedBody, BareStatus, IsStatus, OutcomeOnMerge;
    assert SameFields(b[k].body, c[k].body);
    if k != n {
      assert IssuePartly(b, n, k, c[k].labels);
      assert MERGED !in c[k].labels;
    }
    hide SameFields, Partly;
    assert k != n ==> Touched(b, n, k);
    hide Touched;
    EditsWithin(b, n, k, c[k].labels, c[k].body, new_);
  }

  lemma EditsWithin(b: Board, n: nat, k: nat, labels: seq<string>, body: string, new_: string)
    requires n in b && k in b && Supported(new_) && IsStatus(new_) && SameFields(b[k].body, body)
    requires (k == n && new_ == MERGED) || (Touched(b, n, k) && new_ != MERGED && MERGED !in labels)
    ensures AllWithin(b, n, ReplaceEdits(k, labels, body, new_, false))
  {
    SyncKeepsFields(body, new_);
    hide Field, SyncedBody, BareStatus, IsStatus, Touched;
    var synced := SyncedBody(body, BareStatus(new_).value);
    assert SameFields(b[k].body, synced);
    hide SameFields, Within;
    var edits := ReplaceEdits(k, labels, body, new_, false);
    forall e | e in edits ensures Within(b, n, e) { EditWithin(b, n, k, labels, synced, new_, e); }
  }

  lemma EditWithin(b: Board, n: nat, k: nat, labels: seq<string>, synced: string, new_: string, e: Edit)
    requires n in b && k in b && IsStatus(new_) && SameFields(b[k].body, synced)
    requires (k == n && new_ == MERGED) || (Touched(b, n, k) && new_ != MERGED && MERGED !in labels)
    requires e in LabelEdits(k, labels, new_, false) || e == SetBody(k, synced)
    ensures Within(b, n, e)
  {
    hide IsStatus, Touched, SameFields;
  }

  lemma FirstMakesMerged(n: nat, labels: seq<string>, body: string)
    ensures var edits := ReplaceEdits(n, labels, body, MERGED, false);
            MERGED in labels || (edits != [] && edits[0] == AddLabel(n, MERGED))
  {
    hide SyncedBody, StatusLabels;
  }

  // ---------------------------------------------------------------- one step

  lemma StepOnTheWay(b: Board, n: nat, c: Board, pc: Pc)
    requires n in b && KeepsMergedOnMerge(b, n) && Partly(b, n, c) && OnTheWay(b, n, c, pc)
    ensures var s := Step(c, pc); Partly(b, n, s.board) && OnTheWay(b, n, s.board, s.pc)
  {
    hide Partly, KeepsMergedOnMerge, ResolveTaskIssue, FindIssue, Field, TaskList, Decide, CheckOne, ScanOne, Apply, ReplaceEdits, IsMerged,
      AllWithin, Within, Follow, DependsOn, Looked, OutcomeOnMerge, AllResolve;
    match pc
    case Resolving(pr) =>
      PartlyKeys(b, n, c);
      ReplaceWithin(b, n, c, n, MERGED);
      FirstMakesMerged(n, c[n].labels, c[n].body);
    case Writing(edits, next) =>
      if edits != [] { WriteOnTheWay(b, n, c, edits, next); }
    case Refreshing(_) =>
      PartlyKeys(b, n, c);
      SameUnblocked(b, n, c);
    case Scanning(ids) => if ids != [] { ScanOnTheWay(b, n, c, ids); }
    case Checking(_, _, _, _, deps, _, _, _) =>
      if deps == [] { DecideOnTheWay(b, n, c, pc); } else { CheckOnTheWay(b, n, c, pc); }
    case Stopped =>
  }

  lemma PartlyKeys(b: Board, n: nat, c: Board)
    requires Partly(b, n, c)
    ensures n in b && c.Keys == b.Keys
  {
  }

  lemma SameUnblocked(b: Board, n: nat, c: Board)
    requires Partly(b, n, c)
    ensures Unblocked(c, n) == Unblocked(b, n) && Follow(b, n, Unblocked(c, n))
  {
    hide Field, TaskList, IssuePartly;
  }

  lemma WriteOnTheWay(b: Board, n: nat, c: Board, edits: seq<Edit>, next: Pc)
    requires edits != [] && Partly(b, n, c) && OnTheWay(b, n, c, Writing(edits, next))
    ensures Partly(b, n, Apply(c, edits[0])) && OnTheWay(b, n, Apply(c, edits[0]), Writing(edits[1..], next))
  {
    hide Partly, Within, Apply, Follow;
    assert edits[0] in edits;
    PartlyEdit(b, n, c, edits[0]);
    assert forall e :: e in edits[1..] ==> e in edits;
  }

  lemma IsListed(b: Board, n: nat, id: string, k: nat)
    requires n in b && id in Unblocked(b, n) && FindIssue(b, id) == Some(k)
    ensures Listed(b, Unblocked(b, n), k)
  {
    hide FindIssue, Unblocked;
    var i :| 0 <= i < |Unblocked(b, n)| && Unblocked(b, n)[i] == id;
    assert FindIssue(b, Unblocked(b, n)[i]) == Some(k);
  }

  /** A malformed issue on the list is due to need attention, and not merged. */
  lemma NeedsAttention(b: Board, n: nat, id: string, k: nat)
    requires n in b && KeepsMergedOnMerge(b, n) && id in Unblocked(b, n) && FindIssue(b, id) == Some(k) && Malformed(b, k)
    ensures k != n && MERGED !in b[k].labels && OutcomeOnMerge(b, n, k) == Some(NEEDS_ATTENTION)
  {
    IsListed(b, n, id, k);
    hide FindIssue, Unblocked, Listed, Malformed, FreeOnMerge;
  }

  lemma ScanOnTheWay(b: Board, n: nat, c: Board, ids: seq<string>)
    requires n in b && KeepsMergedOnMerge(b, n) && ids != [] && Partly(b, n, c) && OnTheWay(b, n, c, Scanning(ids))
    ensures OnTheWay(b, n, c, ScanOne(c, ids).0)
  {
    hide Field, TaskList, FindIssue, IsMerged, IssuePartly, Unblocked, KeepsMergedOnMerge, OutcomeOnMerge, AllResolve, ReplaceEdits, AllWithin;
    PartlyGrows(b, n, c);
    SameFind(b, c, ids[0]);
    assert ids[0] in ids;
    assert forall id :: id in ids[1..] ==> id in ids;
    var found := FindIssue(b, ids[0]);
    if found.Some? {
      assert SameFields(b[found.value].body, c[found.value].body);
      if Field(DEPENDS_ON, b[found.value].body).None? {
        NeedsAttention(b, n, ids[0], found.value);
        ReplaceWithin(b, n, c, found.value, NEEDS_ATTENTION);
      }
    }
  }

  lemma CheckOnTheWay(b: Board, n: nat, c: Board, pc: Pc)
    requires pc.Checking? && pc.deps != [] && Partly(b, n, c) && OnTheWay(b, n, c, pc)
    ensures OnTheWay(b, n, c, CheckOne(c, pc))
  {
    hide Field, TaskList, FindIssue, Partly, Unblocked, Follow, DependsOn;
    PartlyKeys(b, n, c);
    var d := pc.deps[0];
    assert d in pc.deps;
    PartlyMerged(b, n, c, d);
    assert forall e :: e in pc.deps ==> e == d || e in pc.deps[1..];
    assert forall e :: e in pc.deps[1..] ==> e in pc.deps;
    var q := CheckOne(c, pc);
    hide IsMerged;
    forall e | e in DependsOn(b, pc.target) ensures e in q.deps || Looked(b, n, e, q.unresolved, q.missing) {
      if e != d && e !in pc.deps { assert Looked(b, n, e, pc.unresolved, pc.missing); }
    }
  }

  lemma DecideOnTheWay(b: Board, n: nat, c: Board, pc: Pc)
    requires n in b && KeepsMergedOnMerge(b, n) && pc.Checking? && pc.deps == [] && Partly(b, n, c) && OnTheWay(b, n, c, pc)
    ensures OnTheWay(b, n, c, Decide(pc).0)
  {
    hide Field, TaskList, FindIssue, IsMerged, DependsOn, SyncedBody, ReplaceEdits, AllWithin, Follow, Partly, OutcomeOnMerge, Unblocked,
      KeepsMergedOnMerge, AllResolve, Looked;
    PartlyKeys(b, n, c);
    if pc.unresolved != [] {
      NeedsAttention(b, n, pc.id, pc.target);
      ReplaceWithin(b, n, c, pc.target, NEEDS_ATTENTION);
    } else if pc.missing == [] && MERGED !in pc.labels {
      IsDue(b, n, c, pc);
      ReplaceWithin(b, n, c, pc.target, READY);
    }
  }

  lemma IsDue(b: Board, n: nat, c: Board, pc: Pc)
    requires pc.Checking? && pc.deps == [] && pc.unresolved == [] && pc.missing == [] && MERGED !in pc.labels
    requires Partly(b, n, c) && OnTheWay(b, n, c, pc)
    ensures pc.target != n && MERGED !in b[pc.target].labels && OutcomeOnMerge(b, n, pc.target) == Some(READY)
  {
    hide Field, TaskList, FindIssue, IsMerged, Follow, SameFields, Touched, Unblocked, Listed;
    IsListed(b, n, pc.id, pc.target);
    assert IssuePartly(b, n, pc.target, c[pc.target].labels);
    hide IssuePartly, IsStatus;
    assert AllResolve(b, pc.target) && FreeOnMerge(b, n, pc.target) by {
      forall d | d in DependsOn(b, pc.target) ensures FindIssue(b, d).Some? && (FindIssue(b, d) == Some(n) || IsMerged(b, d)) {
        assert Looked(b, n, d, [], []);
      }
    }
  }

  // ---------------------------------------------------------------- runs that stop

  lemma {:induction false} AfterPartly(b: Board, n: nat, c: Board, pc: Pc, steps: nat)
    requires n in b && KeepsMergedOnMerge(b, n) && Partly(b, n, c) && OnTheWay(b, n, c, pc)
    ensures Partly(b, n, After(c, pc, steps).0)
    decreases steps
  {
    hide Partly, KeepsMergedOnMerge, OnTheWay, Step;
    if steps > 0 {
      StepOnTheWay(b, n, c, pc);
      AfterPartly(b, n, Step(c, pc).board, Step(c, pc).pc, steps - 1);
    }
  }

  /** The same issue is found again. */
  lemma ResolvesAgain(b: Board, pr: PullRequest, n: nat, c: Board)
    requires IsAbout(b, pr, n) && Partly(b, n, c)
    ensures IsAbout(c, pr, n)
  {
    hide FindIssue, Field, IssuePartly, SameFields, WatcherId, WatcherIssue;
    PartlyKeys(b, n, c);
    PartlyGrows(b, n, c);
    forall d: string ensures FindIssue(c, d) == FindIssue(b, d) { SameFind(b, c, d); }
    if WatcherIssue(pr.body).Some? { assert c[n].title == b[n].title; }
    hide Partly, Grows;
  }

  lemma {:induction false} StoppingPartly(b: Board, pr: PullRequest, n: nat, c: Board, stops: seq<nat>)
    requires n in b && KeepsMergedOnMerge(b, n) && IsAbout(b, pr, n) && Partly(b, n, c)
    ensures Partly(b, n, Stopping(c, pr, stops))
    decreases |stops|
  {
    hide Partly, KeepsMergedOnMerge, After, IsAbout;
    if stops != [] {
      ResolvesAgain(b, pr, n, c);
      AfterPartly(b, n, c, Resolving(pr), stops[0]);
      StoppingPartly(b, pr, n, After(c, Resolving(pr), stops[0]).0, stops[1..]);
    }
  }

  lemma NothingDone(b: Board, n: nat)
    requires n in b
    ensures Partly(b, n, b)
  {
    hide Field, IsStatus, Touched;
  }

  /** What becomes of each issue is not changed by work half done. */
  lemma StillDue(b: Board, n: nat, c: Board, k: nat)
    requires Partly(b, n, c)
    ensures OutcomeOnMerge(c, n, k) == OutcomeOnMerge(b, n, k)
  {
    hide Field, TaskList, FindIssue, IsMerged, IsStatus, Malformed, Listed, FreeOnMerge, Partly, Unblocked;
    PartlyKeys(b, n, c);
    PartlyGrows(b, n, c);
    if k in b && k != n {
      SameUnblocked(b, n, c);
      SameListed(b, c, Unblocked(b, n), k);
      SameMalformed(b, c, k);
      SameFree(b, n, c, k);
      SameMergedLabel(b, n, c, k);
    }
  }

  lemma SameMergedLabel(b: Board, n: nat, c: Board, k: nat)
    requires Partly(b, n, c) && k in b && k != n
    ensures k in c && (MERGED in c[k].labels <==> MERGED in b[k].labels)
  {
    hide Touched, SameFields, IsStatus;
    assert IssuePartly(b, n, k, c[k].labels);
  }

  lemma SameFree(b: Board, n: nat, c: Board, k: nat)
    requires Partly(b, n, c) && k in b
    ensures k in c && (FreeOnMerge(c, n, k) <==> FreeOnMerge(b, n, k))
  {
    hide Field, TaskList, FindIssue, IsMerged, Partly, DependsOn;
    PartlyKeys(b, n, c);
    PartlyGrows(b, n, c);
    SameDependsOn(b, c, k);
    forall id: string ensures FindIssue(c, id) == Some(n) || IsMerged(c, id) <==> FindIssue(b, id) == Some(n) || IsMerged(b, id) {
      PartlyMerged(b, n, c, id);
      SameFind(b, c, id);
    }
  }

  lemma StillKeeps(b: Board, n: nat, c: Board)
    requires Partly(b, n, c) && KeepsMergedOnMerge(b, n)
    ensures n in c && KeepsMergedOnMerge(c, n)
  {
    hide Field, TaskList, FindIssue, Malformed, Listed, Partly, Unblocked;
    PartlyKeys(b, n, c);
    PartlyGrows(b, n, c);
    SameUnblocked(b, n, c);
    forall k | k in c && Listed(c, Unblocked(c, n), k) && Malformed(c, k) ensures k != n && MERGED !in c[k].labels {
      SameListed(b, c, Unblocked(b, n), k);
      SameMalformed(b, c, k);
      if k != n { SameMergedLabel(b, n, c, k); }
    }
  }

  /** However often the run for a pull request was stopped, and wherever, running it once more to its end
      leaves the labels of one run that was never stopped. */
  lemma RestartRepairs(b: Board, pr: PullRequest, n: nat, stops: seq<nat>)
    requires IsAbout(b, pr, n) && n in b && KeepsMergedOnMerge(b, n)
    ensures SameLabels(Solo(b, Resolving(pr)).0, Solo(Stopping(b, pr, stops), Resolving(pr)).0)
  {
    hide KeepsMergedOnMerge, ResolveTaskIssue, Solo, Stopping, NamesTask, OutcomeOnMerge, MovedTo;
    var c := Stopping(b, pr, stops);
    NothingDone(b, n);
    StoppingPartly(b, pr, n, b, stops);
    ResolvesAgain(b, pr, n, c);
    StillKeeps(b, n, c);
    MergeUnblocks(b, pr, ResolveTaskIssue(b, pr).value.0, n);
    MergeUnblocks(c, pr, ResolveTaskIssue(c, pr).value.0, n);
    PartlyKeys(b, n, c);
    hide IsStatus, Partly;
    var once, again := Solo(b, Resolving(pr)).0, Solo(c, Resolving(pr)).0;
    forall k, l | k in once ensures l in once[k].labels <==> l in again[k].labels {
      LabelsSettle(b, n, c, k, l, once, again);
    }
  }

  lemma LabelsSettle(b: Board, n: nat, c: Board, k: nat, l: string, once: Board, again: Board)
    requires Partly(b, n, c) && k in b && once.Keys == b.Keys && again.Keys == b.Keys
    requires forall m :: m in once[n].labels <==> (m in b[n].labels && !IsStatus(m)) || m == MERGED
    requires forall m :: m in again[n].labels <==> (m in c[n].labels && !IsStatus(m)) || m == MERGED
    requires k != n ==> MovedTo(OutcomeOnMerge(b, n, k), b[k].labels, once[k].labels)
    requires k != n ==> MovedTo(OutcomeOnMerge(c, n, k), c[k].labels, again[k].labels)
    ensures l in once[k].labels <==> l in again[k].labels
  {
    StillDue(b, n, c, k);
    hide OutcomeOnMerge, IsStatus, SameFields;
    assert IssuePartly(b, n, k, c[k].labels);
  }
}
