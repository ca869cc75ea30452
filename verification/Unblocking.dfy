/** What one undisturbed watcher run achieves: which issues it makes ready, which it sends for
    attention, when it takes merged away, and that it leaves every issue one status. */
module Unblocking {
  import opened Text
  import opened TaskStatus
  import opened Tracker
  import opened Dependencies
  import opened Watcher
  import opened Queue
  import opened MergedDependencies

  // ---------------------------------------------------------------- the verdict on one issue

  ghost predicate AllResolve(b: Board, n: nat)
    requires n in b
  {
    forall d :: d in DependsOn(b, n) ==> FindIssue(b, d).Some?
  }

  /** The status the issue titled with this id is due; None when it is to be left alone. */
  ghost function Verdict(b: Board, id: string): (r: Option<string>)
    ensures r.Some? ==> FindIssue(b, id).Some? && Supported(r.value)
  {
    if FindIssue(b, id).None? then None
    else
      var n := FindIssue(b, id).value;
      if Field(DEPENDS_ON, b[n].body).None? || !AllResolve(b, n) then Some(NEEDS_ATTENTION)
      else if DepsMerged(b, n) && MERGED !in b[n].labels then Some(READY)
      else None
  }

  function Marked(b: Board, n: nat, status: string): Board
    requires n in b && Supported(status)
  {
    ApplyAll(b, ReplaceEdits(n, b[n].labels, b[n].body, status, false))
  }

  ghost function Evaluated(b: Board, id: string): Board {
    var verdict := Verdict(b, id);
    if verdict.None? then b else Marked(b, FindIssue(b, id).value, verdict.value)
  }

  ghost function EvaluatedAll(b: Board, ids: seq<string>): Board
    decreases |ids|
  {
    if ids == [] then b else EvaluatedAll(Evaluated(b, ids[0]), ids[1..])
  }

  lemma {:induction false} UnresolvedMeans(b: Board, deps: seq<string>)
    ensures UnresolvedIn(b, deps) == [] <==> forall d :: d in deps ==> FindIssue(b, d).Some?
  {
    hide FindIssue;
    if deps != [] {
      UnresolvedMeans(b, deps[1..]);
      assert deps[0] in deps;
      assert forall d :: d in deps ==> d == deps[0] || d in deps[1..];
      assert forall d :: d in deps[1..] ==> d in deps;
    }
  }

  lemma {:induction false} MissingMeans(b: Board, deps: seq<string>)
    requires forall d :: d in deps ==> FindIssue(b, d).Some?
    ensures MissingIn(b, deps) == [] <==> forall d :: d in deps ==> IsMerged(b, d)
  {
    hide FindIssue;
    if deps != [] {
      assert forall d :: d in deps[1..] ==> d in deps;
      MissingMeans(b, deps[1..]);
      assert deps[0] in deps;
      assert forall d :: d in deps ==> d == deps[0] || d in deps[1..];
    }
  }

  lemma SoloMarked(b: Board, n: nat, status: string, next: Pc)
    requires n in b && Supported(status)
    ensures Solo(b, Replace(n, b[n].labels, b[n].body, status, next)) == Solo(Marked(b, n, status), next)
  {
    SoloWriting(b, ReplaceEdits(n, b[n].labels, b[n].body, status, false), next);
  }

  lemma SoloDecide(b: Board, pc: Pc)
    requires pc.Checking? && pc.deps == []
    ensures Solo(b, pc).0 == Solo(b, Decide(pc).0).0
  {
    assert Step(b, pc) == StepResult(b, Decide(pc).0, Decide(pc).1);
    hide Decide;
  }

  lemma SoloScan(b: Board, ids: seq<string>)
    requires ids != []
    ensures Solo(b, Scanning(ids)).0 == Solo(b, ScanOne(b, ids).0).0
  {
    assert Step(b, Scanning(ids)) == StepResult(b, ScanOne(b, ids).0, ScanOne(b, ids).1);
    hide ScanOne;
  }

  /** The run gives each id of the list its verdict in turn. */
  lemma SoloEvaluates(b: Board, ids: seq<string>)
    requires ids != []
    ensures Solo(b, Scanning(ids)).0 == Solo(Evaluated(b, ids[0]), Scanning(ids[1..])).0
  {
    hide FindIssue, Field, TaskList, Solo, Marked, ReplaceEdits, SyncedBody, StatusLabels, DepsMerged, IsMerged;
    var id, rest := ids[0], ids[1..];
    SoloScan(b, ids);
    var found := FindIssue(b, id);
    if found.Some? {
      var n := found.value;
      if Field(DEPENDS_ON, b[n].body).None? {
        SoloMarked(b, n, NEEDS_ATTENTION, Scanning(rest));
      } else {
        SoloCheck(b, id, n, rest);
      }
    }
  }

  lemma SoloCheck(b: Board, id: string, n: nat, rest: seq<string>)
    requires FindIssue(b, id) == Some(n) && Field(DEPENDS_ON, b[n].body).Some?
    ensures Solo(b, Checking(id, n, b[n].labels, b[n].body, DependsOn(b, n), [], [], rest)).0
         == Solo(Evaluated(b, id), Scanning(rest)).0
  {
    hide FindIssue, Field, TaskList, Solo, Marked, ReplaceEdits, SyncedBody, StatusLabels, IsMerged, UnresolvedIn, MissingIn;
    var deps := DependsOn(b, n);
    var pc := Checking(id, n, b[n].labels, b[n].body, deps, [], [], rest);
    SoloChecking(b, pc);
    var done := Checked(b, pc);
    SoloDecide(b, done);
    assert [] + UnresolvedIn(b, deps) == UnresolvedIn(b, deps);
    assert [] + MissingIn(b, deps) == MissingIn(b, deps);
    UnresolvedMeans(b, deps);
    SoloMarked(b, n, NEEDS_ATTENTION, Scanning(rest));
    SoloMarked(b, n, READY, Scanning(rest));
    if UnresolvedIn(b, deps) == [] { MissingMeans(b, deps); }
  }

  lemma {:induction false} SoloEvaluatesAll(b: Board, ids: seq<string>)
    ensures Solo(b, Scanning(ids)).0 == EvaluatedAll(b, ids)
    decreases |ids|
  {
    hide Evaluated, Solo;
    if ids == [] {
      SoloDone(b, ids);
    } else {
      SoloEvaluates(b, ids);
      SoloEvaluatesAll(Evaluated(b, ids[0]), ids[1..]);
    }
  }

  // ---------------------------------------------------------------- when merged is lost

  /** A dependent that is merged already stays merged exactly when its Depends-on field is there and
      every id in it resolves; the source's two needs-attention branches take merged away. */
  lemma MergedDependentKept(b: Board, id: string, n: nat)
    requires FindIssue(b, id) == Some(n) && MERGED in b[n].labels
    ensures Carries(Solo(b, Scanning([id])).0, n, MERGED)
            <==> Field(DEPENDS_ON, b[n].body).Some? && forall d :: d in DependsOn(b, n) ==> FindIssue(b, d).Some?
  {
    hide FindIssue, Field, TaskList, Solo;
    SoloEvaluatesAll(b, [id]);
    assert [id][1..] == [];
    assert EvaluatedAll(b, [id]) == Evaluated(b, id);
    StatusesApart();
    if Verdict(b, id) == Some(NEEDS_ATTENTION) { ReplaceEffect(b, n, NEEDS_ATTENTION, false); }
    hide ReplaceEdits, ApplyAll;
  }

  // ---------------------------------------------------------------- one status per issue

  predicate OneStatusOf(labels: seq<string>) {
    forall l, m :: l in labels && m in labels && IsStatus(l) && IsStatus(m) ==> l == m
  }

  ghost predicate OneStatus(b: Board) { forall n :: n in b ==> OneStatusOf(b[n].labels) }

  lemma MarkedOneStatus(b: Board, n: nat, status: string)
    requires n in b && Supported(status) && OneStatus(b)
    ensures OneStatus(Marked(b, n, status))
  {
    ReplaceEffect(b, n, status, false);
    var c := Marked(b, n, status);
    hide ReplaceEdits, ApplyAll, Marked, IsStatus;
    forall m | m in c ensures OneStatusOf(c[m].labels) {
      if m == n { OnlyStatus(c[n].labels, b[n].labels, status); }
    }
  }

  lemma OnlyStatus(labels: seq<string>, before: seq<string>, status: string)
    requires forall l :: l in labels <==> (l in before && !IsStatus(l)) || l == status
    ensures OneStatusOf(labels)
  {
  }

  lemma {:induction false} EvaluatedAllOneStatus(b: Board, ids: seq<string>)
    requires OneStatus(b)
    ensures OneStatus(EvaluatedAll(b, ids))
    decreases |ids|
  {
    hide OneStatus, Marked;
    if ids != [] {
      var verdict := Verdict(b, ids[0]);
      if verdict.Some? { MarkedOneStatus(b, FindIssue(b, ids[0]).value, verdict.value); }
      EvaluatedAllOneStatus(Evaluated(b, ids[0]), ids[1..]);
    }
  }

  // ---------------------------------------------------------------- what becomes ready

  predicate Listed(b: Board, ids: seq<string>, n: nat) { exists i :: 0 <= i < |ids| && FindIssue(b, ids[i]) == Some(n) }

  /** No Depends-on field, or an id in it that is not the title of exactly one issue. */
  ghost predicate Malformed(b: Board, n: nat)
    requires n in b
  {
    Field(DEPENDS_ON, b[n].body).None? || !AllResolve(b, n)
  }

  /** The status an issue gets when a list is worked off: needs-attention when it is malformed, ready when
      it is not merged and everything it depends on is. */
  ghost function Outcome(b: Board, ids: seq<string>, n: nat): (r: Option<string>)
    ensures r.Some? ==> r.value == READY || r.value == NEEDS_ATTENTION
  {
    if n !in b || !Listed(b, ids, n) then None
    else if Malformed(b, n) then Some(NEEDS_ATTENTION)
    else if MERGED !in b[n].labels && DepsMerged(b, n) then Some(READY)
    else None
  }

  /** An issue with an outcome trades its status labels for it; any other keeps its labels. */
  ghost predicate MovedTo(status: Option<string>, before: seq<string>, after: seq<string>) {
    forall l :: l in after <==> if status.Some? then (l in before && !IsStatus(l)) || l == status.value else l in before
  }

  /** c is b with exactly the issues of the list moved to their outcome. */
  ghost predicate Moved(b: Board, c: Board, ids: seq<string>) {
    && c.Keys == b.Keys
    && forall n :: n in b ==> MovedTo(Outcome(b, ids, n), b[n].labels, c[n].labels)
  }

  /** No malformed issue of the list is merged: nothing here takes merged away. */
  ghost predicate KeepsMerged(b: Board, ids: seq<string>) {
    forall n :: n in b && Listed(b, ids, n) && Malformed(b, n) ==> MERGED !in b[n].labels
  }

  lemma MarkedGrows(b: Board, n: nat, status: string)
    requires n in b && Supported(status) && (status == MERGED || MERGED !in b[n].labels)
    ensures Grows(b, Marked(b, n, status))
  {
    hide ReplaceEdits, ApplyAll, SyncedBody, Field, BareStatus, IsStatus;
    ReplaceEffect(b, n, status, false);
    DependsOnIsOther();
    BareStatusIsPlain(status);
    SyncKeepsOtherFields(DEPENDS_ON, b[n].body, BareStatus(status).value);
  }

  lemma EvaluatedMoves(b: Board, id: string)
    requires KeepsMerged(b, [id])
    ensures Moved(b, Evaluated(b, id), [id]) && Grows(b, Evaluated(b, id))
  {
    hide FindIssue, Field, TaskList, DepsMerged, Marked, Outcome, Grows, Moved, KeepsMerged, Malformed;
    OutcomeIsVerdict(b, id);
    GrowsItself(b);
    var verdict := Verdict(b, id);
    if verdict.Some? {
      var n := FindIssue(b, id).value;
      UnmergedOutcome(b, id, n);
      MarkedGrows(b, n, verdict.value);
      OneMoved(b, n, verdict.value, [id]);
    } else {
      NoneMoved(b, [id]);
    }
  }

  lemma OnlyListed(b: Board, id: string)
    ensures forall n: nat :: Listed(b, [id], n) <==> FindIssue(b, id) == Some(n)
  {
    hide FindIssue;
    assert [id][0] == id;
  }

  lemma OutcomeIsVerdict(b: Board, id: string)
    ensures forall n: nat :: Outcome(b, [id], n) == if FindIssue(b, id) == Some(n) then Verdict(b, id) else None
  {
    OnlyListed(b, id);
    hide FindIssue, Field, TaskList, DepsMerged, Listed, AllResolve;
  }

  lemma UnmergedOutcome(b: Board, id: string, n: nat)
    requires KeepsMerged(b, [id]) && FindIssue(b, id) == Some(n) && Verdict(b, id).Some?
    ensures MERGED !in b[n].labels
  {
    OnlyListed(b, id);
    hide Field, TaskList, DepsMerged, Listed, AllResolve, FindIssue;
  }

  lemma NoneMoved(b: Board, ids: seq<string>)
    requires forall n: nat :: Outcome(b, ids, n).None?
    ensures Moved(b, b, ids)
  {
    hide Outcome;
  }

  lemma OneMoved(b: Board, n: nat, status: string, ids: seq<string>)
    requires n in b && Supported(status) && forall m: nat :: Outcome(b, ids, m) == if m == n then Some(status) else None
    ensures Moved(b, Marked(b, n, status), ids)
  {
    hide Outcome, ReplaceEdits, ApplyAll;
    ReplaceEffect(b, n, status, false);
  }

  /** Working off part of a list changes no merged label, so the rest has the same outcome. */
  lemma OutcomeLater(b: Board, c: Board, ids: seq<string>, rest: seq<string>)
    requires Grows(b, c) && Moved(b, c, ids) && KeepsMerged(b, ids)
    ensures forall n: nat :: Outcome(c, rest, n) == Outcome(b, rest, n)
    ensures KeepsMerged(b, rest) ==> KeepsMerged(c, rest)
  {
    MergedUnchanged(b, c, ids);
    hide Moved, Outcome, Grows, KeepsMerged, Malformed;
    forall n: nat ensures Outcome(c, rest, n) == Outcome(b, rest, n) {
      if n in b { SameOutcome(b, c, rest, n); } else { NoOutcome(b, rest, n); NoOutcome(c, rest, n); }
    }
    if KeepsMerged(b, rest) { StillKept(b, c, rest); }
  }

  lemma NoOutcome(b: Board, ids: seq<string>, n: nat)
    requires n !in b
    ensures Outcome(b, ids, n) == None
  {
  }

  lemma MergedUnchanged(b: Board, c: Board, ids: seq<string>)
    requires Moved(b, c, ids) && KeepsMerged(b, ids)
    ensures c.Keys == b.Keys && forall n :: n in b ==> (MERGED in c[n].labels <==> MERGED in b[n].labels)
  {
    StatusesApart();
    hide Listed, DepsMerged, Malformed, IsStatus;
    forall n | n in b ensures MERGED in c[n].labels <==> MERGED in b[n].labels {
      assert MovedTo(Outcome(b, ids, n), b[n].labels, c[n].labels);
    }
  }

  lemma SameMalformed(b: Board, c: Board, n: nat)
    requires Grows(b, c) && n in b
    ensures n in c && (Malformed(c, n) <==> Malformed(b, n))
  {
    hide FindIssue, Field, TaskList;
    assert DependsOn(c, n) == DependsOn(b, n);
    forall d: string ensures FindIssue(c, d) == FindIssue(b, d) { SameFind(b, c, d); }
  }

  lemma SameListed(b: Board, c: Board, ids: seq<string>, n: nat)
    requires Grows(b, c)
    ensures Listed(c, ids, n) <==> Listed(b, ids, n)
  {
    hide FindIssue, Grows;
    forall id: string ensures FindIssue(c, id) == FindIssue(b, id) { SameFind(b, c, id); }
  }

  lemma StillKept(b: Board, c: Board, rest: seq<string>)
    requires Grows(b, c) && KeepsMerged(b, rest)
    requires c.Keys == b.Keys && forall m :: m in b ==> (MERGED in c[m].labels <==> MERGED in b[m].labels)
    ensures KeepsMerged(c, rest)
  {
    hide Grows, Malformed, Listed;
    forall n | n in c && Listed(c, rest, n) && Malformed(c, n) ensures MERGED !in c[n].labels {
      SameMalformed(b, c, n);
      SameListed(b, c, rest, n);
    }
  }

  lemma SameOutcome(b: Board, c: Board, rest: seq<string>, n: nat)
    requires Grows(b, c) && n in b
    requires forall m :: m in b ==> m in c && (MERGED in c[m].labels <==> MERGED in b[m].labels)
    ensures Outcome(c, rest, n) == Outcome(b, rest, n)
  {
    hide FindIssue, Field, TaskList, IsMerged, Grows, Malformed, Listed, DependsOn;
    forall id: string ensures IsMerged(c, id) <==> IsMerged(b, id) { SameMerged(b, c, id); }
    SameDependsOn(b, c, n);
    assert DepsMerged(c, n) <==> DepsMerged(b, n);
    hide DepsMerged;
    SameMalformed(b, c, n);
    SameListed(b, c, rest, n);
  }

  lemma SameDependsOn(b: Board, c: Board, n: nat)
    requires Grows(b, c) && n in b
    ensures n in c && DependsOn(c, n) == DependsOn(b, n)
  {
    hide Field, TaskList;
  }

  lemma SameMerged(b: Board, c: Board, id: string)
    requires Grows(b, c)
    requires forall m :: m in b ==> m in c && (MERGED in c[m].labels <==> MERGED in b[m].labels)
    ensures FindIssue(c, id) == FindIssue(b, id) && (IsMerged(c, id) <==> IsMerged(b, id))
  {
    hide Grows;
    SameFind(b, c, id);
  }

  lemma MovedTwice(b: Board, c: Board, e: Board, ids: seq<string>)
    requires ids != [] && Grows(b, c) && Moved(b, c, [ids[0]]) && Moved(c, e, ids[1..]) && KeepsMerged(b, [ids[0]])
    ensures Moved(b, e, ids)
  {
    OutcomeLater(b, c, [ids[0]], ids[1..]);
    hide Outcome, MovedTo, Grows, KeepsMerged;
    forall n | n in b ensures MovedTo(Outcome(b, ids, n), b[n].labels, e[n].labels) {
      OutcomeSplits(b, ids, n);
      LabelsTwice(Outcome(b, [ids[0]], n), Outcome(c, ids[1..], n), Outcome(b, ids, n), b[n].labels, c[n].labels, e[n].labels);
    }
  }

  lemma LabelsTwice(first: Option<string>, second: Option<string>, both: Option<string>, before: seq<string>, between: seq<string>, after: seq<string>)
    requires MovedTo(first, before, between) && MovedTo(second, between, after)
    requires both == if first.Some? then first else second
    requires first.Some? ==> IsStatus(first.value) && (second.Some? ==> second == first)
    ensures MovedTo(both, before, after)
  {
    hide IsStatus;
  }

  lemma OutcomeSplits(b: Board, ids: seq<string>, n: nat)
    requires ids != []
    ensures var first, second := Outcome(b, [ids[0]], n), Outcome(b, ids[1..], n);
            && Outcome(b, ids, n) == (if first.Some? then first else second)
            && (first.Some? ==> IsStatus(first.value) && (second.Some? ==> second == first))
  {
    ListedSplits(b, ids, n);
    StatusesApart();
    hide Listed, DepsMerged, Malformed, IsStatus;
  }

  lemma ListedSplits(b: Board, ids: seq<string>, n: nat)
    requires ids != []
    ensures Listed(b, ids, n) <==> Listed(b, [ids[0]], n) || Listed(b, ids[1..], n)
  {
    OnlyListed(b, ids[0]);
    hide FindIssue;
    if Listed(b, ids[1..], n) {
      var i :| 0 <= i < |ids[1..]| && FindIssue(b, ids[1..][i]) == Some(n);
      assert ids[i + 1] == ids[1..][i];
    }
    if Listed(b, ids, n) {
      var i :| 0 <= i < |ids| && FindIssue(b, ids[i]) == Some(n);
      if i > 0 { assert ids[1..][i - 1] == ids[i]; }
    }
  }

  lemma KeptSplits(b: Board, ids: seq<string>)
    requires ids != [] && KeepsMerged(b, ids)
    ensures KeepsMerged(b, [ids[0]]) && KeepsMerged(b, ids[1..])
  {
    hide Listed, Malformed;
    forall n: nat ensures Listed(b, ids, n) <==> Listed(b, [ids[0]], n) || Listed(b, ids[1..], n) { ListedSplits(b, ids, n); }
  }

  lemma {:induction false} EvaluatedAllMoves(b: Board, ids: seq<string>)
    requires KeepsMerged(b, ids)
    ensures Moved(b, EvaluatedAll(b, ids), ids) && Grows(b, EvaluatedAll(b, ids))
    decreases |ids|
  {
    hide Evaluated, KeepsMerged, Grows;
    if ids == [] {
      GrowsItself(b);
      NothingToDo(b);
      NoneMoved(b, []);
    } else {
      hide Moved;
      KeptSplits(b, ids);
      var c := Evaluated(b, ids[0]);
      EvaluatedMoves(b, ids[0]);
      OutcomeLater(b, c, [ids[0]], ids[1..]);
      EvaluatedAllMoves(c, ids[1..]);
      MovedTwice(b, c, EvaluatedAll(c, ids[1..]), ids);
      GrowsTransitive(b, c, EvaluatedAll(c, ids[1..]));
    }
  }

  lemma NothingToDo(b: Board)
    ensures forall n: nat :: Outcome(b, [], n).None?
  {
    hide Malformed, DepsMerged;
  }

  // ---------------------------------------------------------------- a whole run

  lemma SoloResolves(b: Board, pr: PullRequest, id: string, n: nat)
    requires pr.merged && ResolveTaskIssue(b, pr) == Some((id, n))
    ensures var m := Marked(b, n, MERGED);
            n in m && Solo(b, Resolving(pr)).0 == EvaluatedAll(m, TaskList(Field(UNBLOCKS, m[n].body)))
  {
    hide ResolveTaskIssue, Field, TaskList, ReplaceEdits, ApplyAll, SyncedBody, EvaluatedAll;
    var m := Marked(b, n, MERGED);
    ReplaceEffect(b, n, MERGED, false);
    var ids := TaskList(Field(UNBLOCKS, m[n].body));
    assert Step(b, Resolving(pr)) == StepResult(b, Replace(n, b[n].labels, b[n].body, MERGED, Refreshing(n)), []);
    SoloMarked(b, n, MERGED, Refreshing(n));
    assert Step(m, Refreshing(n)) == StepResult(m, Scanning(ids), []);
    SoloEvaluatesAll(m, ids);
  }

  /** One status label per issue survives a whole undisturbed run, whatever the bodies say. */
  lemma RunKeepsOneStatus(b: Board, pr: PullRequest)
    requires OneStatus(b)
    ensures OneStatus(Solo(b, Resolving(pr)).0)
  {
    hide ResolveTaskIssue, Field, TaskList, Marked, EvaluatedAll, OneStatus;
    var found := if pr.merged then ResolveTaskIssue(b, pr) else None;
    if found.None? {
      assert Step(b, Resolving(pr)) == StepResult(b, Stopped, []);
    } else {
      var n := found.value.1;
      SoloResolves(b, pr, found.value.0, n);
      MarkedOneStatus(b, n, MERGED);
      EvaluatedAllOneStatus(Marked(b, n, MERGED), TaskList(Field(UNBLOCKS, Marked(b, n, MERGED)[n].body)));
    }
  }

  /** The ids an issue says it unblocks. */
  function Unblocked(b: Board, n: nat): seq<string>
    requires n in b
  {
    TaskList(Field(UNBLOCKS, b[n].body))
  }

  lemma UnblocksIsOther()
    ensures OtherField(UNBLOCKS)
  {
    assert Lower(UNBLOCKS)[0] == 'u';
  }

  /** Merging n: what becomes of k, said on the board as it was before. */
  ghost function OutcomeOnMerge(b: Board, n: nat, k: nat): (r: Option<string>)
    requires n in b
    ensures r.Some? ==> r.value == READY || r.value == NEEDS_ATTENTION
  {
    if k !in b || k == n || !Listed(b, Unblocked(b, n), k) then None
    else if Malformed(b, k) then Some(NEEDS_ATTENTION)
    else if MERGED !in b[k].labels && FreeOnMerge(b, n, k) then Some(READY)
    else None
  }

  /** Everything k depends on is n or merged. */
  ghost predicate FreeOnMerge(b: Board, n: nat, k: nat)
    requires k in b
  {
    forall d :: d in DependsOn(b, k) ==> FindIssue(b, d) == Some(n) || IsMerged(b, d)
  }

  /** No malformed issue on the list of n is n itself or merged. */
  ghost predicate KeepsMergedOnMerge(b: Board, n: nat)
    requires n in b
  {
    forall k :: k in b && Listed(b, Unblocked(b, n), k) && Malformed(b, k) ==> k != n && MERGED !in b[k].labels
  }

  lemma MarkedMerged(b: Board, n: nat)
    requires n in b
    ensures var m := Marked(b, n, MERGED);
            && m.Keys == b.Keys && Grows(b, m) && Field(UNBLOCKS, m[n].body) == Field(UNBLOCKS, b[n].body)
            && (forall k :: k in b && k != n ==> m[k] == b[k])
            && (forall l :: l in m[n].labels <==> (l in b[n].labels && !IsStatus(l)) || l == MERGED)
  {
    hide ReplaceEdits, ApplyAll, SyncedBody, Field, BareStatus;
    MarkedGrows(b, n, MERGED);
    ReplaceEffect(b, n, MERGED, false);
    BareStatusIsPlain(MERGED);
    UnblocksIsOther();
    SyncKeepsOtherFields(UNBLOCKS, b[n].body, BareStatus(MERGED).value);
  }

  lemma MergedAfter(b: Board, n: nat, id: string)
    requires n in b
    ensures var m := Marked(b, n, MERGED);
            FindIssue(m, id) == FindIssue(b, id) && (IsMerged(m, id) <==> FindIssue(b, id) == Some(n) || IsMerged(b, id))
  {
    hide FindIssue, Field, TaskList, Marked;
    MarkedMerged(b, n);
    SameFind(b, Marked(b, n, MERGED), id);
  }

  lemma OutcomeMeans(b: Board, n: nat, k: nat)
    requires n in b && KeepsMergedOnMerge(b, n)
    ensures Outcome(Marked(b, n, MERGED), Unblocked(b, n), k) == OutcomeOnMerge(b, n, k)
  {
    hide FindIssue, Field, TaskList, Marked, IsMerged, Grows, Malformed, Listed, DependsOn, Unblocked;
    var m := Marked(b, n, MERGED);
    MarkedMerged(b, n);
    SameListed(b, m, Unblocked(b, n), k);
    if k in b {
      SameMalformed(b, m, k);
      FreeMeans(b, n, k);
      hide DepsMerged, FreeOnMerge;
    }
  }

  lemma FreeMeans(b: Board, n: nat, k: nat)
    requires n in b && k in b
    ensures var m := Marked(b, n, MERGED); k in m && (DepsMerged(m, k) <==> FreeOnMerge(b, n, k))
  {
    hide FindIssue, Field, TaskList, Marked, IsMerged, Grows, DependsOn;
    MarkedMerged(b, n);
    SameDependsOn(b, Marked(b, n, MERGED), k);
    forall id: string
      ensures IsMerged(Marked(b, n, MERGED), id) <==> FindIssue(b, id) == Some(n) || IsMerged(b, id)
    {
      MergedAfter(b, n, id);
    }
  }

  lemma KeptOnMerge(b: Board, n: nat)
    requires n in b && KeepsMergedOnMerge(b, n)
    ensures KeepsMerged(Marked(b, n, MERGED), Unblocked(b, n))
  {
    hide Field, TaskList, Marked, Grows, Malformed, Listed, Unblocked;
    var m := Marked(b, n, MERGED);
    MarkedMerged(b, n);
    forall k | k in m && Listed(m, Unblocked(b, n), k) && Malformed(m, k) ensures MERGED !in m[k].labels {
      SameListed(b, m, Unblocked(b, n), k);
      SameMalformed(b, m, k);
    }
  }

  /** A run for a merged pull request moves its own issue to merged, each issue on its list to its outcome,
      ready when it was waiting for nothing else and needs-attention when it is malformed, and leaves
      all other labels alone. */
  lemma MergeUnblocks(b: Board, pr: PullRequest, id: string, n: nat)
    requires pr.merged && ResolveTaskIssue(b, pr) == Some((id, n)) && KeepsMergedOnMerge(b, n)
    ensures var c := Solo(b, Resolving(pr)).0;
            && c.Keys == b.Keys
            && (forall l :: l in c[n].labels <==> (l in b[n].labels && !IsStatus(l)) || l == MERGED)
            && (forall k :: k in b && k != n ==> MovedTo(OutcomeOnMerge(b, n, k), b[k].labels, c[k].labels))
  {
    hide ResolveTaskIssue, FindIssue, Field, TaskList, Marked, EvaluatedAll, Grows, Solo, KeepsMergedOnMerge, OutcomeOnMerge, Outcome,
      KeepsMerged;
    var m := Marked(b, n, MERGED);
    SoloResolves(b, pr, id, n);
    MarkedMerged(b, n);
    KeptOnMerge(b, n);
    var ids := Unblocked(b, n);
    EvaluatedAllMoves(m, ids);
    forall k | k in b ensures Outcome(m, ids, k) == OutcomeOnMerge(b, n, k) { OutcomeMeans(b, n, k); }
    assert OutcomeOnMerge(b, n, n) == None by { NothingForItself(b, n); }
  }

  lemma NothingForItself(b: Board, n: nat)
    requires n in b
    ensures OutcomeOnMerge(b, n, n) == None
  {
  }

  /** On a board without malformed issues exactly the listed issues that were waiting for nothing else
      become ready, and nothing else happens. */
  lemma WellFormedOutcome(b: Board, n: nat, k: nat)
    requires n in b && WellFormed(b)
    ensures KeepsMergedOnMerge(b, n)
    ensures OutcomeOnMerge(b, n, k) == Some(READY)
            <==> k in b && k != n && MERGED !in b[k].labels && Listed(b, Unblocked(b, n), k) && FreeOnMerge(b, n, k)
    ensures OutcomeOnMerge(b, n, k) != Some(NEEDS_ATTENTION)
  {
    StatusesApart();
    hide FindIssue, Field, TaskList, Listed, FreeOnMerge;
  }

  // ---------------------------------------------------------------- two runs at once

  /** Two watchers, one making an issue ready and one marking it merged from labels read at the same
      moment, the ready edits landing last: the issue ends with both statuses exactly when it had neither. */
  lemma RacingReplacements(b: Board, n: nat)
    requires n in b
    ensures var c := ApplyAll(Marked(b, n, MERGED), ReplaceEdits(n, b[n].labels, b[n].body, READY, false));
            Carries(c, n, READY) && Carries(c, n, MERGED) <==> READY !in b[n].labels && MERGED !in b[n].labels
  {
    hide SyncedBody, LabelEdits, StatusLabels, BareStatus;
    StatusesApart();
    var late := ReplaceEdits(n, b[n].labels, b[n].body, READY, false);
    var m := Marked(b, n, MERGED);
    MarkedMerged(b, n);
    if READY in b[n].labels {
      LateEditsAdd(b, n);
      NeverAdded(m, late, n, READY);
    } else if MERGED in b[n].labels {
      LateEditsAdd(b, n);
      TakenAway(m, late, n, MERGED);
    } else {
      LateEdits(b, n);
      KeepsLabel(Apply(m, late[0]), late[1..], n, READY);
      KeepsLabel(Apply(m, late[0]), late[1..], n, MERGED);
      hide Marked, ReplaceEdits;
    }
  }

  /** What the late edits add and remove in the other cases. */
  lemma LateEditsAdd(b: Board, n: nat)
    requires n in b
    ensures var late := ReplaceEdits(n, b[n].labels, b[n].body, READY, false);
            && (forall e :: e in late ==> !e.SwapLabels? && !(e.AddLabel? && (e.tag == MERGED || READY in b[n].labels)))
            && (MERGED in b[n].labels ==> RemoveLabel(n, MERGED) in late)
  {
    StatusesApart();
    hide SyncedBody, BareStatus, StatusLabels, IsStatus;
  }

  lemma {:induction false} NeverAdded(b: Board, es: seq<Edit>, n: nat, tag: string)
    requires !Carries(b, n, tag) && forall e :: e in es ==> !e.SwapLabels? && !(e.AddLabel? && e.tag == tag)
    ensures !Carries(ApplyAll(b, es), n, tag)
    decreases |es|
  {
    if es != [] {
      assert es[0] in es;
      assert forall e :: e in es[1..] ==> e in es;
      NeverAdded(Apply(b, es[0]), es[1..], n, tag);
    }
  }

  lemma {:induction false} TakenAway(b: Board, es: seq<Edit>, n: nat, tag: string)
    requires RemoveLabel(n, tag) in es && forall e :: e in es ==> !e.SwapLabels? && !(e.AddLabel? && e.tag == tag)
    ensures !Carries(ApplyAll(b, es), n, tag)
    decreases |es|
  {
    assert es[0] in es;
    assert forall e :: e in es[1..] ==> e in es;
    if es[0] == RemoveLabel(n, tag) {
      NeverAdded(Apply(b, es[0]), es[1..], n, tag);
    } else {
      TakenAway(Apply(b, es[0]), es[1..], n, tag);
    }
  }

  lemma LateEdits(b: Board, n: nat)
    requires n in b && READY !in b[n].labels && MERGED !in b[n].labels
    ensures var late := ReplaceEdits(n, b[n].labels, b[n].body, READY, false);
            && late != [] && late[0] == AddLabel(n, READY)
            && forall e :: e in late[1..] ==> (e.RemoveLabel? && e.tag != READY && e.tag != MERGED) || e.SetBody?
  {
    hide SyncedBody, BareStatus;
    var late := ReplaceEdits(n, b[n].labels, b[n].body, READY, false);
    var removals := Removals(n, StatusLabels(b[n].labels), READY);
    assert LabelEdits(n, b[n].labels, READY, false) == [AddLabel(n, READY)] + removals;
    assert late[1..] == removals + late[1 + |removals|..];
  }
}
