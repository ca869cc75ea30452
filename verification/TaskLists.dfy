/** The comma-separated task lists of an issue, said on the text of the field itself: which parts of it name
    a task, and what a run does for an issue whose fields name nobody. */
module TaskLists {
  import opened Text
  import opened Firsts
  import opened TaskStatus
  import opened Tracker
  import opened Footers
  import opened Dependencies
  import opened Watcher
  import opened Queue
  import opened MergedDependencies
  import opened Unblocking

  // ---------------------------------------------------------------- the parts of a field

  /** A part begins with the text and behind every comma. */
  predicate Begins(s: string, i: nat) { i <= |s| && (i == 0 || s[i - 1] == ',') }

  /** From there up to the next comma or the end. */
  function Part(s: string, i: nat): (r: string)
    requires i <= |s|
    ensures ',' !in r && r <= s[i..] && (i + |r| == |s| || s[i + |r|] == ',')
  {
    s[i..i + FirstOf(s[i..], ',')]
  }

  /** A stripped part that stands for no task. */
  predicate Nobody(p: string) { p == [] || p == "-" || AnyCase(p, "none") || AnyCase(p, "n/a") }

  predicate NamedAt(s: string, i: nat) { Begins(s, i) && !Nobody(Strip(Part(s, i))) }

  /** The ids are those of the parts that name a task, in the order of the parts. */
  ghost predicate NamedInOrder(s: string, ids: seq<string>, at: seq<nat>) {
    && |at| == |ids|
    && Rising(at)
    && (forall i: nat :: i in at <==> NamedAt(s, i))
    && (forall k :: 0 <= k < |at| ==> NamedAt(s, at[k]) && ids[k] == Upper(Strip(Part(s, at[k]))))
  }

  lemma NobodyMeans(p: string)
    ensures IsPlaceholder(p) <==> Nobody(p)
  {
    SameCase(p, "none");
    SameCase(p, "n/a");
    hide AnyCase, Lower;
  }

  lemma FirstPart(s: string)
    ensures Part(s, 0) == s[..FirstOf(s, ',')] && NamedAt(s, 0) == !Nobody(Strip(s[..FirstOf(s, ',')]))
    ensures forall i: nat :: NamedAt(s, i) ==> (i == 0 || FirstOf(s, ',') < i <= |s|)
  {
    var k := FirstOf(s, ',');
    assert s[0..] == s;
    hide Strip, Nobody, FirstOf;
    forall i: nat | 0 < i <= k ensures !NamedAt(s, i) { assert s[..k][i - 1] == s[i - 1]; }
  }

  /** The parts behind a comma are those of the text behind it. */
  lemma LaterPart(s: string, k: nat, i: nat)
    requires k < |s| && s[k] == ','
    ensures NamedAt(s[k + 1..], i) <==> NamedAt(s, k + 1 + i)
    ensures k + 1 + i <= |s| ==> Part(s[k + 1..], i) == Part(s, k + 1 + i)
  {
    hide Strip, Nobody, FirstOf;
    if k + 1 + i <= |s| {
      assert s[k + 1..][i..] == s[k + 1 + i..];
      assert Part(s[k + 1..], i) == Part(s, k + 1 + i);
      assert Begins(s[k + 1..], i) <==> Begins(s, k + 1 + i) by { if i > 0 { assert s[k + 1..][i - 1] == s[k + i]; } }
    }
    hide Part;
  }

  function Moved(at: seq<nat>, d: nat): (r: seq<nat>)
    ensures |r| == |at| && forall j :: 0 <= j < |r| ==> r[j] == at[j] + d
  {
    seq(|at|, j requires 0 <= j < |at| => at[j] + d)
  }

  lemma MovedMembers(at: seq<nat>, d: nat, i: nat)
    ensures i in Moved(at, d) <==> i >= d && i - d in at
  {
    var moved := Moved(at, d);
    if i in moved {
      var j :| 0 <= j < |at| && moved[j] == i;
      assert at[j] in at;
    }
    if i >= d && i - d in at {
      var j :| 0 <= j < |at| && at[j] == i - d;
      assert moved[j] in moved;
    }
  }

  lemma {:induction false} PartsNamed(s: string) returns (at: seq<nat>)
    ensures NamedInOrder(s, KeepIds(SplitOn(s, ',')), at)
    decreases |s|
  {
    hide Strip, Nobody, IsPlaceholder, Upper, Part, NamedAt, NamedInOrder, FirstOf;
    var k := FirstOf(s, ',');
    NobodyMeans(Strip(s[..k]));
    if k == |s| {
      at := if Nobody(Strip(s[..k])) then [] else [0];
      assert s[..k] == s && SplitOn(s, ',') == [s];
      assert KeepIds([s]) == KeepPart(s) + KeepIds([s][1..]) == KeepPart(s);
      OneNamed(s, at);
    } else {
      var later := PartsNamed(s[k + 1..]);
      assert SplitOn(s, ',')[1..] == SplitOn(s[k + 1..], ',');
      assert KeepIds(SplitOn(s, ',')) == KeepPart(s[..k]) + KeepIds(SplitOn(s[k + 1..], ','));
      at := (if Nobody(Strip(s[..k])) then [] else [0]) + Moved(later, k + 1);
      OneMoreNamed(s, k, KeepIds(SplitOn(s[k + 1..], ',')), later, at);
    }
  }

  lemma OneNamed(s: string, at: seq<nat>)
    requires FirstOf(s, ',') == |s| && IsPlaceholder(Strip(s)) == Nobody(Strip(s))
    requires at == if Nobody(Strip(s)) then [] else [0]
    ensures NamedInOrder(s, KeepPart(s), at)
  {
    hide Strip, Nobody, IsPlaceholder, Upper, Part, NamedAt, FirstOf;
    FirstPart(s);
    assert s[..|s|] == s;
    assert forall i: nat :: i in at <==> i == 0 && NamedAt(s, i);
  }

  lemma OneMoreNamed(s: string, k: nat, ids: seq<string>, later: seq<nat>, at: seq<nat>)
    requires k == FirstOf(s, ',') < |s| && NamedInOrder(s[k + 1..], ids, later)
    requires IsPlaceholder(Strip(s[..k])) == Nobody(Strip(s[..k]))
    requires at == (if Nobody(Strip(s[..k])) then [] else [0]) + Moved(later, k + 1)
    ensures NamedInOrder(s, KeepPart(s[..k]) + ids, at)
  {
    var head, moved := if Nobody(Strip(s[..k])) then [] else [0], Moved(later, k + 1);
    assert Rising(later) && |later| == |ids|;
    hide *;
    HeadNamed(s, k, head);
    InOrder(head, later, k + 1);
    AllNamed(s, k, ids, later, head, moved);
    Behind(s, head, KeepPart(s[..k]), moved, ids);
  }

  lemma AllNamed(s: string, k: nat, ids: seq<string>, later: seq<nat>, head: seq<nat>, moved: seq<nat>)
    requires k == FirstOf(s, ',') < |s| && NamedInOrder(s[k + 1..], ids, later) && moved == Moved(later, k + 1)
    requires head == if Nobody(Strip(s[..k])) then [] else [0]
    ensures |moved| == |ids| && forall j :: 0 <= j < |moved| ==> NamesId(s, moved[j], ids[j])
    ensures forall i: nat :: i in head + moved <==> NamedAt(s, i)
  {
    IdsThere(s, k, ids, later, moved);
    hide *;
    forall i: nat ensures i in head + moved <==> NamedAt(s, i) { MovedNamed(s, k, ids, later, head, i); }
  }

  lemma IdsThere(s: string, k: nat, ids: seq<string>, later: seq<nat>, moved: seq<nat>)
    requires k == FirstOf(s, ',') < |s| && NamedInOrder(s[k + 1..], ids, later) && moved == Moved(later, k + 1)
    ensures |moved| == |ids| && forall j :: 0 <= j < |moved| ==> NamesId(s, moved[j], ids[j])
  {
    assert |later| == |ids| && s[k] == ',';
    hide *;
    forall j | 0 <= j < |moved| ensures NamesId(s, moved[j], ids[j]) {
      var at := moved[j];
      assert at == k + 1 + later[j];
      IdThere(s, k, ids, later, j, at);
    }
  }

  lemma NamedThere(s: string, ids: seq<string>, at: seq<nat>, i: nat)
    requires NamedInOrder(s, ids, at)
    ensures i in at <==> NamedAt(s, i)
  {
    hide NamedAt, Part, Strip;
  }

  lemma NamedWithin(s: string, i: nat)
    ensures NamedAt(s, i) ==> i <= |s|
  {
    hide Nobody, Part, Strip;
  }

  lemma IdThere(s: string, k: nat, ids: seq<string>, later: seq<nat>, j: nat, at: nat)
    requires k < |s| && s[k] == ',' && NamedInOrder(s[k + 1..], ids, later) && j < |later| && at == k + 1 + later[j]
    ensures NamesId(s, at, ids[j])
  {
    hide NamedAt, Part, Strip, Upper;
    NamedWithin(s[k + 1..], later[j]);
    LaterPart(s, k, later[j]);
  }

  lemma InOrder(head: seq<nat>, later: seq<nat>, d: nat)
    requires (head == [] || head == [0]) && d > 0 && Rising(later)
    ensures Rising(head + Moved(later, d))
  {
  }

  lemma MovedNamed(s: string, k: nat, ids: seq<string>, later: seq<nat>, head: seq<nat>, i: nat)
    requires k == FirstOf(s, ',') < |s| && NamedInOrder(s[k + 1..], ids, later)
    requires head == if Nobody(Strip(s[..k])) then [] else [0]
    ensures i in head + Moved(later, k + 1) <==> NamedAt(s, i)
  {
    hide *;
    FirstPart(s);
    MovedMembers(later, k + 1, i);
    if i > k {
      LaterPart(s, k, i - k - 1);
      NamedThere(s[k + 1..], ids, later, i - k - 1);
    }
    EitherIn(head, Moved(later, k + 1), i);
  }

  lemma EitherIn(a: seq<nat>, b: seq<nat>, i: nat)
    ensures i in a + b <==> i in a || i in b
  {
  }

  lemma HeadNamed(s: string, k: nat, head: seq<nat>)
    requires k == FirstOf(s, ',') < |s| && head == (if Nobody(Strip(s[..k])) then [] else [0])
    requires IsPlaceholder(Strip(s[..k])) == Nobody(Strip(s[..k]))
    ensures |head| == |KeepPart(s[..k])| && forall j :: 0 <= j < |head| ==> NamesId(s, head[j], KeepPart(s[..k])[j])
  {
    hide Strip, Nobody, IsPlaceholder, Upper, Part, NamedAt;
    FirstPart(s);
  }

  lemma Behind(s: string, a: seq<nat>, xs: seq<string>, b: seq<nat>, ys: seq<string>)
    requires |a| == |xs| && |b| == |ys|
    requires forall j :: 0 <= j < |a| ==> NamesId(s, a[j], xs[j])
    requires forall j :: 0 <= j < |b| ==> NamesId(s, b[j], ys[j])
    requires Rising(a + b)
    requires forall i: nat :: i in a + b <==> NamedAt(s, i)
    ensures NamedInOrder(s, xs + ys, a + b)
  {
    hide Strip, Upper, Part, NamedAt;
  }

  /** The ids of a field's value stand in the order of its comma parts: one, in capitals, for each part that
      is not blank, a dash, or "none" or "n/a" in whatever case, and no other. */
  lemma TaskListMeans(s: string)
    ensures exists at :: NamedInOrder(s, TaskList(Some(s)), at)
    ensures forall id :: id in TaskList(Some(s)) <==> exists i: nat :: NamesId(s, i, id)
    ensures TaskList(Some(s)) == [] <==> forall i: nat :: !NamedAt(s, i)
  {
    var at := PartsNamed(s);
    hide Strip, Nobody, Upper, Part, NamedAt, KeepIds, SplitOn;
    var ids := TaskList(Some(s));
    assert NamedInOrder(s, ids, at);
    forall id ensures id in ids <==> exists i: nat :: NamesId(s, i, id) { IdsNamed(s, ids, at, id); }
    if ids == [] { forall i: nat ensures !NamedAt(s, i) { assert i !in at; } }
    else { assert NamedAt(s, at[0]); }
  }

  /** The part that begins at i names this id. */
  predicate NamesId(s: string, i: nat, id: string) { NamedAt(s, i) && Upper(Strip(Part(s, i))) == id }

  lemma IdsNamed(s: string, ids: seq<string>, at: seq<nat>, id: string)
    requires NamedInOrder(s, ids, at)
    ensures id in ids <==> exists i: nat :: NamesId(s, i, id)
  {
    hide Strip, Nobody, Upper, Part, NamedAt;
    if id in ids {
      var k :| 0 <= k < |ids| && ids[k] == id;
      assert NamesId(s, at[k], id);
    }
    if exists i: nat :: NamesId(s, i, id) {
      var i: nat :| NamesId(s, i, id);
      assert i in at;
      var k :| 0 <= k < |at| && at[k] == i;
      assert ids[k] == id;
    }
  }

  // ---------------------------------------------------------------- what a run reports of an issue

  /** One issue is reported as changed to this status, with the statuses it had. */
  predicate ReportsChange(b: Board, updated: seq<Replacement>, n: nat, status: string)
    requires n in b
  {
    |updated| == 1 && updated[0].number == n && updated[0].newStatus == status && updated[0].oldStatuses == StatusLabels(b[n].labels)
  }

  lemma ScanNotes(b: Board, id: string)
    ensures var s := ScanOne(b, [id]); Solo(b, Scanning([id])).1 == s.1 + Solo(b, s.0).1
  {
    hide ScanOne, Solo;
    var s := ScanOne(b, [id]);
    assert Step(b, Scanning([id])) == StepResult(b, s.0, s.1);
    SoloUnfolds(b, Scanning([id]));
  }

  lemma SoloUnfolds(b: Board, pc: Pc)
    requires !pc.Stopped?
    ensures Solo(b, pc) == Before(Step(b, pc).notes, Solo(Step(b, pc).board, Step(b, pc).pc))
  {
    hide Step;
  }

  lemma NothingMore(b: Board, ids: seq<string>)
    requires ids == []
    ensures Solo(b, Scanning(ids)).1 == []
    ensures forall notes: seq<Note> :: notes + [] == notes
  {
    SoloDone(b, ids);
    hide Solo;
  }

  lemma ChangeNotes(b: Board, n: nat, status: string)
    requires n in b && Supported(status)
    ensures Solo(b, Replace(n, b[n].labels, b[n].body, status, Scanning([]))).1 == []
    ensures Change(n, b[n].labels, b[n].body, status).Updated?
    ensures ReportsChange(b, [Change(n, b[n].labels, b[n].body, status).change], n, status)
  {
    hide Solo, ReplaceEdits, StatusLabels, SyncedBody, BareStatus;
    SoloMarked(b, n, status, Scanning([]));
    NothingMore(Marked(b, n, status), []);
  }

  lemma UnknownNotes(b: Board, id: string)
    requires FindIssue(b, id).None?
    ensures var notes := Solo(b, Scanning([id])).1; UpdatesOf(notes) == [] && SkipsOf(notes) == [NoUniqueIssue(id)]
  {
    hide FindIssue, Solo;
    ScanNotes(b, id);
    assert ScanOne(b, [id]) == (Scanning([]), [Skipped(NoUniqueIssue(id))]) by { assert [id][1..] == []; }
    NothingMore(b, []);
    NotesOne(Skipped(NoUniqueIssue(id)));
  }

  lemma MissingNotes(b: Board, id: string, n: nat)
    requires FindIssue(b, id) == Some(n) && Field(DEPENDS_ON, b[n].body).None?
    ensures var notes := Solo(b, Scanning([id])).1;
            ReportsChange(b, UpdatesOf(notes), n, NEEDS_ATTENTION) && SkipsOf(notes) == [MissingDependsOn(id)]
  {
    hide FindIssue, Field, Solo, ReportsChange, ReplaceEdits, StatusLabels, SyncedBody, BareStatus;
    ScanNotes(b, id);
    var change := Change(n, b[n].labels, b[n].body, NEEDS_ATTENTION);
    assert ScanOne(b, [id]) == (Replace(n, b[n].labels, b[n].body, NEEDS_ATTENTION, Scanning([])), [change, Skipped(MissingDependsOn(id))]) by {
      assert [id][0] == id && [id][1..] == [];
    }
    ChangeNotes(b, n, NEEDS_ATTENTION);
    NothingMore(b, []);
    NotesTwo(change.change, MissingDependsOn(id));
  }

  /** The end of looking at an issue's dependencies. */
  lemma CheckNotes(b: Board, id: string, n: nat)
    requires FindIssue(b, id) == Some(n) && Field(DEPENDS_ON, b[n].body).Some?
    ensures var notes, deps := Solo(b, Scanning([id])).1, WatcherDeps(b[n].body);
            var updated, skipped := UpdatesOf(notes), SkipsOf(notes);
            if !AllResolve(b, n) then
                 ReportsChange(b, updated, n, NEEDS_ATTENTION) && skipped == [UnresolvedDependencies(id, UnresolvedIn(b, deps))]
               else if !DepsMerged(b, n) then updated == [] && skipped == [NotMerged(id, MissingIn(b, deps))]
               else if MERGED in b[n].labels then updated == [] && skipped == [AlreadyMerged(id)]
               else ReportsChange(b, updated, n, READY) && skipped == []
  {
    ScanNotes(b, id);
    var deps := WatcherDeps(b[n].body);
    var pc := Checking(id, n, b[n].labels, b[n].body, deps, [], [], []);
    assert [] + Solo(b, pc).1 == Solo(b, pc).1;
    assert ScanOne(b, [id]) == (pc, []) by { assert [id][1..] == []; hide Field, TaskList, FindIssue; }
    UnresolvedMeans(b, deps);
    if UnresolvedIn(b, deps) == [] { MissingMeans(b, deps); }
    assert UnresolvedIn(b, deps) == [] <==> AllResolve(b, n);
    assert UnresolvedIn(b, deps) == [] ==> (MissingIn(b, deps) == [] <==> DepsMerged(b, n)) by { hide FindIssue, IsMerged, UnresolvedIn, MissingIn; }
    var done := Checked(b, pc);
    assert done == pc.(deps := [], unresolved := UnresolvedIn(b, deps), missing := MissingIn(b, deps)) by {
      assert [] + UnresolvedIn(b, deps) == UnresolvedIn(b, deps) && [] + MissingIn(b, deps) == MissingIn(b, deps);
      hide FindIssue, UnresolvedIn, MissingIn;
    }
    hide *;
    SoloChecking(b, pc);
    DecisionNotes(b, done, id, n);
  }

  lemma DecisionNotes(b: Board, pc: Pc, id: string, n: nat)
    requires n in b && pc.Checking? && pc.deps == [] && pc.rest == [] && pc.id == id && pc.target == n && pc.labels == b[n].labels && pc.body == b[n].body
    ensures var notes := Solo(b, pc).1;
            var updated, skipped := UpdatesOf(notes), SkipsOf(notes);
            if pc.unresolved != [] then ReportsChange(b, updated, n, NEEDS_ATTENTION) && skipped == [UnresolvedDependencies(id, pc.unresolved)]
            else if pc.missing != [] then updated == [] && skipped == [NotMerged(id, pc.missing)]
            else if MERGED in b[n].labels then updated == [] && skipped == [AlreadyMerged(id)]
            else ReportsChange(b, updated, n, READY) && skipped == []
  {
    hide UpdatesOf, SkipsOf, ReportsChange, Solo, ReplaceEdits, StatusLabels, SyncedBody, BareStatus;
    assert Step(b, pc) == StepResult(b, Decide(pc).0, Decide(pc).1);
    SoloUnfolds(b, pc);
    NothingMore(b, []);
    ChangeNotes(b, n, NEEDS_ATTENTION);
    ChangeNotes(b, n, READY);
    hide Step;
    var changed := Change(n, b[n].labels, b[n].body, if pc.unresolved != [] then NEEDS_ATTENTION else READY);
    NotesTwo(changed.change, UnresolvedDependencies(id, pc.unresolved));
    NotesOne(changed);
    NotesOne(Skipped(NotMerged(id, pc.missing)));
    NotesOne(Skipped(AlreadyMerged(id)));
  }

  /** What one id of the list comes to: skipped as no issue of one; changed to needs-attention for a missing field or
      for the dependencies that are no issue of one; skipped for those that are not merged, or because it is merged
      itself; or changed to ready. */
  lemma ReportFor(b: Board, id: string)
    ensures var notes, found := Solo(b, Scanning([id])).1, FindIssue(b, id);
            var updated, skipped := UpdatesOf(notes), SkipsOf(notes);
            if found.None? then updated == [] && skipped == [NoUniqueIssue(id)]
            else
              var n := found.value;
              var deps := WatcherDeps(b[n].body);
              if Field(DEPENDS_ON, b[n].body).None? then
                ReportsChange(b, updated, n, NEEDS_ATTENTION) && skipped == [MissingDependsOn(id)]
              else if !AllResolve(b, n) then
                ReportsChange(b, updated, n, NEEDS_ATTENTION) && skipped == [UnresolvedDependencies(id, UnresolvedIn(b, deps))]
              else if !DepsMerged(b, n) then updated == [] && skipped == [NotMerged(id, MissingIn(b, deps))]
              else if MERGED in b[n].labels then updated == [] && skipped == [AlreadyMerged(id)]
              else ReportsChange(b, updated, n, READY) && skipped == []
  {
    hide *;
    var found := FindIssue(b, id);
    if found.None? { UnknownNotes(b, id); }
    else if Field(DEPENDS_ON, b[found.value].body).None? { MissingNotes(b, id, found.value); }
    else { CheckNotes(b, id, found.value); }
  }

  // ---------------------------------------------------------------- a field that names nobody

  ghost predicate NamesNone(s: string) { forall i: nat :: !NamedAt(s, i) }

  lemma NoComma(p: string)
    requires Nobody(p)
    ensures ',' !in p
  {
  }

  lemma BlankNoComma(s: string)
    requires Blank(s)
    ensures ',' !in s
  {
  }

  /** "none", "n/a", a dash or nothing, with blanks around it, names nobody. */
  lemma PlaceholderNamesNone(s: string)
    requires Nobody(Strip(s))
    ensures NamesNone(s) && TaskList(Some(s)) == []
  {
    hide Nobody, Strip, IsPlaceholder, KeepIds, NamedAt;
    var left, right := StripParts(s);
    NoComma(Strip(s));
    BlankNoComma(left);
    BlankNoComma(right);
    hide Blank;
    WholePart(s);
    TaskListMeans(s);
  }

  lemma WholePart(s: string)
    requires ',' !in s && Nobody(Strip(s))
    ensures NamesNone(s)
  {
    hide Nobody, Strip;
    FirstPart(s);
    assert s[..|s|] == s;
  }

  /** The usual ways of writing it. */
  lemma UsualPlaceholders()
    ensures NamesNone("none") && NamesNone("None") && NamesNone("N/A") && NamesNone("-") && NamesNone([])
  {
    assert Stripped("none") && Stripped("None") && Stripped("N/A") && Stripped("-") && Stripped([]);
    assert Nobody("none") && Nobody("None") && Nobody("N/A") && Nobody("-") && Nobody([]);
    hide *;
    AloneNamesNone("none");
    AloneNamesNone("None");
    AloneNamesNone("N/A");
    AloneNamesNone("-");
    AloneNamesNone([]);
  }

  lemma AloneNamesNone(p: string)
    requires Nobody(p) && Stripped(p)
    ensures NamesNone(p)
  {
    hide Nobody, NamesNone;
    StripOf(p);
    PlaceholderNamesNone(p);
  }

  /** Watching over a listed issue that waits for nobody makes it ready, unless it is merged, and nothing is
      skipped; no other issue changes. */
  lemma FreeDependentReady(b: Board, id: string, n: nat, field: string)
    requires FindIssue(b, id) == Some(n) && Field(DEPENDS_ON, b[n].body) == Some(field) && NamesNone(field)
    requires MERGED !in b[n].labels
    ensures var r := Solo(b, Scanning([id]));
            && SkipsOf(r.1) == [] && r.0.Keys == b.Keys
            && (forall l :: l in r.0[n].labels <==> (l in b[n].labels && !IsStatus(l)) || l == READY)
            && (forall k :: k in b && k != n ==> r.0[k] == b[k])
  {
    hide FindIssue, Field, TaskList, NamesNone, ReplaceEdits, ApplyAll, SyncedBody, StatusLabels, BareStatus;
    NoneListed(field);
    var pc := Checking(id, n, b[n].labels, b[n].body, [], [], [], []);
    assert [id][0] == id && [id][1..] == [];
    assert Step(b, Scanning([id])) == StepResult(b, pc, []);
    BeforeNone(Solo(b, pc));
    var note := Change(n, b[n].labels, b[n].body, READY);
    var writing := Replace(n, b[n].labels, b[n].body, READY, Scanning([]));
    assert Step(b, pc) == StepResult(b, writing, [note]);
    var c := ApplyAll(b, ReplaceEdits(n, b[n].labels, b[n].body, READY, false));
    SoloWriting(b, ReplaceEdits(n, b[n].labels, b[n].body, READY, false), Scanning([]));
    SoloDone(c, []);
    assert Solo(b, pc) == (c, [note] + []);
    NotesOne(note);
    ReplaceEffect(b, n, READY, false);
  }

  lemma NoneListed(s: string)
    requires NamesNone(s)
    ensures TaskList(Some(s)) == []
  {
    TaskListMeans(s);
    hide NamedAt, KeepIds;
  }

  /** The run of an issue that unblocks nobody marks it merged, touches no other issue and reports nothing. */
  lemma LeafRun(b: Board, pr: PullRequest, id: string, n: nat)
    requires pr.merged && ResolveTaskIssue(b, pr) == Some((id, n))
    requires match Field(UNBLOCKS, b[n].body) case None => true case Some(field) => NamesNone(field)
    ensures var r := Solo(b, Resolving(pr));
            && r.1 == [] && r.0.Keys == b.Keys
            && (forall l :: l in r.0[n].labels <==> (l in b[n].labels && !IsStatus(l)) || l == MERGED)
            && (forall k :: k in b && k != n ==> r.0[k] == b[k])
  {
    hide FindIssue, Field, TaskList, NamesNone, ReplaceEdits, ApplyAll, SyncedBody, StatusLabels, BareStatus, ResolveTaskIssue, Marked;
    var m := Marked(b, n, MERGED);
    MarkedMerged(b, n);
    if Field(UNBLOCKS, b[n].body).Some? { NoneListed(Field(UNBLOCKS, b[n].body).value); }
    else { assert TaskList(None) == [] by { NobodyListed(); } }
    assert Step(b, Resolving(pr)) == StepResult(b, Replace(n, b[n].labels, b[n].body, MERGED, Refreshing(n)), []);
    BeforeNone(Solo(b, Replace(n, b[n].labels, b[n].body, MERGED, Refreshing(n))));
    SoloMarked(b, n, MERGED, Refreshing(n));
    assert Step(m, Refreshing(n)) == StepResult(m, Scanning([]), []);
    BeforeNone(Solo(m, Scanning([])));
    SoloDone(m, []);
  }

  lemma NobodyListed()
    ensures TaskList(None) == []
  {
  }
}
