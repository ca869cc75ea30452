/** scripts/agent_task_watcher.py: what one run for a merged pull request does to the board, first as
    a machine whose step is one `gh` call, or the search for an issue with the view of what it found,
    then as the source's own loops, proved to be that machine run alone. */
module Watcher {
  import opened Text
  import opened TaskStatus
  import opened Tracker
  import opened Footers
  import opened Dependencies

  datatype PullRequest = PullRequest(title: string, body: string, merged: bool)

  // ---------------------------------------------------------------- reading the board

  function TitlePrefix(id: string): string { "[" + id + "]" }

  /** The issues whose title starts with the bracketed id. */
  function Titled(b: Board, id: string): set<nat> { set n | n in b && TitlePrefix(id) <= b[n].title }

  /** find_issue_for_task: the one issue titled so, if it is one. */
  function FindIssue(b: Board, id: string): (r: Option<nat>)
    ensures r.Some? <==> |Titled(b, id)| == 1
    ensures r.Some? ==> r.value in b && Titled(b, id) == {r.value}
  {
    var titled := Titled(b, id);
    if |titled| == 1 then
      OnlyOne(titled);
      var n :| n in titled;
      Some(n)
    else None
  }

  lemma OnlyOne(s: set<nat>)
    requires |s| == 1
    ensures exists n :: n in s
    ensures forall n :: n in s ==> s == {n}
  {
    forall n | n in s ensures s == {n} {
      assert |s - {n}| == 0;
    }
    assert s != {};
  }

  /** resolve_task_issue: the footer's issue number if there is one, else the issue titled with the
      task id; None stands for the source's errors. */
  function ResolveTaskIssue(b: Board, pr: PullRequest): (r: Option<(string, nat)>)
    ensures r.Some? ==> r.value.1 in b
  {
    var bodyId, titleId := WatcherId(pr.body), WatcherId(pr.title);
    match WatcherIssue(pr.body)
    case Some(number) =>
      if number !in b then None
      else
        var id := OrElse(bodyId, OrElse(WatcherId(b[number].body), OrElse(WatcherId(b[number].title), titleId)));
        if id.None? then None else Some((id.value, number))
    case None =>
      var id := OrElse(bodyId, titleId);
      if id.None? then None
      else
        var number := FindIssue(b, id.value);
        if number.None? then None else Some((id.value, number.value))
  }

  // ---------------------------------------------------------------- the machine

  datatype Skip =
    | NoUniqueIssue(id: string)
    | MissingDependsOn(id: string)
    | UnresolvedDependencies(id: string, dependencies: seq<string>)
    | NotMerged(id: string, dependencies: seq<string>)
    | AlreadyMerged(id: string)

  datatype Note = Updated(change: Replacement) | Skipped(why: Skip)

  /** Where one watcher run stands between two `gh` calls. Writing holds the edits of one
      replace_task_status that are still to be made; Checking holds the issue as it was viewed. */
  datatype Pc =
    | Resolving(pr: PullRequest)
    | Writing(edits: seq<Edit>, next: Pc)
    | Refreshing(source: nat)
    | Scanning(ids: seq<string>)
    | Checking(id: string, target: nat, labels: seq<string>, body: string,
               deps: seq<string>, unresolved: seq<string>, missing: seq<string>, rest: seq<string>)
    | Stopped

  datatype StepResult = StepResult(board: Board, pc: Pc, notes: seq<Note>)

  function Replace(target: nat, labels: seq<string>, body: string, new_: string, next: Pc): Pc
    requires Supported(new_)
  {
    Writing(ReplaceEdits(target, labels, body, new_, false), next)
  }

  function Change(target: nat, labels: seq<string>, body: string, new_: string): Note
    requires Supported(new_)
  {
    Updated(Replacement(target, StatusLabels(labels), new_, body, SyncedBody(body, BareStatus(new_).value)))
  }

  /** All dependencies of the issue under check have been looked at. */
  function Decide(pc: Pc): (Pc, seq<Note>)
    requires pc.Checking? && pc.deps == []
  {
    var next := Scanning(pc.rest);
    if pc.unresolved != [] then
      (Replace(pc.target, pc.labels, pc.body, NEEDS_ATTENTION, next),
       [Change(pc.target, pc.labels, pc.body, NEEDS_ATTENTION), Skipped(UnresolvedDependencies(pc.id, pc.unresolved))])
    else if pc.missing != [] then (next, [Skipped(NotMerged(pc.id, pc.missing))])
    else if MERGED in pc.labels then (next, [Skipped(AlreadyMerged(pc.id))])
    else (Replace(pc.target, pc.labels, pc.body, READY, next), [Change(pc.target, pc.labels, pc.body, READY)])
  }

  function CheckOne(b: Board, pc: Pc): Pc
    requires pc.Checking? && pc.deps != []
  {
    var dep := pc.deps[0];
    var found := FindIssue(b, dep);
    var later := pc.(deps := pc.deps[1..]);
    if found.None? then later.(unresolved := pc.unresolved + [dep])
    else if MERGED !in b[found.value].labels then later.(missing := pc.missing + [dep])
    else later
  }

  function ScanOne(b: Board, ids: seq<string>): (Pc, seq<Note>)
    requires ids != []
  {
    var id, rest := ids[0], ids[1..];
    var found := FindIssue(b, id);
    if found.None? then (Scanning(rest), [Skipped(NoUniqueIssue(id))])
    else
      var issue := b[found.value];
      var depends := Field(DEPENDS_ON, issue.body);
      if depends.None? then
        (Replace(found.value, issue.labels, issue.body, NEEDS_ATTENTION, Scanning(rest)),
         [Change(found.value, issue.labels, issue.body, NEEDS_ATTENTION), Skipped(MissingDependsOn(id))])
      else (Checking(id, found.value, issue.labels, issue.body, TaskList(depends), [], [], rest), [])
  }

  function Step(b: Board, pc: Pc): StepResult {
    match pc
    case Resolving(pr) =>
      var found := if pr.merged then ResolveTaskIssue(b, pr) else None;
      if found.None? then StepResult(b, Stopped, [])
      else
        var n := found.value.1;
        StepResult(b, Replace(n, b[n].labels, b[n].body, MERGED, Refreshing(n)), [])
    case Writing(edits, next) =>
      if edits == [] then StepResult(b, next, [])
      else StepResult(Apply(b, edits[0]), Writing(edits[1..], next), [])
    case Refreshing(n) =>
      if n !in b then StepResult(b, Stopped, [])
      else StepResult(b, Scanning(TaskList(Field(UNBLOCKS, b[n].body))), [])
    case Scanning(ids) =>
      if ids == [] then StepResult(b, Stopped, [])
      else var s := ScanOne(b, ids); StepResult(b, s.0, s.1)
    case Checking(_, _, _, _, deps, _, _, _) =>
      if deps == [] then var d := Decide(pc); StepResult(b, d.0, d.1)
      else StepResult(b, CheckOne(b, pc), [])
    case Stopped => StepResult(b, Stopped, [])
  }

  // A run makes finitely many steps: every issue id to unblock is taken once.

  function Stage(pc: Pc): nat {
    match pc
    case Resolving(_) => 3
    case Writing(_, next) => Stage(next)
    case Refreshing(_) => 2
    case Scanning(_) => 1
    case Checking(_, _, _, _, _, _, _, _) => 1
    case Stopped => 0
  }

  function Ids(pc: Pc): nat {
    match pc
    case Writing(_, next) => Ids(next)
    case Scanning(ids) => |ids|
    case Checking(_, _, _, _, _, _, _, rest) => |rest|
    case _ => 0
  }

  function Phase(pc: Pc): nat {
    match pc
    case Writing(_, next) => Phase(next) + 1
    case Checking(_, _, _, _, _, _, _, _) => 2
    case _ => 0
  }

  function Work(pc: Pc): nat {
    match pc
    case Writing(edits, _) => |edits|
    case Checking(_, _, _, _, deps, _, _, _) => |deps|
    case _ => 0
  }

  predicate Shrinks(p: Pc, q: Pc) {
    || Stage(q) < Stage(p)
    || (Stage(q) == Stage(p) && (
         || Ids(q) < Ids(p)
         || (Ids(q) == Ids(p) && (Phase(q) < Phase(p) || (Phase(q) == Phase(p) && Work(q) < Work(p))))))
  }

  lemma WritingMeasure(edits: seq<Edit>, next: Pc)
    ensures var w := Writing(edits, next);
            Stage(w) == Stage(next) && Ids(w) == Ids(next) && Phase(w) == Phase(next) + 1 && Work(w) == |edits|
  {
  }

  lemma DecideShrinks(pc: Pc)
    requires pc.Checking? && pc.deps == []
    ensures Shrinks(pc, Decide(pc).0)
  {
    hide ReplaceEdits, SyncedBody, StatusLabels, BareStatus;
    var q := Decide(pc).0;
    if q.Writing? { WritingMeasure(q.edits, q.next); }
  }

  lemma ScanShrinks(b: Board, ids: seq<string>)
    requires ids != []
    ensures Shrinks(Scanning(ids), ScanOne(b, ids).0)
  {
    hide Field, TaskList;
    var q := ScanOne(b, ids).0;
    if q.Writing? { WritingMeasure(q.edits, q.next); }
  }

  lemma StepShrinks(b: Board, pc: Pc)
    requires !pc.Stopped?
    ensures Shrinks(pc, Step(b, pc).pc)
  {
    hide ResolveTaskIssue, FindIssue, Field, TaskList, Apply, Decide, ScanOne;
    if pc.Checking? && pc.deps == [] { DecideShrinks(pc); }
    if pc.Scanning? && pc.ids != [] { ScanShrinks(b, pc.ids); }
    if pc.Writing? {
      WritingMeasure(pc.edits, pc.next);
      if pc.edits != [] { WritingMeasure(pc.edits[1..], pc.next); }
    }
    var q := Step(b, pc).pc;
    if pc.Resolving? && q.Writing? { WritingMeasure(q.edits, q.next); }
  }

  /** The run alone on the board, to its end. */
  function Solo(b: Board, pc: Pc): (Board, seq<Note>)
    decreases Stage(pc), Ids(pc), Phase(pc), Work(pc)
  {
    if pc.Stopped? then (b, [])
    else
      StepShrinks(b, pc);
      var s := Step(b, pc);
      Before(s.notes, Solo(s.board, s.pc))
  }

  function Before(notes: seq<Note>, r: (Board, seq<Note>)): (Board, seq<Note>) { (r.0, notes + r.1) }

  lemma BeforeNone(r: (Board, seq<Note>))
    ensures Before([], r) == r
  {
    assert [] + r.1 == r.1;
  }

  lemma {:induction false} SoloWriting(b: Board, edits: seq<Edit>, next: Pc)
    ensures Solo(b, Writing(edits, next)) == Solo(ApplyAll(b, edits), next)
    decreases |edits|
  {
    hide Apply;
    if edits == [] {
      assert Solo(b, Writing(edits, next)) == Before([], Solo(b, next));
      assert Step(b, Writing(edits, next)) == StepResult(b, next, []);
      BeforeNone(Solo(b, next));
    } else {
      var c := Apply(b, edits[0]);
      assert Step(b, Writing(edits, next)) == StepResult(c, Writing(edits[1..], next), []);
      BeforeNone(Solo(c, Writing(edits[1..], next)));
      SoloWriting(c, edits[1..], next);
    }
  }

  // ---------------------------------------------------------------- the source's loops

  function UpdatesOf(notes: seq<Note>): seq<Replacement> {
    if notes == [] then []
    else (if notes[0].Updated? then [notes[0].change] else []) + UpdatesOf(notes[1..])
  }

  function SkipsOf(notes: seq<Note>): seq<Skip> {
    if notes == [] then []
    else (if notes[0].Skipped? then [notes[0].why] else []) + SkipsOf(notes[1..])
  }

  lemma {:induction false} NotesAppend(a: seq<Note>, b: seq<Note>)
    ensures UpdatesOf(a + b) == UpdatesOf(a) + UpdatesOf(b)
    ensures SkipsOf(a + b) == SkipsOf(a) + SkipsOf(b)
  {
    if a == [] {
      assert a + b == b;
    } else {
      assert (a + b)[1..] == a[1..] + b;
      NotesAppend(a[1..], b);
      Assoc(if a[0].Updated? then [a[0].change] else [], UpdatesOf(a[1..]), UpdatesOf(b));
      Assoc(if a[0].Skipped? then [a[0].why] else [], SkipsOf(a[1..]), SkipsOf(b));
    }
  }

  function UnresolvedIn(b: Board, deps: seq<string>): seq<string> {
    if deps == [] then []
    else (if FindIssue(b, deps[0]).None? then [deps[0]] else []) + UnresolvedIn(b, deps[1..])
  }

  function MissingIn(b: Board, deps: seq<string>): seq<string> {
    if deps == [] then []
    else
      var found := FindIssue(b, deps[0]);
      (if found.Some? && MERGED !in b[found.value].labels then [deps[0]] else []) + MissingIn(b, deps[1..])
  }

  function Checked(b: Board, pc: Pc): Pc
    requires pc.Checking?
  {
    pc.(deps := [], unresolved := pc.unresolved + UnresolvedIn(b, pc.deps), missing := pc.missing + MissingIn(b, pc.deps))
  }

  /** Looking at the dependencies one by one ends with the two lists. */
  lemma {:induction false} SoloChecking(b: Board, pc: Pc)
    requires pc.Checking?
    ensures Solo(b, pc) == Solo(b, Checked(b, pc))
    decreases if pc.Checking? then |pc.deps| else 0
  {
    hide FindIssue;
    if pc.deps == [] {
      assert Checked(b, pc) == pc;
    } else {
      var next := CheckOne(b, pc);
      assert Step(b, pc) == StepResult(b, next, []);
      BeforeNone(Solo(b, next));
      SoloChecking(b, next);
      CheckedStep(b, pc);
    }
  }

  lemma CheckedStep(b: Board, pc: Pc)
    requires pc.Checking? && pc.deps != []
    ensures Checked(b, CheckOne(b, pc)) == Checked(b, pc)
  {
    hide FindIssue;
    Assoc(pc.unresolved, [pc.deps[0]], UnresolvedIn(b, pc.deps[1..]));
    Assoc(pc.missing, [pc.deps[0]], MissingIn(b, pc.deps[1..]));
    assert [] + UnresolvedIn(b, pc.deps[1..]) == UnresolvedIn(b, pc.deps[1..]);
    assert [] + MissingIn(b, pc.deps[1..]) == MissingIn(b, pc.deps[1..]);
  }

  method InspectDependencies(client: GitHub, deps: seq<string>) returns (unresolved: seq<string>, missing: seq<string>)
    ensures unresolved == UnresolvedIn(client.issues, deps) && missing == MissingIn(client.issues, deps)
  {
    hide FindIssue;
    unresolved, missing := [], [];
    for i := 0 to |deps|
      invariant unresolved + UnresolvedIn(client.issues, deps[i..]) == UnresolvedIn(client.issues, deps)
      invariant missing + MissingIn(client.issues, deps[i..]) == MissingIn(client.issues, deps)
    {
      assert deps[i..][1..] == deps[i + 1..];
      Assoc(unresolved, [deps[i]], UnresolvedIn(client.issues, deps[i + 1..]));
      Assoc(missing, [deps[i]], MissingIn(client.issues, deps[i + 1..]));
      assert [] + UnresolvedIn(client.issues, deps[i + 1..]) == UnresolvedIn(client.issues, deps[i + 1..]);
      assert [] + MissingIn(client.issues, deps[i + 1..]) == MissingIn(client.issues, deps[i + 1..]);
      var number := FindIssue(client.issues, deps[i]);
      if number.None? {
        unresolved := unresolved + [deps[i]];
        continue;
      }
      if MERGED !in client.issues[number.value].labels {
        missing := missing + [deps[i]];
      }
    }
    assert unresolved + [] == unresolved && missing + [] == missing;
  }

  /** One issue id of the Unblocks list: the loop body of evaluate_downstream. */
  method EvaluateOne(client: GitHub, id: string, ghost rest: seq<string>)
    returns (updated: seq<Replacement>, skipped: seq<Skip>, ghost notes: seq<Note>)
    requires !client.swaps
    modifies client
    ensures Solo(old(client.issues), Scanning([id] + rest)) == Before(notes, Solo(client.issues, Scanning(rest)))
    ensures updated == UpdatesOf(notes) && skipped == SkipsOf(notes)
  {
    hide FindIssue, Field, TaskList, ReplaceEdits, ApplyAll, SyncedBody, BareStatus, StatusLabels;
    ghost var b := client.issues;
    assert ([id] + rest)[0] == id && ([id] + rest)[1..] == rest;
    ghost var first := ScanOne(b, [id] + rest);
    assert Step(b, Scanning([id] + rest)) == StepResult(b, first.0, first.1);
    var number := FindIssue(client.issues, id);
    if number.None? {
      notes := [Skipped(NoUniqueIssue(id))];
      NotesOne(notes[0]);
      return [], [NoUniqueIssue(id)], notes;
    }
    var issue := client.issues[number.value];
    var dependsOn := ExtractField(DEPENDS_ON, issue.body);
    if dependsOn.None? {
      var r := client.ReplaceTaskStatus(number.value, issue.labels, issue.body, NEEDS_ATTENTION);
      SoloWriting(b, ReplaceEdits(number.value, issue.labels, issue.body, NEEDS_ATTENTION, false), Scanning(rest));
      notes := [Updated(r.value), Skipped(MissingDependsOn(id))];
      NotesTwo(r.value, MissingDependsOn(id));
      return [r.value], [MissingDependsOn(id)], notes;
    }
    var deps := ParseTaskList(dependsOn);
    ghost var pc := Checking(id, number.value, issue.labels, issue.body, deps, [], [], rest);
    var unresolved, missing := InspectDependencies(client, deps);
    SoloChecking(b, pc);
    assert [] + unresolved == unresolved && [] + missing == missing;
    ghost var done := Checked(b, pc);
    assert done == pc.(deps := [], unresolved := unresolved, missing := missing);
    BeforeNone(Solo(b, pc));
    ghost var decision := Decide(done);
    assert Step(b, done) == StepResult(b, decision.0, decision.1);
    if unresolved != [] {
      var r := client.ReplaceTaskStatus(number.value, issue.labels, issue.body, NEEDS_ATTENTION);
      SoloWriting(b, ReplaceEdits(number.value, issue.labels, issue.body, NEEDS_ATTENTION, false), Scanning(rest));
      notes := [Updated(r.value), Skipped(UnresolvedDependencies(id, unresolved))];
      NotesTwo(r.value, UnresolvedDependencies(id, unresolved));
      return [r.value], [UnresolvedDependencies(id, unresolved)], notes;
    }
    if missing != [] {
      notes := [Skipped(NotMerged(id, missing))];
      NotesOne(notes[0]);
      return [], [NotMerged(id, missing)], notes;
    }
    if MERGED in issue.labels {
      notes := [Skipped(AlreadyMerged(id))];
      NotesOne(notes[0]);
      return [], [AlreadyMerged(id)], notes;
    }
    var r := client.ReplaceTaskStatus(number.value, issue.labels, issue.body, READY);
    SoloWriting(b, ReplaceEdits(number.value, issue.labels, issue.body, READY, false), Scanning(rest));
    notes := [Updated(r.value)];
    NotesOne(notes[0]);
    return [r.value], [], notes;
  }

  lemma NotesOne(note: Note)
    ensures UpdatesOf([note]) == if note.Updated? then [note.change] else []
    ensures SkipsOf([note]) == if note.Skipped? then [note.why] else []
  {
    assert [note][1..] == [];
  }

  lemma NotesTwo(change: Replacement, why: Skip)
    ensures UpdatesOf([Updated(change), Skipped(why)]) == [change]
    ensures SkipsOf([Updated(change), Skipped(why)]) == [why]
  {
    NotesOne(Skipped(why));
    assert [Updated(change), Skipped(why)][1..] == [Skipped(why)];
  }

  method EvaluateDownstream(client: GitHub, sourceBody: string)
    returns (updated: seq<Replacement>, skipped: seq<Skip>)
    requires !client.swaps
    modifies client
    ensures var r := Solo(old(client.issues), Scanning(TaskList(Field(UNBLOCKS, sourceBody))));
            client.issues == r.0 && updated == UpdatesOf(r.1) && skipped == SkipsOf(r.1)
  {
    hide Field, TaskList, Step, UpdatesOf, SkipsOf;
    updated, skipped := [], [];
    var unblocks := ExtractField(UNBLOCKS, sourceBody);
    var ids := ParseTaskList(unblocks);
    ghost var goal := Solo(client.issues, Scanning(ids));
    ghost var notes: seq<Note> := [];
    NotesNone();
    BeforeNone(goal);
    for i := 0 to |ids|
      invariant goal == Before(notes, Solo(client.issues, Scanning(ids[i..])))
      invariant updated == UpdatesOf(notes) && skipped == SkipsOf(notes)
    {
      assert ids[i..] == [ids[i]] + ids[i + 1..];
      ghost var more: seq<Note>;
      var u, k;
      u, k, more := EvaluateOne(client, ids[i], ids[i + 1..]);
      NotesAppend(notes, more);
      Assoc(notes, more, Solo(client.issues, Scanning(ids[i + 1..])).1);
      notes := notes + more;
      updated, skipped := updated + u, skipped + k;
    }
    SoloDone(client.issues, ids[|ids|..]);
    assert notes + [] == notes;
  }

  lemma NotesNone()
    ensures UpdatesOf([]) == [] && SkipsOf([]) == []
  {
  }

  lemma SoloDone(b: Board, ids: seq<string>)
    requires ids == []
    ensures Solo(b, Scanning(ids)) == (b, [])
  {
    assert Step(b, Scanning(ids)) == StepResult(b, Stopped, []);
    BeforeNone((b, []));
  }

  datatype Outcome = NotMergedPr | Failed | Processed(id: string, number: nat, updated: seq<Replacement>, skipped: seq<Skip>)

  /** process_merged_pr; Failed stands for the errors of resolve_task_issue. */
  method ProcessMergedPr(client: GitHub, pr: PullRequest) returns (r: Outcome)
    requires !client.swaps
    modifies client
    ensures var solo := Solo(old(client.issues), Resolving(pr));
            && client.issues == solo.0
            && (r.Processed? ==> r.updated == UpdatesOf(solo.1) && r.skipped == SkipsOf(solo.1))
    ensures r.NotMergedPr? <==> !pr.merged
    ensures r.Failed? <==> pr.merged && ResolveTaskIssue(old(client.issues), pr).None?
    ensures r.Processed? ==> ResolveTaskIssue(old(client.issues), pr) == Some((r.id, r.number))
  {
    hide ResolveTaskIssue, Field, TaskList, ReplaceEdits, ApplyAll, SyncedBody, UpdatesOf, SkipsOf;
    ghost var b := client.issues;
    if !pr.merged { return NotMergedPr; }
    var found := ResolveTaskIssue(client.issues, pr);
    if found.None? { return Failed; }
    var (id, number) := found.value;
    var issue := client.issues[number];
    var _ := client.ReplaceTaskStatus(number, issue.labels, issue.body, MERGED);
    ghost var edits := ReplaceEdits(number, issue.labels, issue.body, MERGED, false);
    ReplaceEffect(b, number, MERGED, false);
    assert Step(b, Resolving(pr)) == StepResult(b, Writing(edits, Refreshing(number)), []);
    SoloWriting(b, edits, Refreshing(number));
    var refreshed := client.issues[number];
    ghost var scan := Scanning(TaskList(Field(UNBLOCKS, refreshed.body)));
    assert Step(client.issues, Refreshing(number)) == StepResult(client.issues, scan, []);
    BeforeNone(Solo(client.issues, scan));
    var updated, skipped := EvaluateDownstream(client, refreshed.body);
    return Processed(id, number, updated, skipped);
  }
}
