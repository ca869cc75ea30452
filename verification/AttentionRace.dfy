/** A malformed issue and two watchers: one marks it merged as its own pull request asks, the other finds it on
    its list and sends it for attention. Without any claim the issue can end with no status. */
module AttentionRace {
  import opened Text
  import opened TaskStatus
  import opened Tracker
  import opened Dependencies
  import opened Watcher
  import opened Queue
  import opened InProgress
  import opened MergedDependencies
  import opened Unblocking
  import opened Restart
  import opened StatusKept
  import opened StatusRaces
  import opened StatusTurns

  /** Issue d lists n alone, and n has no Depends-on field. */
  ghost predicate SendsForAttention(b: Board, d: nat, id: string, n: nat) {
    && d in b && n in b && n != d && FindIssue(b, id) == Some(n) && Unblocked(b, d) == [id]
    && Field(DEPENDS_ON, b[n].body).None?
  }

  function AttentionEdits(b: Board, n: nat): seq<Edit>
    requires n in b
  {
    ReplaceEdits(n, b[n].labels, b[n].body, NEEDS_ATTENTION, false)
  }

  /** From its own issue marked to the decision about n. */
  lemma AfterListing(c: Board, d: nat, id: string, n: nat)
    requires SendsForAttention(c, d, id, n)
    ensures After(c, Refreshing(d), 2) == (c, Writing(AttentionEdits(c, n), Scanning([])))
  {
    hide FindIssue, Field, TaskList, ReplaceEdits, After;
    assert Step(c, Refreshing(d)) == StepResult(c, Scanning([id]), []);
    assert [id][1..] == [] && [id][0] == id;
    assert Step(c, Scanning([id])).board == c && Step(c, Scanning([id])).pc == Writing(AttentionEdits(c, n), Scanning([]));
    hide Step;
    AfterOne(c, Refreshing(d));
    AfterOne(c, Scanning([id]));
    AfterMore(c, Refreshing(d), 1, 1);
  }

  /** The boards on the way: n has merged added, d is marked, n loses what it had before, n is sent for attention. */
  function Added(b: Board, n: nat): Board { Apply(b, AddLabel(n, MERGED)) }

  function BothMarked(b: Board, d: nat, n: nat): Board
    requires d in b
  {
    ApplyAll(Added(b, n), MergedEdits(b, d))
  }

  function Cleared(b: Board, d: nat, n: nat): Board
    requires d in b && n in b
  {
    ApplyAll(BothMarked(b, d, n), Rest(MergedEdits(b, n)))
  }

  /** The same edits do the same to the same issue. */
  lemma {:induction false} SameIssue(b: Board, c: Board, es: seq<Edit>, k: nat)
    requires k in b && k in c && b[k] == c[k]
    ensures k in ApplyAll(b, es) && k in ApplyAll(c, es) && ApplyAll(b, es)[k] == ApplyAll(c, es)[k]
    decreases |es|
  {
    if es != [] { SameIssue(Apply(b, es[0]), Apply(c, es[0]), es[1..], k); }
  }

  lemma FieldsStay(b: Board, d: nat, n: nat)
    requires d in b && n in b && d != n
    ensures d in BothMarked(b, d, n) && Field(UNBLOCKS, BothMarked(b, d, n)[d].body) == Field(UNBLOCKS, b[d].body)
  {
    MarkedMerged(b, d);
    assert Marked(b, d, MERGED) == ApplyAll(b, MergedEdits(b, d));
    assert d in Added(b, n) && Added(b, n)[d] == b[d];
    hide Added, ReplaceEdits, ApplyAll, Field, Marked, MergedEdits;
    SameIssue(b, Added(b, n), MergedEdits(b, d), d);
  }

  lemma OthersStay(b: Board, d: nat, n: nat)
    requires d in b && n in b && d != n
    ensures var c := BothMarked(b, d, n);
            && c.Keys == b.Keys && c[n] == Added(b, n)[n] && (forall k :: k in b ==> c[k].title == b[k].title)
            && Field(UNBLOCKS, c[d].body) == Field(UNBLOCKS, b[d].body)
  {
    FieldsStay(b, d, n);
    AddsOnly(d, b[d].labels, b[d].body, MERGED);
    var added, edits := Added(b, n), MergedEdits(b, d);
    assert added.Keys == b.Keys && forall k :: k in b ==> added[k].title == b[k].title;
    assert BothMarked(b, d, n) == ApplyAll(added, edits);
    hide *;
    ApplyAllFrame(added, edits, d);
  }

  lemma StillSends(b: Board, d: nat, id: string, n: nat)
    requires SendsForAttention(b, d, id, n)
    ensures SendsForAttention(BothMarked(b, d, n), d, id, n)
  {
    OthersStay(b, d, n);
    hide Field, TaskList, BothMarked;
    assert Titled(BothMarked(b, d, n), id) == Titled(b, id);
  }

  lemma FirstAdds(b: Board, n: nat)
    requires n in b && MERGED !in b[n].labels
    ensures var edits := MergedEdits(b, n); edits != [] && edits[0] == AddLabel(n, MERGED)
    ensures ApplyAll(Added(b, n), Rest(MergedEdits(b, n))) == ApplyAll(b, MergedEdits(b, n))
  {
    FirstMakesMerged(n, b[n].labels, b[n].body);
    hide ReplaceEdits, Apply;
  }

  /** Once both have done their part but the last, merged is the one status on n. */
  lemma OnlyMerged(b: Board, d: nat, n: nat)
    requires d in b && n in b && d != n && MERGED !in b[n].labels
    ensures n in Cleared(b, d, n) && forall l :: IsStatus(l) ==> (Carries(Cleared(b, d, n), n, l) <==> l == MERGED)
  {
    OthersStay(b, d, n);
    FirstAdds(b, n);
    StatusesApart();
    MarkedMerged(b, n);
    assert Marked(b, n, MERGED) == ApplyAll(b, MergedEdits(b, n));
    hide Apply, ApplyAll, ReplaceEdits, BothMarked, Marked, IsStatus, Field;
    assert n in Added(b, n) by { StaysInBoard(b, n); }
    SameIssue(BothMarked(b, d, n), Added(b, n), Rest(MergedEdits(b, n)), n);
  }

  lemma StaysInBoard(b: Board, n: nat)
    requires n in b
    ensures n in Added(b, n) && forall l :: l in Added(b, n)[n].labels <==> l in b[n].labels || l == MERGED
  {
  }

  /** The late list finds merged alone: it leaves needs-attention, unless that was there to be read and so is not
      added again. */
  lemma LateList(b: Board, d: nat, n: nat, s: string)
    requires d in b && n in b && d != n && StatusLabels(b[n].labels) == [s] && s != MERGED
    ensures n in BothMarked(b, d, n)
    ensures var f := ApplyAll(Cleared(b, d, n), AttentionEdits(BothMarked(b, d, n), n)); HasStatus(f, n) <==> s != NEEDS_ATTENTION
  {
    OneRead(b[n].labels, s);
    OthersStay(b, d, n);
    StaysInBoard(b, n);
    OnlyMerged(b, d, n);
    StatusesApart();
    var c := BothMarked(b, d, n);
    hide ApplyAll, Apply, ReplaceEdits, BothMarked, Cleared, IsStatus, StatusLabels, Field, Added, HasStatus;
    AloneWith(Cleared(b, d, n), n, c[n].labels, c[n].body, s);
  }

  lemma OneRead(labels: seq<string>, s: string)
    requires StatusLabels(labels) == [s]
    ensures IsStatus(s) && forall l :: IsStatus(l) ==> (l in labels <==> l == s)
  {
    assert s in StatusLabels(labels);
    assert forall l :: l in StatusLabels(labels) <==> l == s;
    hide StatusLabels, IsStatus;
  }

  lemma AloneWith(c: Board, n: nat, labels: seq<string>, body: string, s: string)
    requires n in c && forall l :: IsStatus(l) ==> (Carries(c, n, l) <==> l == MERGED)
    requires forall l :: IsStatus(l) ==> (l in labels <==> l == s || l == MERGED)
    ensures HasStatus(ApplyAll(c, ReplaceEdits(n, labels, body, NEEDS_ATTENTION, false)), n) <==> s != NEEDS_ATTENTION
  {
    StatusesApart();
    var edits := ReplaceEdits(n, labels, body, NEEDS_ATTENTION, false);
    ReplaceShaped(n, labels, body, NEEDS_ATTENTION, false);
    ReplacePuts(n, labels, body, NEEDS_ATTENTION, false);
    hide ReplaceEdits, ApplyAll, IsStatus, Shaped, PutsOn, TakesOff;
    var f := ApplyAll(c, edits);
    forall l | IsStatus(l) ensures Carries(f, n, l) <==> l == NEEDS_ATTENTION && s != NEEDS_ATTENTION {
      ListEffect(c, edits, n, l);
    }
  }

  // ---------------------------------------------------------------- the run

  /** Watcher 0 adds merged to n; watcher 1 marks d, reads n and decides; then both go on to the end of their list. */
  function AttentionEvents(b: Board, pr0: PullRequest, pr1: PullRequest, d: nat, n: nat): seq<Event>
    requires d in b && n in b && n in BothMarked(b, d, n)
  {
    BothRead(pr0, pr1) + Acts(0, 1) + Acts(1, |MergedEdits(b, d)| + 1 + 2) + Acts(0, |Rest(MergedEdits(b, n))|)
    + Acts(1, |AttentionEdits(BothMarked(b, d, n), n)|)
  }

  lemma AfterOneEdit(b: Board, edits: seq<Edit>, next: Pc)
    requires edits != []
    ensures After(b, Writing(edits, next), 1) == (Apply(b, edits[0]), Writing(edits[1..], next))
  {
    AfterOne(b, Writing(edits, next));
    hide After, Apply;
  }

  lemma AfterMarking(b: Board, edits: seq<Edit>, source: Pc, c: Board, late: Pc)
    requires c == ApplyAll(b, edits) && After(c, source, 2) == (c, late)
    ensures After(b, Writing(edits, source), |edits| + 1 + 2) == (c, late)
  {
    hide After, ApplyAll;
    AfterWritten(b, edits, source);
    AfterMore(b, Writing(edits, source), |edits| + 1, 2);
  }

  /** Watcher 0 makes its first edit, then watcher 1 all of its own and looks at the issue it lists. */
  lemma BothGo(w: World, b: Board, merges: seq<Edit>, own: Pc, marks: seq<Edit>, source: Pc, c: Board, late: Pc)
    requires Stands(w, b, 0, Writing(merges, own), 1, Writing(marks, source)) && merges != []
    requires c == ApplyAll(Apply(b, merges[0]), marks) && After(c, source, 2) == (c, late)
    ensures Stands(Run(Run(w, Acts(0, 1)), Acts(1, |marks| + 1 + 2)), c, 0, Writing(merges[1..], own), 1, late)
  {
    AfterOneEdit(b, merges, own);
    AfterMarking(Apply(b, merges[0]), marks, source, c, late);
    hide *;
    var added, rest := Apply(b, merges[0]), Writing(merges[1..], own);
    Turn(w, b, 0, Writing(merges, own), 1, Writing(marks, source), 1, added, rest);
    Turn(Run(w, Acts(0, 1)), added, 1, Writing(marks, source), 0, rest, |marks| + 1 + 2, c, late);
  }

  /** Watcher 0 has added merged, watcher 1 has marked d and decided about n. */
  lemma BothDecided(b: Board, pr0: PullRequest, pr1: PullRequest, d: nat, id: string, n: nat)
    requires SendsForAttention(b, d, id, n) && ResolvesTo(b, pr0, n) && ResolvesTo(b, pr1, d) && MERGED !in b[n].labels
    ensures d in b && n in b && n in BothMarked(b, d, n)
    ensures Stands(Run(Run(Run(Start(b), BothRead(pr0, pr1)), Acts(0, 1)), Acts(1, |MergedEdits(b, d)| + 1 + 2)), BothMarked(b, d, n),
                   0, Writing(Rest(MergedEdits(b, n)), Refreshing(n)), 1, Writing(AttentionEdits(BothMarked(b, d, n), n), Scanning([])))
  {
    OthersStay(b, d, n);
    StillSends(b, d, id, n);
    FirstAdds(b, n);
    HaveRead(b, pr0, pr1, n, d);
    var c := BothMarked(b, d, n);
    var merges, marks := MergedEdits(b, n), MergedEdits(b, d);
    assert Marks(b, n) == Writing(merges, Refreshing(n)) && Marks(b, d) == Writing(marks, Refreshing(d));
    assert c == ApplyAll(Apply(b, merges[0]), marks) && Rest(merges) == merges[1..];
    AfterListing(c, d, id, n);
    var late := Writing(AttentionEdits(c, n), Scanning([]));
    hide *;
    BothGo(Run(Start(b), BothRead(pr0, pr1)), b, merges, Refreshing(n), marks, Refreshing(d), c, late);
  }

  /** Both go on to the end of their lists. */
  lemma BothFinish(w: World, c: Board, rest: seq<Edit>, after: Pc, late: seq<Edit>, next: Pc)
    requires Stands(w, c, 0, Writing(rest, after), 1, Writing(late, next))
    ensures Run(Run(w, Acts(0, |rest|)), Acts(1, |late|)).board == ApplyAll(ApplyAll(c, rest), late)
  {
    hide Run, Acts, After, ApplyAll;
    var cleared := ApplyAll(c, rest);
    AfterWriting(c, rest, after);
    Turn(w, c, 0, Writing(rest, after), 1, Writing(late, next), |rest|, cleared, Writing([], after));
    AfterWriting(cleared, late, next);
    Turn(Run(w, Acts(0, |rest|)), cleared, 1, Writing(late, next), 0, Writing([], after), |late|, ApplyAll(cleared, late), Writing([], next));
  }

  lemma AttentionRuns(b: Board, pr0: PullRequest, pr1: PullRequest, d: nat, id: string, n: nat)
    requires SendsForAttention(b, d, id, n) && ResolvesTo(b, pr0, n) && ResolvesTo(b, pr1, d) && MERGED !in b[n].labels
    ensures d in b && n in b && n in BothMarked(b, d, n)
    ensures Run(Start(b), AttentionEvents(b, pr0, pr1, d, n)).board
         == ApplyAll(Cleared(b, d, n), AttentionEdits(BothMarked(b, d, n), n))
  {
    BothDecided(b, pr0, pr1, d, id, n);
    var c := BothMarked(b, d, n);
    var rest, late := Rest(MergedEdits(b, n)), AttentionEdits(c, n);
    assert Cleared(b, d, n) == ApplyAll(c, rest);
    assert AttentionEvents(b, pr0, pr1, d, n)
        == BothRead(pr0, pr1) + Acts(0, 1) + Acts(1, |MergedEdits(b, d)| + 1 + 2) + Acts(0, |rest|) + Acts(1, |late|);
    hide *;
    var w3 := Run(Run(Run(Start(b), BothRead(pr0, pr1)), Acts(0, 1)), Acts(1, |MergedEdits(b, d)| + 1 + 2));
    BothFinish(w3, c, rest, Refreshing(n), late, Scanning([]));
    Joined(Start(b), BothRead(pr0, pr1), Acts(0, 1), Acts(1, |MergedEdits(b, d)| + 1 + 2), Acts(0, |rest|), Acts(1, |late|));
  }

  lemma Joined(w: World, e0: seq<Event>, e1: seq<Event>, e2: seq<Event>, e3: seq<Event>, e4: seq<Event>)
    ensures Run(w, e0 + e1 + e2 + e3 + e4) == Run(Run(Run(Run(Run(w, e0), e1), e2), e3), e4)
  {
    hide Run;
    RunAppend(w, e0, e1);
    RunAppend(w, e0 + e1, e2);
    RunAppend(w, e0 + e1 + e2, e3);
    RunAppend(w, e0 + e1 + e2 + e3, e4);
  }

  /** After that run of two watchers, in which nobody claims anything, n has a status exactly when it was not marked
      for attention before. */
  lemma AttentionLoses(b: Board, pr0: PullRequest, pr1: PullRequest, d: nat, id: string, n: nat, s: string)
    requires SendsForAttention(b, d, id, n) && ResolvesTo(b, pr0, n) && ResolvesTo(b, pr1, d)
    requires StatusLabels(b[n].labels) == [s] && s != MERGED
    ensures n in BothMarked(b, d, n)
    ensures HasStatus(Run(Start(b), AttentionEvents(b, pr0, pr1, d, n)).board, n) <==> s != NEEDS_ATTENTION
  {
    assert MERGED !in b[n].labels by { StatusesApart(); OneRead(b[n].labels, s); }
    LateList(b, d, n, s);
    hide SendsForAttention, ResolvesTo, StatusLabels, HasStatus, Run, AttentionEvents, BothMarked, Cleared, ApplyAll, ReplaceEdits;
    AttentionRuns(b, pr0, pr1, d, id, n);
  }
}
