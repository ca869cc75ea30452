/** The issue tracker the agents share, the single edits `gh issue edit` can make to it, and
    replace_task_status (scripts/agent_task_status.py), the only way an agent changes a status. */
module Tracker {
  import opened Text
  import opened TaskStatus

  datatype Issue = Issue(title: string, body: string, labels: seq<string>, open: bool)

  type Board = map<nat, Issue>

  /** One call of `gh issue edit`. */
  datatype Edit =
    | AddLabel(number: nat, tag: string)
    | RemoveLabel(number: nat, tag: string)
    | SwapLabels(number: nat, removed: seq<string>, tag: string)
    | SetBody(number: nat, body: string)

  function Without(labels: seq<string>, tags: seq<string>): (r: seq<string>)
    ensures forall l :: l in r <==> l in labels && l !in tags
  {
    if labels == [] then []
    else (if labels[0] in tags then [] else [labels[0]]) + Without(labels[1..], tags)
  }

  function With(labels: seq<string>, tag: string): (r: seq<string>)
    ensures forall l :: l in r <==> l in labels || l == tag
  {
    if tag in labels then labels else labels + [tag]
  }

  function EditIssue(issue: Issue, e: Edit): Issue {
    match e
    case AddLabel(_, tag) => issue.(labels := With(issue.labels, tag))
    case RemoveLabel(_, tag) => issue.(labels := Without(issue.labels, [tag]))
    case SwapLabels(_, removed, tag) => issue.(labels := With(Without(issue.labels, removed), tag))
    case SetBody(_, body) => issue.(body := body)
  }

  function Apply(b: Board, e: Edit): Board {
    if e.number in b then b[e.number := EditIssue(b[e.number], e)] else b
  }

  function ApplyAll(b: Board, es: seq<Edit>): Board {
    if es == [] then b else ApplyAll(Apply(b, es[0]), es[1..])
  }

  function Removals(number: nat, olds: seq<string>, keep: string): (r: seq<Edit>)
    ensures forall e :: e in r <==> e.RemoveLabel? && e.number == number && e.tag in olds && e.tag != keep
  {
    if olds == [] then []
    else (if olds[0] == keep then [] else [RemoveLabel(number, olds[0])]) + Removals(number, olds[1..], keep)
  }

  /** The label edits of replace_task_status: one call for a client that can swap labels, else the new
      label is added first and the old ones are removed one by one. */
  function LabelEdits(number: nat, labels: seq<string>, new_: string, swaps: bool): seq<Edit> {
    if swaps then
      if StatusLabels(labels) == [new_] then []
      else [SwapLabels(number, Without(StatusLabels(labels), [new_]), new_)]
    else
      (if new_ in labels then [] else [AddLabel(number, new_)]) + Removals(number, StatusLabels(labels), new_)
  }

  function ReplaceEdits(number: nat, labels: seq<string>, body: string, new_: string, swaps: bool): seq<Edit>
    requires Supported(new_)
  {
    var synced := SyncedBody(body, BareStatus(new_).value);
    LabelEdits(number, labels, new_, swaps) + (if synced == body then [] else [SetBody(number, synced)])
  }

  lemma OneSwap(b: Board, number: nat, labels: seq<string>, new_: string)
    ensures var olds := StatusLabels(labels);
            ApplyAll(b, LabelEdits(number, labels, new_, true))
            == if olds == [new_] then b else Apply(b, SwapLabels(number, Without(olds, [new_]), new_))
  {
    hide Apply, StatusLabels, Without;
    assert [SwapLabels(number, Without(StatusLabels(labels), [new_]), new_)][1..] == [];
  }

  lemma AddThenRemove(b: Board, number: nat, labels: seq<string>, new_: string)
    ensures ApplyAll(b, LabelEdits(number, labels, new_, false))
         == ApplyAll(if new_ in labels then b else Apply(b, AddLabel(number, new_)), Removals(number, StatusLabels(labels), new_))
  {
    hide Apply, StatusLabels, Removals;
    var removals := Removals(number, StatusLabels(labels), new_);
    if new_ in labels {
      assert [] + removals == removals;
    } else {
      assert ([AddLabel(number, new_)] + removals)[1..] == removals;
    }
  }

  /** The board once the labels from the i-th on are gone too. */
  ghost function Removed(b: Board, number: nat, olds: seq<string>, i: nat, keep: string): Board
    requires i <= |olds|
  {
    ApplyAll(b, Removals(number, olds[i..], keep))
  }

  lemma NextRemoval(b: Board, number: nat, olds: seq<string>, i: nat, keep: string)
    requires i < |olds|
    ensures Removed(b, number, olds, i, keep)
         == Removed(if olds[i] == keep then b else Apply(b, RemoveLabel(number, olds[i])), number, olds, i + 1, keep)
  {
    hide Apply;
    assert olds[i..][1..] == olds[i + 1..];
    var rest := Removals(number, olds[i + 1..], keep);
    if olds[i] == keep {
      assert [] + rest == rest;
    } else {
      assert ([RemoveLabel(number, olds[i])] + rest)[1..] == rest;
    }
  }

  lemma AllRemoved(b: Board, number: nat, olds: seq<string>, keep: string)
    ensures Removed(b, number, olds, 0, keep) == ApplyAll(b, Removals(number, olds, keep))
    ensures Removed(b, number, olds, |olds|, keep) == b
  {
    assert olds[0..] == olds && olds[|olds|..] == [];
  }

  lemma AddsOnly(n: nat, labels: seq<string>, body: string, new_: string)
    requires Supported(new_)
    ensures forall e :: e in ReplaceEdits(n, labels, body, new_, false) ==>
              e.number == n && !e.SwapLabels? && (e.AddLabel? ==> e.tag == new_)
  {
    hide SyncedBody, BareStatus, StatusLabels;
  }

  // ---------------------------------------------------------------- what a replacement achieves

  lemma {:induction false} ApplyAllAppend(b: Board, xs: seq<Edit>, ys: seq<Edit>)
    ensures ApplyAll(b, xs + ys) == ApplyAll(ApplyAll(b, xs), ys)
  {
    if xs == [] {
      assert xs + ys == ys;
    } else {
      assert (xs + ys)[1..] == xs[1..] + ys;
      ApplyAllAppend(Apply(b, xs[0]), xs[1..], ys);
    }
  }

  /** Edits of one issue leave every other issue, and the title and state of this one, alone. */
  lemma {:induction false} ApplyAllFrame(b: Board, es: seq<Edit>, number: nat)
    requires number in b && forall e :: e in es ==> e.number == number
    ensures var r := ApplyAll(b, es);
            && r.Keys == b.Keys
            && (forall n :: n in b && n != number ==> r[n] == b[n])
            && r[number].title == b[number].title && r[number].open == b[number].open
  {
    if es != [] {
      assert forall e :: e in es[1..] ==> e in es;
      assert es[0] in es;
      ApplyAllFrame(Apply(b, es[0]), es[1..], number);
    }
  }

  lemma {:induction false} ApplyRemovals(b: Board, number: nat, olds: seq<string>, keep: string)
    requires number in b
    ensures var r := ApplyAll(b, Removals(number, olds, keep));
            && number in r && r[number].body == b[number].body
            && forall l :: l in r[number].labels <==> l in b[number].labels && (l !in olds || l == keep)
  {
    if olds != [] {
      ApplyRemovals(b, number, olds[1..], keep);
      var rest := Removals(number, olds[1..], keep);
      if olds[0] == keep {
        assert Removals(number, olds, keep) == rest;
      } else {
        var e := RemoveLabel(number, olds[0]);
        assert Removals(number, olds, keep)[1..] == rest;
        ApplyRemovals(Apply(b, e), number, olds[1..], keep);
      }
    }
  }

  /** Both client paths end with the labels that are not status labels and exactly the new one. */
  lemma LabelEditsEffect(b: Board, number: nat, new_: string, swaps: bool)
    requires number in b && IsStatus(new_)
    ensures var r := ApplyAll(b, LabelEdits(number, b[number].labels, new_, swaps));
            && number in r && r[number].body == b[number].body
            && forall l :: l in r[number].labels <==> (l in b[number].labels && !IsStatus(l)) || l == new_
  {
    var labels := b[number].labels;
    var olds := StatusLabels(labels);
    var edits := LabelEdits(number, labels, new_, swaps);
    if swaps {
      if olds == [new_] {
        assert edits == [];
        assert new_ in olds;
      } else {
        assert edits[1..] == [];
      }
    } else if new_ in labels {
      assert edits == Removals(number, olds, new_);
      ApplyRemovals(b, number, olds, new_);
    } else {
      var e := AddLabel(number, new_);
      assert edits[1..] == Removals(number, olds, new_);
      ApplyRemovals(Apply(b, e), number, olds, new_);
    }
  }

  /** What replace_task_status does to the board when the labels and body it was given are current. */
  lemma ReplaceEffect(b: Board, number: nat, new_: string, swaps: bool)
    requires number in b && Supported(new_)
    ensures var r := ApplyAll(b, ReplaceEdits(number, b[number].labels, b[number].body, new_, swaps));
            && r.Keys == b.Keys
            && (forall n :: n in b && n != number ==> r[n] == b[n])
            && r[number].title == b[number].title && r[number].open == b[number].open
            && r[number].body == SyncedBody(b[number].body, BareStatus(new_).value)
            && forall l :: l in r[number].labels <==> (l in b[number].labels && !IsStatus(l)) || l == new_
  {
    hide SyncedBody;
    var issue := b[number];
    var labelEdits := LabelEdits(number, issue.labels, new_, swaps);
    var edits := ReplaceEdits(number, issue.labels, issue.body, new_, swaps);
    var bodyEdits := edits[|labelEdits|..];
    assert edits == labelEdits + bodyEdits;
    LabelEditsEffect(b, number, new_, swaps);
    ApplyAllAppend(b, labelEdits, bodyEdits);
    ApplyAllFrame(b, edits, number);
    if bodyEdits != [] { assert bodyEdits[1..] == []; }
  }

  /** Stopping after any number of edits: nothing has happened yet, or the new status is on the issue. */
  lemma StopPartWay(b: Board, number: nat, labels: seq<string>, body: string, new_: string, swaps: bool, k: nat)
    requires number in b && Supported(new_) && b[number].labels == labels
    requires k <= |ReplaceEdits(number, labels, body, new_, swaps)|
    ensures var r := ApplyAll(b, ReplaceEdits(number, labels, body, new_, swaps)[..k]);
            number in r && (k == 0 || new_ in r[number].labels)
  {
    hide SyncedBody;
    var edits := ReplaceEdits(number, labels, body, new_, swaps);
    if k > 0 {
      assert edits[..k][1..] == edits[1..k];
      FirstEdit(b, number, labels, body, new_, swaps);
      assert forall e :: e in edits[1..k] ==> e in edits[1..];
      KeepsLabel(Apply(b, edits[0]), edits[1..k], number, new_);
    }
  }

  lemma FirstEdit(b: Board, number: nat, labels: seq<string>, body: string, new_: string, swaps: bool)
    requires number in b && Supported(new_) && b[number].labels == labels
    requires ReplaceEdits(number, labels, body, new_, swaps) != []
    ensures var edits := ReplaceEdits(number, labels, body, new_, swaps);
            && number in Apply(b, edits[0]) && new_ in Apply(b, edits[0])[number].labels
            && forall e :: e in edits[1..] ==> (e.RemoveLabel? && e.tag != new_) || e.SetBody?
  {
    hide SyncedBody;
    var edits := ReplaceEdits(number, labels, body, new_, swaps);
    var labelEdits := LabelEdits(number, labels, new_, swaps);
    if labelEdits == [] {
      if swaps { assert [new_][0] in StatusLabels(labels); }
    } else {
      assert edits[1..] == labelEdits[1..] + edits[|labelEdits|..];
      assert edits[0] == labelEdits[0];
      if !swaps && new_ in labels { assert labelEdits[0] in labelEdits; }
    }
  }

  lemma {:induction false} KeepsLabel(b: Board, es: seq<Edit>, number: nat, tag: string)
    requires number in b && tag in b[number].labels
    requires forall e :: e in es ==> (e.RemoveLabel? && e.tag != tag) || e.SetBody?
    ensures var r := ApplyAll(b, es); number in r && tag in r[number].labels
  {
    if es != [] {
      assert es[0] in es;
      assert forall e :: e in es[1..] ==> e in es;
      KeepsLabel(Apply(b, es[0]), es[1..], number, tag);
    }
  }

  /** A second replacement with the same status, read afresh, removes and rewrites nothing. */
  lemma ReplaceTwice(b: Board, number: nat, new_: string, swaps: bool, again: bool)
    requires number in b && Supported(new_)
    ensures var r := ApplyAll(b, ReplaceEdits(number, b[number].labels, b[number].body, new_, swaps));
            number in r &&
            forall e :: e in ReplaceEdits(number, r[number].labels, r[number].body, new_, again) ==>
              e.SwapLabels? && e.removed == []
  {
    ReplaceEffect(b, number, new_, swaps);
    BareStatusIsPlain(new_);
    SyncIdempotent(b[number].body, BareStatus(new_).value);
    hide SyncedBody, ApplyAll, EditIssue;
    var issue := ApplyAll(b, ReplaceEdits(number, b[number].labels, b[number].body, new_, swaps))[number];
    Settled(issue, number, new_, again);
  }

  lemma Settled(issue: Issue, number: nat, new_: string, swaps: bool)
    requires Supported(new_) && SyncedBody(issue.body, BareStatus(new_).value) == issue.body
    requires new_ in issue.labels && forall l :: l in issue.labels && IsStatus(l) ==> l == new_
    ensures forall e :: e in ReplaceEdits(number, issue.labels, issue.body, new_, swaps) ==>
              e.SwapLabels? && e.removed == []
  {
    hide SyncedBody;
    NothingLeft(StatusLabels(issue.labels), number, new_);
  }

  lemma {:induction false} NothingLeft(olds: seq<string>, number: nat, new_: string)
    requires forall l :: l in olds ==> l == new_
    ensures Without(olds, [new_]) == [] && Removals(number, olds, new_) == []
  {
    if olds != [] {
      assert olds[0] in olds;
      assert forall l :: l in olds[1..] ==> l in olds;
      NothingLeft(olds[1..], number, new_);
    }
  }

  // ---------------------------------------------------------------- the client

  datatype Replacement = Replacement(number: nat, oldStatuses: seq<string>, newStatus: string, oldBody: string, newBody: string)

  class GitHub {
    var issues: Board
    const swaps: bool

    constructor (issues: Board, swaps: bool)
      ensures this.issues == issues && this.swaps == swaps
    {
      this.issues, this.swaps := issues, swaps;
    }

    method Add(number: nat, tag: string)
      modifies this
      ensures issues == Apply(old(issues), AddLabel(number, tag))
    {
      if number in issues && tag !in issues[number].labels {
        issues := issues[number := issues[number].(labels := issues[number].labels + [tag])];
      }
    }

    method Remove(number: nat, tag: string)
      modifies this
      ensures issues == Apply(old(issues), RemoveLabel(number, tag))
    {
      if number in issues {
        issues := issues[number := issues[number].(labels := Without(issues[number].labels, [tag]))];
      }
    }

    /** replace_status_labels: one `gh issue edit` with every --remove-label and the --add-label. */
    method Swap(number: nat, olds: seq<string>, new_: string)
      modifies this
      ensures issues == Apply(old(issues), SwapLabels(number, Without(olds, [new_]), new_))
    {
      if number in issues {
        var kept := Without(issues[number].labels, Without(olds, [new_]));
        issues := issues[number := issues[number].(labels := With(kept, new_))];
      }
    }

    method EditBody(number: nat, body: string)
      modifies this
      ensures issues == Apply(old(issues), SetBody(number, body))
    {
      if number in issues { issues := issues[number := issues[number].(body := body)]; }
    }

    method ReplaceTaskStatus(number: nat, labels: seq<string>, body: string, newStatus: string)
      returns (r: Option<Replacement>)
      modifies this
      ensures r.None? <==> !Supported(newStatus)
      ensures r.None? ==> issues == old(issues)
      ensures r.Some? ==> issues == ApplyAll(old(issues), ReplaceEdits(number, labels, body, newStatus, swaps))
      ensures r.Some? ==> r.value == Replacement(number, StatusLabels(labels), newStatus, body,
                                                SyncedBody(body, BareStatus(newStatus).value))
    {
      hide SyncedBody, EditIssue;
      var value := BareStatus(newStatus);
      if value.None? { return None; }
      var oldStatuses := StatusLabels(labels);
      var newBody := SyncStatusBody(body, value.value);
      ReplaceLabels(number, labels, newStatus);
      ghost var labelEdits := LabelEdits(number, labels, newStatus, swaps);
      ghost var bodyEdits := if newBody == body then [] else [SetBody(number, newBody)];
      ApplyAllAppend(old(issues), labelEdits, bodyEdits);
      if newBody != body {
        EditBody(number, newBody);
        assert bodyEdits[1..] == [];
      }
      return Some(Replacement(number, oldStatuses, newStatus, body, newBody));
    }

    method ReplaceLabels(number: nat, labels: seq<string>, newStatus: string)
      modifies this
      ensures issues == ApplyAll(old(issues), LabelEdits(number, labels, newStatus, swaps))
    {
      hide EditIssue, Removals, Apply, Without, ApplyAll, LabelEdits, StatusLabels;
      var oldStatuses := StatusLabels(labels);
      if swaps {
        OneSwap(issues, number, labels, newStatus);
        if oldStatuses != [newStatus] { Swap(number, oldStatuses, newStatus); }
      } else {
        AddThenRemove(issues, number, labels, newStatus);
        if newStatus !in labels { Add(number, newStatus); }
        hide Removed;
        AllRemoved(issues, number, oldStatuses, newStatus);
        ghost var goal := ApplyAll(issues, Removals(number, oldStatuses, newStatus));
        var i := 0;
        while i < |oldStatuses|
          invariant 0 <= i <= |oldStatuses|
          invariant Removed(issues, number, oldStatuses, i, newStatus) == goal
        {
          NextRemoval(issues, number, oldStatuses, i, newStatus);
          if oldStatuses[i] != newStatus { Remove(number, oldStatuses[i]); }
          i := i + 1;
        }
        AllRemoved(issues, number, oldStatuses, newStatus);
      }
    }
  }
}
