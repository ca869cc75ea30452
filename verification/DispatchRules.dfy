/** The rules of selection said on the labels and the texts of the issues themselves. */
module DispatchRules {
  import opened Text
  import opened Dependencies
  import opened Dispatch

  /** One label, and only one, has the prefix, and this is the rest of it. */
  predicate OneLabel(labels: seq<string>, prefix: string, rest: string) { exists k :: 0 <= k < |labels| && OnlyAt(labels, prefix, rest, k) }

  predicate OnlyAt(labels: seq<string>, prefix: string, rest: string, k: nat)
    requires k < |labels|
  {
    labels[k] == prefix + rest && forall j :: 0 <= j < |labels| && j != k ==> !(prefix <= labels[j])
  }

  predicate NoLabel(labels: seq<string>, prefix: string) { forall j :: 0 <= j < |labels| ==> !(prefix <= labels[j]) }

  lemma {:induction false} NoneMeans(labels: seq<string>, prefix: string)
    ensures Suffixes(labels, prefix) == [] <==> NoLabel(labels, prefix)
  {
    if labels != [] {
      NoneMeans(labels[1..], prefix);
      assert forall j :: 0 < j < |labels| ==> labels[j] == labels[1..][j - 1];
      assert NoLabel(labels, prefix) <==> !(prefix <= labels[0]) && NoLabel(labels[1..], prefix);
    }
  }

  lemma {:induction false} OnlyMeans(labels: seq<string>, prefix: string, rest: string)
    ensures Only(Suffixes(labels, prefix)) == Some(rest) <==> OneLabel(labels, prefix, rest)
  {
    if labels != [] {
      OnlyMeans(labels[1..], prefix, rest);
      NoneMeans(labels[1..], prefix);
      OneLabelStep(labels, prefix, rest);
      assert prefix <= labels[0] ==> labels[0] == prefix + labels[0][|prefix|..];
      assert (prefix + rest)[|prefix|..] == rest;
      hide OneLabel, NoLabel;
    }
  }

  lemma OneLabelStep(labels: seq<string>, prefix: string, rest: string)
    requires labels != []
    ensures OneLabel(labels, prefix, rest)
            <==> if prefix <= labels[0] then labels[0] == prefix + rest && NoLabel(labels[1..], prefix) else OneLabel(labels[1..], prefix, rest)
  {
    var tail := labels[1..];
    assert forall j :: 0 < j < |labels| ==> labels[j] == tail[j - 1];
    if OneLabel(labels, prefix, rest) {
      var k :| 0 <= k < |labels| && OnlyAt(labels, prefix, rest, k);
      if k > 0 { assert OnlyAt(tail, prefix, rest, k - 1); }
    }
    if prefix <= labels[0] {
      if labels[0] == prefix + rest && NoLabel(tail, prefix) { assert OnlyAt(labels, prefix, rest, 0); }
    } else if k :| 0 <= k < |tail| && OnlyAt(tail, prefix, rest, k) {
      assert OnlyAt(labels, prefix, rest, k + 1);
    }
  }

  predicate IsStatusOf(issue: Issue, status: string) { OneLabel(issue.labels, "status:", status) }

  predicate IsLaneOf(issue: Issue, lane: string) { OneLabel(issue.labels, "lane:", lane) }

  /** Each status, lane and agent is the one label with its prefix. */
  lemma LabelsMean(issue: Issue, rest: string)
    ensures StatusOf(issue) == Some(rest) <==> IsStatusOf(issue, rest)
    ensures LaneOf(issue) == Some(rest) <==> IsLaneOf(issue, rest)
    ensures AgentOf(issue) == Some("agent:" + rest) <==> OneLabel(issue.labels, "agent:", rest)
  {
    OnlyMeans(issue.labels, "status:", rest);
    OnlyMeans(issue.labels, "lane:", rest);
    OnlyMeans(issue.labels, "agent:", rest);
    hide OneLabel, Suffixes;
    var agent := Only(Suffixes(issue.labels, "agent:"));
    if agent.Some? {
      assert ("agent:" + agent.value)[6..] == agent.value && ("agent:" + rest)[6..] == rest;
    }
  }

  lemma AgentMeans(issue: Issue)
    ensures AgentOf(issue).Some? <==> exists rest :: OneLabel(issue.labels, "agent:", rest)
  {
    hide OneLabel, Suffixes;
    var agent := Only(Suffixes(issue.labels, "agent:"));
    if agent.Some? { LabelsMean(issue, agent.value); }
    if rest :| OneLabel(issue.labels, "agent:", rest) { LabelsMean(issue, rest); }
  }

  /** Lanes in the order of handing off: operations, python, dotnet, parity, review, anything else. */
  lemma RanksMean(issue: Issue)
    ensures IsLaneOf(issue, "ops") <==> LaneRank(issue) == 0
    ensures IsLaneOf(issue, "python") <==> LaneRank(issue) == 1
    ensures IsLaneOf(issue, "dotnet") <==> LaneRank(issue) == 2
    ensures IsLaneOf(issue, "parity") <==> LaneRank(issue) == 3
    ensures IsLaneOf(issue, "review") <==> LaneRank(issue) == 4
    ensures LaneRank(issue) <= 5
  {
    LanesAre();
    hide LANES, OneLabel, Suffixes;
    LabelsMean(issue, "ops");
    LabelsMean(issue, "python");
    LabelsMean(issue, "dotnet");
    LabelsMean(issue, "parity");
    LabelsMean(issue, "review");
  }

  lemma LanesAre()
    ensures |LANES| == 5 && LANES[0] == "ops" && LANES[1] == "python" && LANES[2] == "dotnet" && LANES[3] == "parity" && LANES[4] == "review"
    ensures "" !in LANES && forall i, j :: 0 <= i < j < 5 ==> LANES[i] != LANES[j]
  {
    assert LANES[0][0] == 'o' && LANES[1][0] == 'p' && LANES[2][0] == 'd' && LANES[3][1] == 'a' && LANES[4][0] == 'r' && LANES[1][1] == 'y';
    assert LANES[3][0] == 'p';
  }

  /** An issue can be handed off exactly when it names its task, has one agent and one lane, a review being one of
      parity, lists dependencies if it is a parity or a review task, and every dependency is one issue's task that
      is merged. */
  lemma DispatchableMeans(issue: Issue, index: Index)
    ensures Dispatchable(issue, index) <==>
              && TaskIdOf(issue).Some? && (exists rest :: OneLabel(issue.labels, "agent:", rest))
              && (|| IsLaneOf(issue, "ops") || IsLaneOf(issue, "python") || IsLaneOf(issue, "dotnet") || IsLaneOf(issue, "parity")
                  || (IsLaneOf(issue, "review") && Contains(Lower(issue.title + "\n" + issue.body), "parity")))
              && (IsLaneOf(issue, "parity") || IsLaneOf(issue, "review") ==> DispatchDeps(issue.body) != [])
              && (forall id :: id in DispatchDeps(issue.body) ==> index(id).Some? && IsStatusOf(index(id).value, "merged"))
  {
    AgentMeans(issue);
    LanesAre();
    hide LANES, OneLabel, Suffixes, Contains, Lower, TaskIdOf, DispatchDeps, AgentOf, LaneOf;
    LabelsMean(issue, "ops");
    LabelsMean(issue, "python");
    LabelsMean(issue, "dotnet");
    LabelsMean(issue, "parity");
    LabelsMean(issue, "review");
    forall id ensures MergedIn(index, id) <==> index(id).Some? && IsStatusOf(index(id).value, "merged") {
      if index(id).Some? { LabelsMean(index(id).value, "merged"); }
    }
    assert LANES[..4] == [LANES[0], LANES[1], LANES[2], LANES[3]];
    TemplateMeans(issue);
  }

  lemma TemplateMeans(issue: Issue)
    ensures HasTemplate(issue) <==>
              || LaneOf(issue) == Some("ops") || LaneOf(issue) == Some("python") || LaneOf(issue) == Some("dotnet") || LaneOf(issue) == Some("parity")
              || (LaneOf(issue) == Some("review") && Contains(Lower(issue.title + "\n" + issue.body), "parity"))
    ensures HasLane(issue) <==>
              || LaneOf(issue) == Some("ops") || LaneOf(issue) == Some("python") || LaneOf(issue) == Some("dotnet") || LaneOf(issue) == Some("parity")
              || LaneOf(issue) == Some("review")
    ensures NeedsDependencies(issue) <==> LaneOf(issue) == Some("parity") || LaneOf(issue) == Some("review")
  {
    LanesAre();
    hide LANES, Contains, Lower, LaneOf;
    assert LANES[..4] == [LANES[0], LANES[1], LANES[2], LANES[3]];
  }

  // ---------------------------------------------------------------- the frontier

  /** More issues than one have the id, or the one that has it is labelled so. */
  predicate IsAmbiguous(matches: seq<Issue>) { |matches| > 1 || (|matches| == 1 && IsStatusOf(matches[0], "ambiguous")) }

  /** What is said of a blocked issue: that it lists no dependencies; else that one of them is ambiguous; else that
      one has no issue; else that one is not merged; else that it need not be blocked. */
  lemma CategoryMeans(ids: seq<string>, occurrences: Occurrences)
    ensures match CategoryOf(ids, occurrences)
            case NoMetadata => ids == []
            case AmbiguousDependency => exists id :: id in ids && IsAmbiguous(occurrences(id))
            case MissingDependency => (exists id :: id in ids && occurrences(id) == []) && forall id :: id in ids ==> !IsAmbiguous(occurrences(id))
            case UnmergedDependency =>
              && (exists id :: id in ids && !IsStatusOf(occurrences(id)[0], "merged"))
              && forall id :: id in ids ==> |occurrences(id)| == 1 && !IsAmbiguous(occurrences(id))
            case ReadyButStillBlocked => ids != [] && forall id :: id in ids ==> |occurrences(id)| == 1 && IsStatusOf(occurrences(id)[0], "merged")
  {
    hide StatusOf, OneLabel;
    forall id
      ensures SummaryOf(occurrences(id)).status == Some(AMBIGUOUS) <==> IsAmbiguous(occurrences(id))
      ensures SummaryOf(occurrences(id)).number.None? <==> |occurrences(id)| != 1
      ensures |occurrences(id)| == 1 ==> (SummaryOf(occurrences(id)).status == Some(MERGED) <==> IsStatusOf(occurrences(id)[0], "merged"))
    {
      if |occurrences(id)| == 1 {
        LabelsMean(occurrences(id)[0], "ambiguous");
        LabelsMean(occurrences(id)[0], "merged");
      }
    }
    hide SummaryOf, IsStatusOf;
  }
}
