/** The reporter's claim against the supervisor's, each choosing as its script does: the supervisor the
    least number among the open ready issues, the reporter the least candidate by lane, then number. */
module ClaimRace {
  import opened Text
  import opened TaskStatus
  import opened Tracker
  import opened Footers
  import opened Dependencies
  import opened Queue
  import opened InProgress
  import opened Supervision
  import D = Dispatch

  function Seen(b: Board, n: nat): D.Issue
    requires n in b
  {
    D.Issue(n, b[n].title, b[n].body, b[n].labels)
  }

  /** What load_queue_state reads from the board: the open ready issues and all issues, in some order. */
  ghost predicate Snapshot(b: Board, q: D.Queue) {
    && (forall x :: x in q.ready <==> OpenReady(b, x.number) && x == Seen(b, x.number))
    && (forall x :: x in q.all <==> x.number in b && x == Seen(b, x.number))
    && (q.inProgress == 0 <==> NothingInProgress(b))
  }

  predicate Prefixed(tags: seq<string>, rests: seq<string>) {
    |tags| == |rests| && forall i :: 0 <= i < |tags| ==> tags[i] == "status:" + rests[i]
  }

  lemma PrefixedMore(tag: string, tags: seq<string>, rests: seq<string>)
    requires "status:" <= tag && Prefixed(tags, rests)
    ensures Prefixed([tag] + tags, [tag[7..]] + rests)
  {
    assert tag == "status:" + tag[7..];
  }

  lemma {:induction false} StatusSuffixes(labels: seq<string>)
    ensures Prefixed(StatusLabels(labels), D.Suffixes(labels, "status:"))
  {
    if labels != [] {
      StatusSuffixes(labels[1..]);
      var tags, rests := StatusLabels(labels[1..]), D.Suffixes(labels[1..], "status:");
      hide Prefixed;
      if "status:" <= labels[0] { PrefixedMore(labels[0], tags, rests); }
      assert [] + tags == tags && [] + rests == rests;
    }
  }

  lemma OnlyReady(x: D.Issue)
    requires D.StatusOf(x) == Some(D.READY)
    ensures StatusLabels(x.labels) == [READY]
  {
    StatusSuffixes(x.labels);
    assert READY == "status:" + D.READY;
    hide StatusLabels, D.Suffixes;
  }

  lemma ListedReady(b: Board, q: D.Queue, x: D.Issue)
    requires Snapshot(b, q) && x in q.ready
    ensures OpenReady(b, x.number) && x == Seen(b, x.number)
    ensures x.number in OpenWith(b, READY)
  {
    OpenWithReady(b, x.number);
  }

  /** When both choose from one board and the claims cross, at most one open issue is in progress
      afterwards exactly when the reporter's candidate is the least-numbered ready issue. */
  lemma ClaimsCross(b: Board, q: D.Queue, x: D.Issue)
    requires Snapshot(b, q) && D.Selected(q, x)
    ensures OpenWith(b, READY) != {}
    ensures AtMostOne(Run(Start(b), Race(x.number, Least(OpenWith(b, READY)))).board)
            <==> x.number == Least(OpenWith(b, READY))
  {
    hide D.StatusOf, D.Dispatchable, D.Before, D.Matches, Least, OpenWith, Run, Race, AtMostOne;
    ListedReady(b, q, x);
    var n := Least(OpenWith(b, READY));
    OpenWithReady(b, n);
    OnlyReady(x);
    UnlockedClaimRaces(b, x.number, n);
  }

  /** They choose the same issue exactly when the least-numbered ready issue has one status label and no
      candidate stands in an earlier lane. */
  lemma SameChoice(b: Board, q: D.Queue, x: D.Issue)
    requires Snapshot(b, q) && D.Selected(q, x)
    ensures OpenWith(b, READY) != {} && Least(OpenWith(b, READY)) in b
    ensures var least := Seen(b, Least(OpenWith(b, READY)));
            x.number == least.number
            <==> D.StatusOf(least) == Some(D.READY)
                 && forall y :: y in q.ready && D.StatusOf(y) == Some(D.READY) ==> D.LaneRank(least) <= D.LaneRank(y)
  {
    hide D.StatusOf, D.Dispatchable, D.Matches, D.LaneRank, Least, OpenWith;
    ListedReady(b, q, x);
    var n := Least(OpenWith(b, READY));
    OpenWithReady(b, n);
    var least := Seen(b, n);
    assert least in q.ready;
    if x.number == n { assert x == least; }
  }

  // ---------------------------------------------------------------- a board on which they choose differently

  const REVIEW := Issue("", "", [READY, "lane:review", "agent:ops"], true)
  const OPERATIONS := Issue("", Footer("OPS-2", 2), [READY, "lane:ops", "agent:ops"], true)
  const TWO_READY: Board := map[1 := REVIEW, 2 := OPERATIONS]

  function BothListed(): D.Queue {
    var all := [Seen(TWO_READY, 1), Seen(TWO_READY, 2)];
    D.Queue(0, 0, all, all)
  }

  /** A review task with the lower number and an operations task: the supervisor takes the first, the
      reporter the second, and both end in progress. */
  lemma ChoicesDiffer()
    ensures Snapshot(TWO_READY, BothListed()) && D.Selected(BothListed(), Seen(TWO_READY, 2))
    ensures OpenWith(TWO_READY, READY) != {} && Least(OpenWith(TWO_READY, READY)) == 1
    ensures !AtMostOne(Run(Start(TWO_READY), Race(2, 1)).board)
  {
    hide Footer;
    BothReady();
    BothSeen();
    OperationsSelected();
    hide D.Selected, Run, Race, AtMostOne, Snapshot;
    OpenWithReady(TWO_READY, 1);
    OpenWithReady(TWO_READY, 2);
    OpenWithReady(TWO_READY, 0);
    ClaimsCross(TWO_READY, BothListed(), Seen(TWO_READY, 2));
  }

  lemma BothReady()
    ensures OpenReady(TWO_READY, 1) && OpenReady(TWO_READY, 2) && !OpenReady(TWO_READY, 0) && NothingInProgress(TWO_READY)
  {
    assert READY[7] == 'r' && IN_PROGRESS[7] == 'i' && IN_PROGRESS[0] == 's';
    hide Footer;
  }

  lemma BothSeen()
    ensures Snapshot(TWO_READY, BothListed())
  {
    BothReady();
    hide Footer, NothingInProgress;
    var all := BothListed().all;
    assert all[0] == Seen(TWO_READY, 1) && all[1] == Seen(TWO_READY, 2);
  }

  lemma FooterReads(letters: string, digits: string, number: nat)
    requires CanonicalParts(letters + "-" + digits, letters, digits)
    ensures DispatchId(Footer(letters + "-" + digits, number)).Some?
    ensures DispatchDeps(Footer(letters + "-" + digits, number)) == []
  {
    hide DispatchId, DispatchIdAt, FirstLine, AfterLine, DispatchField, CanonicalParts, IssueLine;
    ReadsFooter(letters, digits, number);
    var id := letters + "-" + digits;
    IdIsLine(letters, digits);
    IssueLineIsLine(number);
    var line := "Task-ID: " + id;
    assert Footer(id, number) == line + "\n" + IssueLine(number);
    NoField(IssueLine(number), None);
    NoField(line, Some(IssueLine(number)));
  }

  lemma IdIsLine(letters: string, digits: string)
    requires CanonicalParts(letters + "-" + digits, letters, digits)
    ensures var line := "Task-ID: " + (letters + "-" + digits); '\n' !in line && line[0] == 'T'
  {
    IdChars(letters, digits);
  }

  lemma IssueLineIsLine(number: nat)
    ensures '\n' !in IssueLine(number) && IssueLine(number) != [] && IssueLine(number)[0] == 'T'
  {
    assert forall c :: c in Digits(number) ==> IsDigit(c);
  }

  lemma OperationsBody()
    ensures DispatchId(Footer("OPS-2", 2)).Some? && DispatchDeps(Footer("OPS-2", 2)) == []
  {
    hide DispatchId, DispatchDeps, Footer;
    assert "OPS" + "-" + "2" == "OPS-2";
    FooterReads("OPS", "2", 2);
  }

  /** A line that starts with T does not start the field. */
  lemma NoField(line: string, rest: Option<string>)
    requires line != [] && line[0] == 'T' && '\n' !in line
    requires rest.Some? ==> DispatchField(DEPENDS_ON, rest.value).None?
    ensures DispatchField(DEPENDS_ON, if rest.Some? then line + "\n" + rest.value else line).None?
  {
    hide FirstLine, AfterLine, Strip, LStrip;
    var s := if rest.Some? then line + "\n" + rest.value else line;
    FirstLineOf(line, if rest.Some? then rest.value else []);
    assert s[0] == 'T';
    assert (Lower(DEPENDS_ON) + ":")[0] == 'd';
  }

  lemma OneSuffix(labels: seq<string>, prefix: string)
    requires labels != []
    ensures D.Suffixes(labels, prefix)
         == (if prefix <= labels[0] then [labels[0][|prefix|..]] else []) + D.Suffixes(labels[1..], prefix)
  {
  }

  lemma {:induction false} ThreeSuffixes(labels: seq<string>, prefix: string, a: seq<string>, b: seq<string>, c: seq<string>)
    requires |labels| == 3
    requires a == if prefix <= labels[0] then [labels[0][|prefix|..]] else []
    requires b == if prefix <= labels[1] then [labels[1][|prefix|..]] else []
    requires c == if prefix <= labels[2] then [labels[2][|prefix|..]] else []
    ensures D.Suffixes(labels, prefix) == a + b + c
  {
    hide D.Suffixes;
    var l, m := labels[1..], labels[2..];
    assert l[1..] == m && m[1..] == [];
    OneSuffix(labels, prefix);
    OneSuffix(l, prefix);
    OneSuffix(m, prefix);
    assert D.Suffixes([], prefix) == [] by { NoSuffix(prefix); }
    assert a + (b + (c + [])) == a + b + c;
  }

  lemma NoSuffix(prefix: string)
    ensures D.Suffixes([], prefix) == []
  {
  }

  lemma LabelTexts()
    ensures READY[7..] == "ready" && "lane:review"[5..] == "review" && "lane:ops"[5..] == "ops" && "agent:ops"[6..] == "ops"
    ensures "status:" <= READY && !("status:" <= "lane:review") && !("status:" <= "lane:ops") && !("status:" <= "agent:ops")
    ensures !("lane:" <= READY) && !("lane:" <= "agent:ops") && !("agent:" <= READY) && !("agent:" <= "lane:ops")
  {
    assert READY[0] == 's' && "lane:review"[0] == 'l' && "lane:ops"[0] == 'l' && "agent:ops"[0] == 'a';
    assert "status:"[0] == 's' && "lane:"[0] == 'l' && "agent:"[0] == 'a';
  }

  lemma ReadAsLabelled()
    ensures D.StatusOf(Seen(TWO_READY, 1)) == Some(D.READY) && D.StatusOf(Seen(TWO_READY, 2)) == Some(D.READY)
    ensures D.LaneOf(Seen(TWO_READY, 1)) == Some("review") && D.LaneOf(Seen(TWO_READY, 2)) == Some("ops")
    ensures D.AgentOf(Seen(TWO_READY, 2)) == Some("agent:ops")
  {
    hide Footer, D.Suffixes;
    LabelTexts();
    ThreeSuffixes(REVIEW.labels, "status:", ["ready"], [], []);
    ThreeSuffixes(REVIEW.labels, "lane:", [], ["review"], []);
    ThreeSuffixes(OPERATIONS.labels, "status:", ["ready"], [], []);
    ThreeSuffixes(OPERATIONS.labels, "lane:", [], ["ops"], []);
    ThreeSuffixes(OPERATIONS.labels, "agent:", [], [], ["ops"]);
    assert "agent:" + "ops" == "agent:ops";
  }

  lemma OperationsFirst()
    ensures D.LaneRank(Seen(TWO_READY, 2)) == 0 && D.LaneRank(Seen(TWO_READY, 1)) > 0
    ensures D.HasLane(Seen(TWO_READY, 2)) && D.HasTemplate(Seen(TWO_READY, 2)) && !D.NeedsDependencies(Seen(TWO_READY, 2))
  {
    hide Footer, D.LaneOf;
    ReadAsLabelled();
    assert "ops"[0] == 'o' && "review"[0] == 'r' && "parity"[0] == 'p';
    assert D.LANES[0] == "ops" && D.LANES[..4][0] == "ops";
  }

  lemma {:induction false} OneTask(all: seq<D.Issue>, id: string)
    requires |all| == 2 && D.TaskIdOf(all[0]).None?
    ensures |D.Matches(all, id)| < 2
  {
    hide D.TaskIdOf;
    var before := all[..1];
    assert before[0] == all[0] && before[..0] == [];
    assert D.Matches([], id) == [];
    assert D.Matches(before, id) == D.Matches([], id) + [];
  }

  lemma NoTaskInReview()
    ensures D.TaskIdOf(Seen(TWO_READY, 1)).None?
  {
    hide DispatchIdAt;
    assert DispatchIdAt([]).None? by { NothingAtEnd(); }
    hide Footer;
  }

  lemma NothingAtEnd()
    ensures DispatchIdAt([]).None? && AfterLine([]).None?
  {
  }

  lemma OperationsDispatchable(index: D.Index)
    ensures D.Dispatchable(Seen(TWO_READY, 2), index)
  {
    OperationsBody();
    hide Footer, DispatchId, DispatchDeps, D.StatusOf, D.LaneRank, D.HasLane, D.HasTemplate, D.NeedsDependencies, D.AgentOf;
    ReadAsLabelled();
    OperationsFirst();
  }

  lemma OperationsSelected()
    ensures D.Selected(BothListed(), Seen(TWO_READY, 2))
  {
    hide Footer, D.StatusOf, D.LaneRank, D.Dispatchable, D.Matches, D.TaskIdOf;
    ReadAsLabelled();
    OperationsFirst();
    NoTaskInReview();
    var q := BothListed();
    OperationsDispatchable(D.IndexIn(q.all));
    assert q.all[0] == Seen(TWO_READY, 1) && q.all[1] == Seen(TWO_READY, 2);
    forall id ensures |D.Matches(q.all, id)| < 2 { OneTask(q.all, id); }
  }
}
