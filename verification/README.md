# Verified model of the task queue and of the factor pipeline

Two halves of the repository are modelled in Dafny, one module to a component, and their promises are
proved for all inputs, all runs and all reachable states.

The first half is the label protocol by which local agents share a queue of GitHub issues. `Text`
holds the Python string operations the scripts lean on, as concrete functions. `TaskStatus` is the
rewriting of the `Status:` line, `Tracker` the board of issues and `replace_task_status`, `Footers` and
`Dependencies` the readers of titles, footers and dependency fields. `Watcher` gives a watcher run twice:
as a machine, and as the source's own loops over a client object, proved to be that machine run alone. A
step of the machine is one `gh` call, or the search for an issue together with the view of what it found;
since titles never change in a run, it makes no difference how long before the view the search was made. `Queue` puts any number of watchers, dispatchers and supervisors with
their runner children side by side on one board and one lock file. A run is a list of events, each the
next call of one process, and every call may fail before or after taking effect, or the process may be
killed. `InProgress`, `MergedDependencies` and `Unblocking` prove what all those runs, or one undisturbed
run, keep; `StatusKept`, `StatusTurns` and `OneAtATime` that an issue keeps a status, and one, `WakeUp` that runs without
failures leave no freed issue behind, and `Restart` that a run stopped anywhere is made good by starting it
again. `StatusLoss`, `StatusRaces`, `AttentionRace`, `ClaimRace`, `Forgotten` and `DeadOwner` are the runs that end
otherwise, and `TwoTasks` boards on which they do. `Supervision` is the lock object and the supervisor
cycle as they are written, proved to be a run of the supervisor process; `PrCreation` the retry loop around
`gh pr create`; `Dispatch` the task indexes and the selection of the next issue. `References`, `TaskLists` and
`DispatchRules` say on the texts and labels themselves what the patterns, the lists and the selection rules find.

The second half is the way of a factor from parsed rows to stored rows. `NormalizedCsv` is the three
CSV parsers from rows already split into cells, `FactorWriter` the master and detail writer,
`ParsedPersistence` their composition, `DetailKeys` the keys the parsers join, `DefraChain` the DEFRA path
through mapper, persistence input and insert builder, `DataQuality` the validator of normalized records and
`DefraQuality` the two together. `RecordColumns`, `DetailColumns` and `QualityRules` say on the cells of a file, on the
fields of a row and on the values of a record what comes out, column by column, and `DetailIds` when two details
get one id. `RunHistory`, `RunHistoryStore` and
`Redaction` are the history of a run: de-duplicated issues, ids, upserts in one transaction, and
redaction of queries and nested metadata; `HistoryRows` is what the tables show of a cycle afterwards. `Firsts` is the insertion-ordered dictionary several of these
loops fill, `Sorting` is `sorted()`, and `Fields` the field mappings and `int()`.

What the code leaves to libraries is a parameter: SHA-256 and UUID5 (with collision-freeness as a
stated hypothesis on the payloads at hand), `Decimal` and `float` parsing, and the regular expressions of
the text redactor (with `R(R(m)) == R(m)` as a stated hypothesis on the messages at hand). Of `float` nothing is
assumed: that a statement comes out of a successful DEFRA parse is shown to hold exactly when `float` takes the text
of each decimal the parser accepted, as Python's does (`DefraChain.ReadsDecimals`, met by a `float` that refuses
other texts in `DefraChain.PlainFloatReads`). The environment
is nondeterministic: in `PrCreation` a pull request may be opened and failure still reported, in
`RunHistoryStore` any statement and the commit may fail.

## Where the code and its promises part

- At most one issue in progress is true of open issues. The supervisor and the runner list open issues
  only, so a closed issue that still carries the label is not counted; `InProgress.ClosedWorkIsNotSeen`
  gives the exact condition. The reporter's claim path takes no lock: crossing a supervisor's claim it puts a
  second issue in progress exactly when the two choose differently (`ClaimRace.ClaimsCross`), which they do
  unless lanes and numbers agree (`ClaimRace.SameChoice`, `ClaimRace.ChoicesDiffer`).
- `status:merged` can be lost: the two needs-attention branches of the watcher overwrite it.
  `Unblocking.MergedDependentKept` gives the exact condition under which a run keeps it.
- docs/agent/github-actions-watcher-design.md says that old status labels are removed before the new one
  is applied. The code adds first and removes afterwards, which is what makes `Tracker.StopPartWay` true.
- One status label per issue survives every undisturbed run, but two runs at once can leave two
  (`StatusRaces.BothStatuses`, on a given board `TwoTasks.TwoStatusesHere`). A replacement from labels read
  earlier leaves its status alone on the issue exactly when no status has come since and its own has not gone
  (`StatusTurns.StaleReplacement`). Over all runs, on every board, there is one status between replacements if no
  two agents have the issue in hand at once and none is stopped between two changes to it
  (`OneAtATime.OneStatusInTurns`), and more generally as long as each list of edits is made on labels it was meant
  for (`StatusTurns.OneStatusAlways`); a list made on others ends otherwise (`StatusTurns.OutOfTurn`). The safety of
  dependencies does not depend on it.
- A watcher sends an issue in progress back to ready when a dependency is processed again. If a supervisor
  claims the issue at the wrong moment it can end with no status at all (`StatusRaces.StatusLost`,
  `TwoTasks.NoStatusHere`). It cannot if it is never claimed while a watcher is about to take in-progress off it
  (`StatusKept.StatusKept`), and behind a claim at such a moment it always can (`StatusLoss.ClaimLosesExactly`;
  `StatusLoss.LostExactly` for whatever statuses it has).
- An issue without a Depends-on field needs no claim for that: one watcher marks it merged while another sends it for
  attention, and it keeps a status in that run exactly when it was not marked for attention before
  (`AttentionRace.AttentionLoses`, `TwoTasks.NoClaimNeededHere`). `OneAtATime.OneStatusInTurns` covers such boards too.
- A watcher run that fails part-way, be it at a comment, leaves asleep exactly the issues that were still before
  it, until somebody else comes by (`Forgotten.FailureForgets`, `TwoTasks.AsleepHere`). Any run for an issue that
  lists them wakes them (`Forgotten.LaterRunWakes`), and starting the same run again makes up for all it left
  (`Restart.RestartRepairs`).
- The watcher and the dispatcher read dependency fields differently when the field's own line is empty
  (`Dependencies.ReadersDiffer`).
- A lock whose owner was killed, or could not write its pid, is never released and no supervisor gets past it any
  more (`DeadOwner.LockedForGood`, `DeadOwner.PidNotWritten`). A lock that is held can still be released exactly
  when its owner is not dead (`DeadOwner.FreedExactly`), and `DeadOwner.DiesExactly` says when that comes about.
- Detail keys are ambiguous when cells hold colons (`DetailKeys.DetailKeysClash` gives the exact condition,
  `DetailKeys.FactorsClash` two factors); the master key is not (`ParsedPersistence.MasterKeyInjective`).
- The id of a detail becomes the primary key of its table, but it is made of year, version and factor id alone, while
  details are told apart by unit and gas too: two details of one file can have one id (`DetailIds.UnitsShareId`), and
  `DetailIds.OwnIdsExactly` says on the cells when they do.
- The data-quality pass takes a `Decimal` for a value that is not numeric (`DefraQuality.ValueReported` says exactly what it refuses);
  the mapper turns it into a float first, so the DEFRA path is not affected (`DefraQuality.SuccessIsValid`).

## Model

| member | source | states |
|---|---|---|
| Queue.LockAlways | scripts/local_agent_supervisor.py:80-108 | In every run of any mix of processes the lock file exists exactly while one process is between its exclusive create and its unlink, or died in between, and there is never a second such process |
| Queue.ReleaseFindsFile | scripts/local_agent_supervisor.py:100-108 | A cycle that reaches its unlink always finds the file it removes |
| Queue.SoloIsARun | scripts/agent_task_watcher.py:410-432 | The undisturbed watcher run is one of the runs of the queue, so what is proved of all runs holds of it |
| DeadOwner.LockedForGood | scripts/local_agent_supervisor.py:80-108 | Once the owner of the lock is dead the file stays for ever, whatever happens, and every other supervisor is still before its exclusive create or has turned away |
| DeadOwner.FreedExactly | scripts/local_agent_supervisor.py:100-108 | A lock that is held can be released by some continuation if and only if its owner is not dead |
| DeadOwner.DiesExactly | scripts/local_agent_supervisor.py:86-98 | An owner dies exactly by being killed while it holds the lock or by failing to write its pid |
| DeadOwner.PidNotWritten | scripts/local_agent_supervisor.py:86-98 | On any board a supervisor whose pid cannot be written ends with the file left behind |
| InProgress.AtMostOneInProgress | scripts/local_agent_supervisor.py:432-486 | In every interleaving of supervisors on one lock path, their runner children (orphaned or not) and watchers, with calls failing before or after taking effect, at most one open issue is in progress if at most one was |
| InProgress.RunnerClaims | scripts/local_codex_task_runner.py:606-638 | The runner's own check for work in progress makes its claim safe when nobody else claims in between |
| InProgress.OnlyOneAbout | scripts/local_agent_supervisor.py:432-486 | The lock leaves no second process between the check for running work and the claim |
| InProgress.CycleClaims | scripts/local_agent_supervisor.py:432-486 | An undisturbed cycle claims the issue it picked, changes nothing else and leaves the lock free |
| InProgress.ClosedWorkIsNotSeen | scripts/local_agent_supervisor.py:242-257 | The listing shows open issues only: after a cycle one issue alone carries in-progress if and only if no closed issue carried it before |
| InProgress.UnlockedClaimRaces | scripts/agent_dispatch_handoff_reporter.py:2462-2493 | The reporter's claim takes no lock: when its late edit for one issue lands behind a supervisor cycle that claimed another, at most one open issue is in progress if and only if the two chose the same one |
| ClaimRace.ClaimsCross | scripts/agent_dispatch_handoff_reporter.py:536-576 | With both choosing as their scripts do from one board, the reporter its first valid candidate and the supervisor the least number, the crossing claims leave at most one issue in progress if and only if that candidate is the least-numbered open ready issue |
| ClaimRace.SameChoice | scripts/local_agent_supervisor.py:471-476 | They choose the same issue if and only if the least-numbered open ready issue has one status label and no candidate stands in an earlier lane |
| ClaimRace.ChoicesDiffer | scripts/agent_dispatch_handoff_reporter.py:579-585 | A board with a review task #1 and an operations task #2, both ready: each script takes the other one and both end in progress |
| MergedDependencies.DependenciesAlwaysMerged | scripts/agent_task_watcher.py:301-372 | Over every run of watchers, supervisors, runners and dispatchers: each ready or in-progress issue has every declared dependency resolved and merged on the current board, merged is never lost and no declared dependency changes, given that held at the start, every Depends-on field is there and each id resolves uniquely |
| MergedDependencies.DecideSafe | scripts/agent_task_watcher.py:341-364 | Dependencies all looked at, none missing, not merged itself: only then is ready written, and the pending edits stay right however late they are made |
| MergedDependencies.ReplaceEditsSafe | scripts/agent_task_status.py:92-125 | No edit of a status replacement removes merged, disturbs the Depends-on field or puts an issue to work whose dependencies are not merged |
| Unblocking.SoloEvaluatesAll | scripts/agent_task_watcher.py:301-372 | evaluate_downstream gives each listed id its verdict in turn: needs-attention without a Depends-on field or with an unresolved id, ready with all dependencies merged, otherwise nothing |
| Unblocking.MergedDependentKept | scripts/agent_task_watcher.py:321-349 | A dependent that is merged stays merged if and only if its Depends-on field is there and every id in it resolves to one issue |
| Unblocking.MergeUnblocks | scripts/agent_task_watcher.py:410-432 | A run for a merged pull request ends with its own issue merged, each listed issue moved to its outcome, ready when it was waiting for nothing else and needs-attention when it is malformed, and with all other labels as they were, on every board where no malformed issue of the list is merged |
| Unblocking.WellFormedOutcome | scripts/agent_task_watcher.py:341-364 | Without malformed issues exactly the listed, unmerged issues that were waiting for nothing else become ready and nothing needs attention |
| Unblocking.RunKeepsOneStatus | scripts/agent_task_watcher.py:410-432 | One status label per issue survives a whole undisturbed run, whatever the bodies say |
| Unblocking.RacingReplacements | scripts/agent_task_status.py:108-114 | Two replacements from labels read at the same moment, one with ready and one with merged, leave both on the issue if and only if it had neither |
| StatusRaces.BothStatuses | scripts/agent_task_watcher.py:410-432 | The run of two watchers that does it: one frees an issue, the other marks it merged from labels read before; it ends ready and merged if and only if it was not ready before |
| TwoTasks.TwoStatusesHere | scripts/agent_task_watcher.py:410-432 | A board of two tasks on which two watchers leave the second one ready and merged |
| StatusTurns.StaleReplacement | scripts/agent_task_status.py:92-125 | A replacement computed from labels read earlier, on either client path, leaves its status as the only one if and only if every status now there was read or is the one it sets, and that one is still there in case it is not put on |
| StatusTurns.OneStatusAlways | scripts/agent_task_status.py:92-125 | On every board, malformed issues included, in every run of any mix of agents in which each change to the labels of an issue is made on labels its list was meant for and no list is dropped half-way: the issue always has a status, and exactly one whenever nobody is in the middle of changing it |
| OneAtATime.OneStatusInTurns | scripts/agent_task_status.py:92-125 | On every board, malformed issues included, in every run in which no two agents hold the issue at once, from reading its labels to the last change, and nobody is stopped between two changes: the issue always has a status, and exactly one whenever nobody is in the middle of changing it |
| OneAtATime.CarefulInTurn | scripts/agent_task_status.py:92-125 | Under that schedule every list of edits is made on labels it was meant for |
| StatusTurns.OutOfTurn | scripts/agent_task_watcher.py:410-432 | In every reachable world a watcher with edits before it that runs on by itself leaves exactly one status on an issue if and only if its list was meant for the labels the issue has now |
| StatusTurns.MeantForExactly | scripts/agent_task_status.py:108-117 | A list was meant for the labels it finds if and only if working it off leaves exactly one status |
| StatusRaces.StatusLost | scripts/agent_task_watcher.py:341-364 | A run in which one pull request is processed twice at once and a supervisor claims the dependent in between leaves that dependent without any status |
| TwoTasks.NoStatusHere | scripts/agent_task_watcher.py:341-364 | A board of two tasks, the first merged and the second in progress, on which that happens |
| StatusLoss.LostExactly | scripts/agent_task_status.py:108-117 | In every reachable world an issue in progress, whatever other statuses it has, can lose all of them without a further claim at the wrong moment if and only if watchers are about to take off each one |
| StatusLoss.ClaimLosesExactly | scripts/local_codex_task_runner.py:606-638 | In every reachable world, behind the claim of a ready issue its status can be lost without a further claim at the wrong moment if and only if a watcher was about to take in-progress off it when it was claimed |
| StatusLoss.ThreatCarriedOut | scripts/agent_task_watcher.py:341-364 | A watcher that is about to take a status off a free issue takes off all it threatens and puts nothing on when it runs on by itself; if that was the last status none is left |
| AttentionRace.AttentionLoses | scripts/agent_task_watcher.py:319-329 | The run of two watchers, without any claim, on an issue that has no Depends-on field: one marks it merged, the other sends it for attention; it has a status afterwards if and only if the one it had before was not needs-attention |
| TwoTasks.NoClaimNeededHere | scripts/agent_task_watcher.py:319-329 | A board of two tasks, the second malformed and marked for attention, on which that run leaves it without a status |
| StatusKept.StatusKept | scripts/agent_task_status.py:92-125 | In every run of watchers, supervisors, runners and dispatchers, with calls failing and processes dying anywhere, an issue with a status keeps one, if it is never claimed while a watcher is about to take in-progress off it |
| StatusKept.NextAnchors | scripts/agent_task_status.py:108-117 | What keeps that up at each event: some status is on the issue that no agent is about to take off; ready and merged always are such |
| WakeUp.NoLostWakeUp | scripts/agent_task_watcher.py:301-372 | After any interleaving of watchers, supervisors, runners and dispatchers whose watchers have all ended, every issue whose dependencies became merged on the way is ready or merged, or was claimed on the way and is in progress, if no call of a watcher fails, no claim comes while a watcher is about to take in-progress off, and the Unblocks fields mirror the Depends-on fields |
| WakeUp.MergeCovers | scripts/agent_task_watcher.py:410-432 | The step that completes the dependencies of an issue belongs to a run that still has that issue before it |
| WakeUp.StepCovers | scripts/agent_task_watcher.py:330-364 | A run that has a free issue before it keeps it before it until it makes the issue ready, unless it saw the issue ready or merged |
| Forgotten.FailureForgets | scripts/agent_task_watcher.py:410-432 | Wherever a run that has begun stops, an issue it was to make ready is ready or was still before the run, never both when the list names it once, and one that is not ready stays so in every continuation in which no new process starts |
| Forgotten.MergedAndNoMore | scripts/agent_task_watcher.py:410-432 | A run that fails behind its first edit leaves its issue merged and every dependent unvisited |
| Forgotten.LaterRunWakes | scripts/agent_task_watcher.py:301-372 | Any later run to its end whose own issue lists an issue that is free makes it ready, be it for another pull request |
| TwoTasks.AsleepHere | scripts/agent_task_watcher.py:410-432 | A board of two tasks on which the second sleeps on behind a run that failed |
| TwoTasks.WakesHere | scripts/agent_task_watcher.py:410-432 | The same board meets all that NoLostWakeUp asks for, with one run to its end |
| Restart.RestartRepairs | scripts/agent_task_watcher.py:410-432 | However often the run for a pull request was stopped, and wherever, one more run to its end leaves exactly the labels of one run that was never stopped, on every board where no malformed issue of the list is merged |
| Restart.StepOnTheWay | scripts/agent_task_watcher.py:301-372 | Whatever part of its work a run has done, only its own issue and the issues it moves have changed, in status labels only, and merged on its own issue alone |
| Restart.StillDue | scripts/agent_task_watcher.py:330-349 | Work half done does not change what becomes of any issue |
| Watcher.FindIssue | scripts/agent_task_watcher.py:174-206 | Finds an issue exactly when one title alone starts with the bracketed id |
| Watcher.InspectDependencies | scripts/agent_task_watcher.py:330-339 | The two lists of the dependency loop, in order: ids that do not resolve and ids that are not merged |
| Watcher.EvaluateOne | scripts/agent_task_watcher.py:310-370 | One pass of the loop does to the board and reports what the step machine does for that id, and leaves the rest of the list to do |
| Watcher.EvaluateDownstream | scripts/agent_task_watcher.py:301-372 | The whole loop is the step machine run alone; updated and skipped are its notes in order (ReportFor says which, for every id of the list) |
| Watcher.ProcessMergedPr | scripts/agent_task_watcher.py:410-432 | Not merged, unresolved and processed are told apart exactly; a processed run is the step machine run alone |
| Watcher.StepShrinks | scripts/agent_task_watcher.py:410-432 | Every run makes finitely many calls |
| TaskStatus.BareStatus | scripts/agent_task_status.py:39-42 | Refuses exactly the unsupported labels; otherwise prefix and value make the label |
| TaskStatus.StatusLabelsInOrder | scripts/agent_task_status.py:35-36 | The status labels stand in the order of all labels and as often |
| TaskStatus.StatusInsertIndex | scripts/agent_task_status.py:63-89 | The loop over the leading metadata block finds the place InsertIndexPlace describes |
| TaskStatus.InsertIndexPlace | scripts/agent_task_status.py:63-89 | A new Status line goes behind the last Lane line of the leading metadata block, else behind its last Task ID line, else behind the block |
| TaskStatus.KeyMeans | scripts/agent_task_status.py:70-79 | A line is metadata exactly when it has a colon (MetadataMeans), and a Lane or Task ID line exactly when what is written before the first colon is that key, in whatever case and with blanks around it |
| TaskStatus.SyncStatusBody | scripts/agent_task_status.py:45-60 | Replaces the first Status line keeping its indent, or inserts one; the closing newline is kept |
| TaskStatus.SyncShape | scripts/agent_task_status.py:45-60 | The synced body is the body line for line, but for its first Status line, rewritten behind its indent, or a new one put in at its place; it ends with a newline as the body does |
| TaskStatus.SyncSetsStatus | scripts/agent_task_status.py:45-60 | Reading Status back gives the value written, whether the line was replaced or inserted |
| TaskStatus.SyncKeepsOtherFields | scripts/agent_task_status.py:45-60 | Every field with another name reads the same before and after |
| TaskStatus.SyncIdempotent | scripts/agent_task_status.py:45-60 | Syncing twice is syncing once, on every body |
| Tracker.GitHub.ReplaceTaskStatus | scripts/agent_task_status.py:92-125 | An unsupported status changes nothing; otherwise the tracker ends as after the listed edits and the report names old and new |
| Tracker.GitHub.ReplaceLabels | scripts/agent_task_status.py:104-114 | Both client paths make exactly the listed label edits, in order |
| Tracker.ReplaceEffect | scripts/agent_task_status.py:92-125 | With current labels, both client paths end with the non-status labels plus exactly the new status and the synced body; every other issue, the title and the state stay |
| Tracker.StopPartWay | scripts/agent_task_status.py:108-117 | Stopping after any number of edits: nothing has happened yet, or the new status is on the issue |
| Tracker.ReplaceTwice | scripts/agent_task_status.py:92-125 | A second replacement with the same status, read afresh, removes and rewrites nothing |
| Tracker.GitHub.Swap | scripts/agent_dispatch_handoff_reporter.py:2422-2445 | One edit with every removal and the addition: the other labels and the new status remain |
| Supervision.FileLock.Enter | scripts/local_agent_supervisor.py:86-98 | Acquires exactly when the file was not there; the file is there afterwards; a failed write of the pid raises with the file left behind |
| Supervision.FileLock.Exit | scripts/local_agent_supervisor.py:100-108 | Removes the file exactly if this object acquired it |
| Supervision.SelectPrForFix | scripts/local_agent_supervisor.py:298-310 | The least-numbered open, unmerged pull request with the label or the token in a comment, or none |
| Supervision.FixMeans | scripts/local_agent_supervisor.py:298-301 | A fix is asked for exactly by the label or by a comment that holds the words in whatever case |
| Supervision.Cycle.Dispatch | scripts/local_agent_supervisor.py:443-486 | Whatever fails, nothing changes but perhaps the claim of the least open ready issue, and that only with nothing to fix, nothing in progress and no dry run; without failures the decision is the expected one |
| Supervision.Cycle.Execute | scripts/local_agent_supervisor.py:432-486 | A held lock means no change at all; otherwise the file is gone again unless the pid write failed; and every execution is a run of the supervisor process of the queue |
| Supervision.RunRunner | scripts/local_codex_task_runner.py:606-638 | The runner claims the given issue only if it is open and ready and nothing is in progress, and is a run of the runner process |
| PrCreation.CreatePrWithRetry | scripts/local_codex_task_runner.py:547-584 | At most three attempts, sleeps a prefix of 0.1 and 0.2; only the url of an open pull request is returned; none is opened beside another when none was open; PrCreationError only after three retryable failures with nothing open and with the first error text; every other failure is raised at once; the last raise is never reached |
| PrCreation.ExistingPrUrl | scripts/local_codex_task_runner.py:506-535 | Returns the url of an open pull request, or nothing only if none is open |
| PrCreation.RoundsCounted | scripts/local_codex_task_runner.py:556-582 | n failed rounds are n attempts with n - 1 sleeps between them |
| PrCreation.RetryableMeans | scripts/local_codex_task_runner.py:32-37 | An error in plain letters is retried exactly when one of seventeen words stands in it, in whatever case and not as a part of another word |
| Footers.ExtractedIsCanonical | scripts/local_codex_task_runner.py:252-269 | The task id taken from any issue is upper-case letters, a dash and digits |
| Footers.PrBodyText | scripts/local_codex_task_runner.py:469-482 | The body the runner prints, line by line |
| Footers.PrBodyRoundTrip | scripts/local_codex_task_runner.py:469-481 | For every issue and one-line validation mode the printed body gives back the same id and number to both readers and ends with the footer, so EvaluatePrFooter reports a match without errors |
| Footers.EvaluatePrFooter | scripts/agent_dispatch_handoff_reporter.py:1427-1459 | No errors exactly when both footers match and stand at the end; each error exactly in its case |
| Footers.ReadsFooter | scripts/agent_task_watcher.py:221-235 | All four footer readers recover id and number from the printed footer |
| References.BracketMeans | scripts/local_codex_task_runner.py:27-28 | The pattern in brackets finds the leftmost place where letters, a dash and digits stand between brackets, and nothing exactly when there is none |
| References.WordMeans | scripts/local_codex_task_runner.py:27-28 | The other pattern finds the leftmost place where they stand between word boundaries, and nothing exactly when there is none |
| References.ExtractMeans | scripts/local_codex_task_runner.py:252-262 | The id of an issue is the leftmost bracketed reference of its title, else the leftmost reference of its body, else that of its title, else ISSUE and its number |
| References.DashOrBlank | scripts/agent_dispatch_handoff_reporter.py:33 | The dispatcher reads a footer with a blank in place of the label's dash just as well |
| References.LastFooterWins | scripts/agent_task_watcher.py:221-239 | Of several footers the watcher reads the last, for ids and for issue numbers, in every text |
| References.BracketedTitle | scripts/agent_task_watcher.py:221-228 | Every one-line title that begins with an id in brackets names this id |
| References.ResolveMeans | scripts/agent_task_watcher.py:272-298 | A pull request is for the issue its footer numbers, under the first id named by its body, the body and the title of that issue, or its own title; without such a footer, for the one issue titled with the first id named by its body or its title; and for no other |
| References.RunnersPrResolves | scripts/agent_task_watcher.py:272-298 | A pull request written by the runner resolves to the issue it was written for, under the id the runner derived, for every issue and whatever else the board says |
| References.TitledPrResolves | scripts/agent_task_watcher.py:281-293 | One without footers whose title begins with an id in brackets resolves to the one issue so titled |
| Dependencies.ParseTaskList | scripts/agent_task_watcher.py:247-256 | The loop computes TaskList, whose meaning TaskListMeans gives for every text of the field |
| TaskLists.TaskListMeans | scripts/agent_task_watcher.py:247-256 | The ids of a field stand in the order of its comma parts: one, in capitals, for each part that is not blank, a dash, or "none" or "n/a" in whatever case, and no other; an id is listed if and only if such a part spells it |
| TaskLists.PlaceholderNamesNone | scripts/agent_task_watcher.py:251-254 | A field that holds "none", "n/a", a dash or nothing, with blanks around it, lists no id |
| TaskLists.UsualPlaceholders | scripts/agent_task_watcher.py:251-254 | So do "none", "None", "N/A", "-" and the empty field |
| TaskLists.ReportFor | scripts/agent_task_watcher.py:301-372 | What a run does and reports for one listed id, in each of the six cases: no issue of one, no Depends-on field, dependencies that are no issue of one (those are named), dependencies not merged (those are named), merged itself, and made ready |
| TaskLists.FreeDependentReady | scripts/agent_task_watcher.py:341-364 | A listed issue that is not merged and whose Depends-on field names nobody becomes ready, nothing is skipped and no other issue changes |
| TaskLists.LeafRun | scripts/agent_task_watcher.py:301-318 | The run of an issue whose Unblocks field names nobody, or is missing, marks it merged, changes no other issue and reports nothing |
| Dependencies.ExtractField | scripts/agent_task_watcher.py:238-244 | The value of the first line that starts with the field name |
| Dependencies.ReadersAgree | scripts/agent_dispatch_handoff_reporter.py:470-483 | From any body with the field once, unindented, as a non-empty list of canonical ids, the watcher and the dispatcher read the printed ids in order |
| Dependencies.ReadersDiffer | scripts/agent_dispatch_handoff_reporter.py:470-483 | On every body whose Depends-on line holds only blanks the watcher reads nothing and the dispatcher the references of the next line that is not blank; the two agree if and only if there are none |
| Dependencies.ReadersDifferHere | scripts/agent_dispatch_handoff_reporter.py:470-476 | The shortest such body on which they disagree |
| Dispatch.BuildTaskIndex | scripts/agent_dispatch_handoff_reporter.py:588-599 | The first issue of each task id; duplicates are exactly the ids with two occurrences or more |
| Dispatch.BuildTaskOccurrences | scripts/agent_dispatch_handoff_reporter.py:2024-2034 | Each task id with all its issues by number |
| Dispatch.IndexesAgree | scripts/agent_dispatch_handoff_reporter.py:2037-2098 | Without duplicates, a blocked issue with dependencies is ready but still blocked exactly when selection would raise no dependency blocker |
| Dispatch.AmbiguousIsNotReady | scripts/agent_dispatch_handoff_reporter.py:2091-2098 | A dependency with two occurrences makes the category ambiguous whatever the rest |
| Dispatch.ValidateSelected | scripts/agent_dispatch_handoff_reporter.py:602-638 | Each blocker exactly when its cause is there; none exactly for an issue with task id, supported lane, agent, template, and all dependencies found and merged |
| Dispatch.SelectHandoff | scripts/agent_dispatch_handoff_reporter.py:518-576 | What is selected is the least ready candidate by lane rank and number, dispatchable, with no open task pull request, nothing in progress and no duplicate id; otherwise the blockers are exactly these causes, or those of a least candidate |
| Dispatch.CandidatesOrdered | scripts/agent_dispatch_handoff_reporter.py:536-541 | The candidates are exactly the ready issues, in order of lane rank and number |
| DispatchRules.LabelsMean | scripts/agent_dispatch_handoff_reporter.py:486-504 | A status, a lane or an agent is what stands behind the prefix in the one label that has it |
| DispatchRules.RanksMean | scripts/agent_dispatch_handoff_reporter.py:579-585 | Lanes come in the order operations, python, dotnet, parity, review, anything else |
| DispatchRules.DispatchableMeans | scripts/agent_dispatch_handoff_reporter.py:602-655 | An issue can be handed off exactly when it names its task, has one agent and one of the five lanes, a review being one of parity, lists dependencies if its lane is parity or review, and each is found with merged as its one status |
| DispatchRules.CategoryMeans | scripts/agent_dispatch_handoff_reporter.py:2091-2098 | What is said of a blocked issue, case by case: nothing listed; else one dependency ambiguous; else one without an issue; else one not merged; else nothing in its way |
| NormalizedCsv.CheckRow | src/carbonfactor_parser/parsers/ghg_protocol_content_parser.py:258-303 | The row issues in the order of the required fields, then year, then value |
| NormalizedCsv.RowOk | src/carbonfactor_parser/parsers/ipcc_efdb_content_parser.py:275-324 | A row has no issue exactly when its required cells are filled, the year is a positive integer and the value a decimal the parser takes |
| NormalizedCsv.ParseNormalized | src/carbonfactor_parser/parsers/ghg_protocol_content_parser.py:125-248 | The GHG and IPCC loops compute Parsed: which rows are accepted and what their records hold is said on the cells in GhgAccepts, IpccAccepts, GhgRecord and IpccRecord |
| NormalizedCsv.ParseDefraNormalized | src/carbonfactor_parser/parsers/defra_desnz_content_parser.py:222-327 | The DEFRA loop does (DefraAccepts, DefraRecord), giving up at the first row with a cell too many |
| NormalizedCsv.KindsPartition | src/carbonfactor_parser/parsers/ipcc_efdb_content_parser.py:150-265 | The counters of the loop count the rows of each kind: accepted, skipped, malformed, faulty and blank rows together are all rows; DEFRA skips none |
| NormalizedCsv.ScanRecords | src/carbonfactor_parser/parsers/ipcc_efdb_content_parser.py:155-208 | Record k is the record (GhgRecord, IpccRecord, DefraRecord) of the k-th accepted row, with index k, its row number and the number of rows skipped before it |
| NormalizedCsv.RecordsNumbered | src/carbonfactor_parser/parsers/defra_desnz_content_parser.py:258-274 | Indices run from 1 and row numbers strictly increase |
| Fields.SignedInt | src/carbonfactor_parser/parsers/ghg_protocol_content_parser.py:276-279 | int() reads a sign in front of digits |
| Fields.SeparatedInt | src/carbonfactor_parser/parsers/ghg_protocol_content_parser.py:276-279 | int() passes over single underscores between digits and takes no text with an underscore elsewhere |
| RecordColumns.GhgAccepts | src/carbonfactor_parser/parsers/ghg_protocol_content_parser.py:258-303 | A GHG row is accepted exactly when it has at most twelve cells, the first says emission_factor, the next seven are filled, the year is an integer above 0 and the value a decimal |
| RecordColumns.IpccAccepts | src/carbonfactor_parser/parsers/ipcc_efdb_content_parser.py:275-333 | An IPCC row exactly when it has at most fourteen, is an emission factor, has its required cells, a year in digits above 0 and a value that, commas dropped, is a finite decimal without an exponent |
| RecordColumns.DefraAccepts | src/carbonfactor_parser/parsers/defra_desnz_content_parser.py:330-394 | A DEFRA row exactly when it has at most eleven, its required cells, and such a year and value |
| RecordColumns.GhgRecord | src/carbonfactor_parser/parsers/ghg_protocol_content_parser.py:306-340 | What the record of an accepted GHG row holds, field by field, in terms of its cells: year as integer, value as decimal, ids and keys joined from the cells, blank optional cells as nothing |
| RecordColumns.IpccRecord | src/carbonfactor_parser/parsers/ipcc_efdb_content_parser.py:336-375 | The same for IPCC, whose value drops its commas and whose key holds gas and sector |
| RecordColumns.DefraRecord | src/carbonfactor_parser/parsers/defra_desnz_content_parser.py:397-435 | The same for DEFRA, whose key holds the gas and whose checksum is not in the source context |
| RecordColumns.FieldNames | src/carbonfactor_parser/parsers/ipcc_efdb_content_parser.py:349-375 | A record has these fields and no others |
| RecordColumns.IdsCompare | src/carbonfactor_parser/parsers/defra_desnz_content_parser.py:408-409 | Of two records of a family a detail id is never a master id, and each of the two ids is shared exactly when year, version and factor id, joined by underscores, are the same |
| NormalizedCsv.ParsedMeans | src/carbonfactor_parser/parsers/ipcc_efdb_content_parser.py:210-265 | SUCCESS exactly when no row is in error and one is accepted, FAILED exactly when one is in error; a success carries one record for each accepted row and counts them |
| NormalizedCsv.FailedMeans | src/carbonfactor_parser/parsers/ipcc_efdb_content_parser.py:210-232 | What a failed parse hands on: GHG nothing, IPCC and DEFRA the records accepted all the same, except that DEFRA gives up at the first row with a cell too many and names it |
| NormalizedCsv.ResultMeans | src/carbonfactor_parser/parsers/ipcc_efdb_content_parser.py:211-265 | A parse that goes through all rows reports exactly the issues of its rows, and that nothing was found exactly when no row is in error and none accepted; rows of another type are counted in every outcome |
| NormalizedCsv.IssuesMean | src/carbonfactor_parser/parsers/ghg_protocol_content_parser.py:148-207 | The issues are sound and complete: each names a field of a row in error and what is wrong with it, and nothing wrong with any row goes unreported |
| ParsedPersistence.FieldsKeepCells | src/carbonfactor_parser/parsers/ghg_protocol_content_parser.py:306-340 | Every text column can be read back from the fields of the record |
| ParsedPersistence.ValidatePayload | src/carbonfactor_parser/parsers/raw_record.py:137-168 | Each issue exactly when its cause is there; none exactly for a payload and records with family, source id, positive index and fields |
| ParsedPersistence.SuccessIsWellShaped | src/carbonfactor_parser/parsers/raw_record.py:137-168 | A successful payload of any family passes that gate |
| FactorWriter.BuildCommand | src/carbonfactor_parser/persistence/parsed_factor_persistence_writer.py:127-214 | The loop over the two dictionaries, issues and counter computes WriteAll, whose rows MappedMeans describes and whose contents RowsConserved and FileDetails |
| FactorWriter.RowsConserved | src/carbonfactor_parser/persistence/parsed_factor_persistence_writer.py:151-207 | Masters and details are the first occurrences of their keys; mapped rows are details, skipped duplicates and detail conflicts together |
| FactorWriter.CommandKeys | src/carbonfactor_parser/persistence/parsed_factor_persistence_writer.py:168-207 | Keys are unique, every look-up answers with the first row of its key, and the master of every detail is in the master list |
| FactorWriter.InputOrder | src/carbonfactor_parser/persistence/parsed_factor_persistence_writer.py:209-214 | Later rows only add behind: both lists stand in input order |
| FactorWriter.AllDetailsKept | src/carbonfactor_parser/persistence/parsed_factor_persistence_writer.py:187-207 | Nothing is skipped and nothing conflicts exactly when no two mapped rows share a detail key |
| FactorWriter.IssuesMean | src/carbonfactor_parser/persistence/parsed_factor_persistence_writer.py:151-207 | The issues of the writer are sound and complete: each belongs to a row that does not map, to a master that differs from the first of its key, or to a repeated detail key, and no such row goes unreported |
| FactorWriter.MapRowComplete | src/carbonfactor_parser/persistence/parsed_factor_persistence_writer.py:418-548 | A row maps to its master and detail (MappedMeans gives their columns) if and only if its family is known and it has a document, a value, a unit and a year |
| DetailColumns.MappedMeans | src/carbonfactor_parser/persistence/parsed_factor_persistence_writer.py:454-548 | Master and detail of a row that maps, column by column in terms of its fields: value, unit, factor id and name as text, ids given or made of sixteen digits of a digest, keys, year, version, document, status, checksums and optional columns |
| DetailColumns.RefusedMeans | src/carbonfactor_parser/persistence/parsed_factor_persistence_writer.py:426-497 | The issues of a row: its family is unknown; else exactly those of document, value and unit that it lacks; else its year is no integer |
| DetailColumns.LookupMeans | src/carbonfactor_parser/persistence/parsed_factor_persistence_writer.py:655-659 | A field is that of the first name that is there, whatever it holds |
| FactorWriter.MapRowIssues | src/carbonfactor_parser/persistence/parsed_factor_persistence_writer.py:418-548 | A row maps exactly when it has no issue, and detail and master then share family and master id |
| FactorWriter.YearInMeans | src/carbonfactor_parser/persistence/parsed_factor_persistence_writer.py:636-641 | The leftmost four digits from 1900 to 2999, and nothing if and only if there are none |
| ParsedPersistence.AcceptedMaps | src/carbonfactor_parser/persistence/parsed_factor_persistence_writer.py:418-548 | Every accepted row of every family maps; its master depends on the payload, the year and the version alone; FileDetails gives the columns of both on the cells |
| ParsedPersistence.MasterKeyInjective | src/carbonfactor_parser/persistence/parsed_factor_persistence_writer.py:584-613 | Within a payload the key year:version:artifact:checksum determines year and version, whatever the version looks like |
| ParsedPersistence.CleanLoop | src/carbonfactor_parser/persistence/parsed_factor_persistence_writer.py:156-207 | Rows that map, agree on masters and differ as details give one conflict for each repeated detail key and skip nothing |
| ParsedPersistence.ParsedPersists | src/carbonfactor_parser/persistence/parsed_factor_persistence_writer.py:127-214 | A successful parse of any family gives no missing field, unsupported family or master conflict: the issues are exactly one conflict for each record whose year, version and detail key an earlier record has, nothing is skipped, the rest become details, if the shortened digests of its master keys do not collide |
| DetailColumns.FileDetails | src/carbonfactor_parser/persistence/parsed_factor_persistence_writer.py:127-214 | From cells to stored rows: after a successful parse the details are those of the first accepted row of each year, version and key, in the order of the file; each has the id, name and unit of its row, the text of its decimal, its row number, the id joined from its cells, and stands under a master of the command with the year, version, artifact and checksum of the payload; if no digests of master keys collide |
| DetailIds.OwnIdsExactly | src/carbonfactor_parser/persistence/parsed_factor_persistence_writer.py:470-475 | The details kept have ids of their own exactly when no two first rows of a factor have one year, version and factor id, joined by underscores |
| DetailIds.UnitsShareId | src/carbonfactor_parser/parsers/ghg_protocol_content_parser.py:312 | One factor by the kilogram and by the tonne: both details are kept without an issue, under one id, whatever the digest |
| DetailKeys.DetailKeysClash | src/carbonfactor_parser/parsers/ghg_protocol_content_parser.py:339-339 | For all three families two rows share a detail key if and only if their key cells are equal, or the first cells that differ run over: one is the other, a colon and a rest that with the cells behind it gives the cells behind the other |
| DetailKeys.DetailKeysApart | src/carbonfactor_parser/parsers/defra_desnz_content_parser.py:434-434 | Without colons before the last key cell the key gives all key cells back |
| DetailKeys.ConflictsReported | src/carbonfactor_parser/persistence/parsed_factor_persistence_writer.py:187-207 | After a successful parse the writer reports exactly the records for which an earlier one has the same year, version and key cells, or key cells that clash |
| DetailKeys.FactorsClash | src/carbonfactor_parser/persistence/parsed_factor_persistence_writer.py:187-207 | Two accepted GHG factors, fuel:oil by kg and fuel by oil:kg, of which the second is reported as a conflict whatever the digest |
| RunHistory.Deduplicate | src/carbonfactor_parser/diagnostics/ingestion_runtime_events.py:71-97 | The first issue of each (family, stage, code, redacted message), family failures first |
| HistoryRows.DeduplicatedMeans | src/carbonfactor_parser/diagnostics/ingestion_runtime_events.py:71-96 | What is left, in order, are the issues of which no earlier one has the family, stage, code and redacted message |
| HistoryRows.FailuresInOrder | src/carbonfactor_parser/diagnostics/ingestion_runtime_events.py:71-96 | The failures of the families stand one family behind the other |
| RunHistory.TargetYears | src/carbonfactor_parser/persistence/ingestion_run_history_mapping.py:155-163 | Each family with the target year of its last result |
| RunHistory.Validate | src/carbonfactor_parser/persistence/ingestion_run_history.py:157-220 | No problem exactly for a valid command, and otherwise exactly the faults of the run, of each result and of each issue |
| HistoryRows.FamiliesKnown | src/carbonfactor_parser/persistence/ingestion_run_history.py:297-312 | The families a result may have are those the parsers write; an issue may also be of the runner |
| HistoryRows.CommandShows | src/carbonfactor_parser/persistence/ingestion_run_history_mapping.py:46-58 | The command holds the run; for family result i a record with its family, years, status, statuses, counts and number of failures; and for de-duplicated issue i one with its family, stage, code, severity, field and redacted message and the target year of the last result of its family |
| RunHistory.PayloadKey | src/carbonfactor_parser/persistence/postgresql_ingestion_run_history_repository.py:260-277 | The payload hashed for an issue after mapping and sanitising gives its de-duplication key back; CommandShows says what the record holds |
| RunHistory.IdsDiffer | src/carbonfactor_parser/persistence/ingestion_run_history_mapping.py:51-58 | De-duplicated issues (CommandShows gives their records) have pairwise different ids, if the redactor settles their messages and the hash does not collide on them |
| RunHistory.SanitizedKeeps | src/carbonfactor_parser/persistence/ingestion_run_history.py:223-284 | Sanitising redacts metadata and the messages of issues and changes nothing else |
| RunHistory.SanitizedOnce | src/carbonfactor_parser/persistence/ingestion_run_history.py:223-284 | A sanitised command shows no sensitive value in its metadata; sanitising it again changes nothing and its rows have the ids they had, where the redactor settles the texts |
| RunHistoryStore.Persist | src/carbonfactor_parser/persistence/postgresql_ingestion_run_history_repository.py:37-88 | All statements take effect together or none does: an invalid command, a failure at any statement and a failed commit leave the committed tables unchanged and report no rows |
| RunHistoryStore.PersistTwice | src/carbonfactor_parser/persistence/postgresql_ingestion_run_history_repository.py:115-194 | Running the same statements again, whenever, changes nothing but the update times |
| RunHistoryStore.RunAfter | src/carbonfactor_parser/persistence/postgresql_ingestion_run_history_repository.py:115-129 | A run row holds the last record put and keeps its creation time; other rows stay |
| RunHistoryStore.ResultAfter | src/carbonfactor_parser/persistence/postgresql_ingestion_run_history_repository.py:160-174 | A source-result row holds the last record put and keeps id and creation time; other rows stay |
| RunHistoryStore.IssueAfter | src/carbonfactor_parser/persistence/postgresql_ingestion_run_history_repository.py:178-194 | An issue row is added once and never changed |
| RunHistoryStore.SourceResultIds | src/carbonfactor_parser/persistence/postgresql_ingestion_run_history_repository.py:254-257 | Every source-result row's id stays the hash of its (run, family, year) key |
| RunHistoryStore.ReportedCountExact | src/carbonfactor_parser/persistence/postgresql_ingestion_run_history_repository.py:82-88 | On tables with no issue row of this run the reported issue count is exactly the number of rows inserted, under the hypotheses of IdsDiffer |
| HistoryRows.IssuesHaveRows | src/carbonfactor_parser/persistence/postgresql_ingestion_run_history_repository.py:61-67 | After a successful transaction, under the hypotheses of ReportedCountExact, each de-duplicated issue has a row with its columns under the hash of its run, family, year, stage, code and redacted message; old rows stay and no other is new |
| HistoryRows.ResultsHaveRows | src/carbonfactor_parser/persistence/postgresql_ingestion_run_history_repository.py:54-60 | The last result of each family and target year has its row with its columns under a stable id, and the run has its own, keeping its creation time |
| RunHistoryStore.StoredMetadata | src/carbonfactor_parser/persistence/ingestion_run_history.py:287-290 | The stored metadata of the run, of every result and of every issue holds no sensitive value, and is what the sanitised command shows where the redactor settles it |
| RunHistoryStore.IssueIdsStay | src/carbonfactor_parser/persistence/postgresql_ingestion_run_history_repository.py:260-277 | Every issue row stays under the hash of its own payload, whatever commands are persisted |
| Redaction.RedactQueryText | src/carbonfactor_parser/diagnostics/redaction.py:80-88 | The loop over the parts of a query computes RedactQuery |
| Redaction.QueryRedacted | src/carbonfactor_parser/diagnostics/redaction.py:80-88 | The redacted query has the same number of parts with the same keys; every sensitive value is masked and everything else unchanged |
| Redaction.QueryRedactedOnce | src/carbonfactor_parser/diagnostics/redaction.py:80-88 | Redacting a query twice is redacting it once |
| Redaction.RedactOnce | src/carbonfactor_parser/persistence/ingestion_run_history.py:372-390 | Redacting arbitrarily nested metadata twice is redacting it once, if the text redactor settles the texts in it and leaves its rendered numbers and dates alone |
| Redaction.RedactOnceExactly | src/carbonfactor_parser/persistence/ingestion_run_history.py:372-390 | For mappings with distinct keys that condition is exact |
| Redaction.RedactMasks | src/carbonfactor_parser/persistence/ingestion_run_history.py:372-390 | No sensitive key at any depth holds anything but the mask, for every value and text redactor |
| Redaction.KeysKept | src/carbonfactor_parser/persistence/ingestion_run_history.py:378-385 | No key of a mapping is lost and none is added |
| Redaction.SensitiveMeans | src/carbonfactor_parser/diagnostics/redaction.py:98-103 | A key is sensitive exactly when it is one of thirteen words, in whatever case, blanks around it and dashes and underscores anywhere not counted |
| Redaction.RedactSafe | src/carbonfactor_parser/persistence/ingestion_run_history.py:372-391 | A redacted value holds nothing JSON does not know, at any depth: decimals and dates are rendered as their text |
| DataQuality.Validate | src/carbonfactor_parser/normalization/data_quality_validation.py:205-292 | The pass with its dictionary of first positions collects and sorts what the lemmas below describe |
| DataQuality.ResultMeans | src/carbonfactor_parser/normalization/data_quality_validation.py:205-292 | The result is strictly sorted by position, code and field and holds exactly what is wrong with each record |
| DataQuality.OwnMeans | src/carbonfactor_parser/normalization/data_quality_validation.py:295-410 | A record is reported exactly for its missing fields, non-numeric value, unsupported unit and lack of provenance |
| DataQuality.DuplicatesReported | src/carbonfactor_parser/normalization/data_quality_validation.py:256-279 | A duplicate is reported at a position exactly when an earlier record has the same complete identity, and names the least such position |
| DataQuality.DuplicatesCounted | src/carbonfactor_parser/normalization/data_quality_validation.py:256-279 | Duplicates reported number the identified records less the distinct identities |
| QualityRules.ReportedExactly | src/carbonfactor_parser/normalization/data_quality_validation.py:205-292 | The result holds a diagnostic exactly when what it says is wrong: a required field not given, a value that is no number, a unit that, blanks around it dropped, is not supported, nothing to trace the record by, or an earlier record with its identity, the first of which it names |
| DataQuality.ValidExactly | src/carbonfactor_parser/normalization/data_quality_validation.py:150-159 | No blocking diagnostic exactly when required fields are present, values numeric and identities unique |
| QualityRules.CompleteMeans | src/carbonfactor_parser/normalization/data_quality_validation.py:295-350 | Complete means source family and id, factor id, name, unit and value given and not blank, the value an integer, a float or a text float() takes |
| QualityRules.ProvenanceMeans | src/carbonfactor_parser/normalization/data_quality_validation.py:385-397 | A record can be traced when it refers to its source or gives a provenance, a row number or a document |
| QualityRules.IdentityMeans | src/carbonfactor_parser/normalization/data_quality_validation.py:413-424 | Two records have one identity exactly when source family and id, year, version, factor id and unit are given in both and the same, texts but for blanks around them, numbers by value |
| QualityRules.OrderMeans | src/carbonfactor_parser/normalization/data_quality_validation.py:281-291 | Diagnostics are sorted by position, then by the text of the code, then by the name of the field |
| DefraChain.Gate | src/carbonfactor_parser/normalization/input.py:230-269 | No issue exactly for a non-empty input whose records have family, source id, positive index and fields |
| DefraChain.RecordIssues | src/carbonfactor_parser/normalization/defra_desnz_mapper.py:139-186 | Each issue exactly when its cause is there; none exactly for a DEFRA record with its required fields and a numeric value |
| DefraChain.MapAll | src/carbonfactor_parser/normalization/defra_desnz_mapper.py:80-120 | Maps all records in order, or none, with the issues of all, when one has an issue; RowInserted and MinimalMeans say what the mapped records hold |
| DefraChain.ExtractionMeans | src/carbonfactor_parser/normalization/defra_desnz_mapper.py:139-186 | A record with any field of the extraction is mapped exactly when it is of DEFRA, gives all eight it needs and float() takes its value |
| DefraChain.MinimalMeans | src/carbonfactor_parser/normalization/defra_desnz_mapper.py:189-209 | A record of the minimal fixture is mapped exactly when it has an id, a name and a unit; it keeps their texts with the blanks around them and is named by its number |
| DefraChain.PaddedMeans | src/carbonfactor_parser/normalization/defra_desnz_mapper.py:196 | That number has three digits or more and reads as itself |
| DefraChain.ShapeIssues | src/carbonfactor_parser/persistence/input.py:169-215 | No issue exactly when every record names its source and all name the same |
| DefraChain.BuildInput | src/carbonfactor_parser/persistence/input.py:70-158 | Failed with any error of the normalization; else ready exactly for a non-empty list of one source, with one persistence record for each, in order |
| DefraChain.BuildInsert | src/carbonfactor_parser/persistence/postgresql_insert_builder.py:60-107 | Ready exactly when every record has family, id, record id and fields; then one row of parameters for each, in column order |
| DefraChain.CellsArrive | src/carbonfactor_parser/normalization/defra_desnz_mapper.py:212-240 | Every text column of an accepted row arrives stripped in the normalized fields, a blank optional one as nothing, whatever float() does |
| DefraChain.PayloadFlows | src/carbonfactor_parser/normalization/defra_desnz_mapper.py:139-186 | Every record of a successful parse passes the gate, and all pass the mapper if and only if float() takes the factor value of every accepted row |
| DefraChain.NormalizedFlows | src/carbonfactor_parser/persistence/input.py:218-266 | What the mapper makes of it names its source, keeps index and row number and can be inserted |
| DefraChain.RowInserted | src/carbonfactor_parser/persistence/postgresql_insert_builder.py:151-176 | What is inserted for an accepted row whose value float() takes: the thirteen parameters one by one, with the record id, the fifteen normalized fields in order (value as the float of the decimal, year read and written again, blank optional cells as nothing) and the artifact |
| DefraChain.DefraToInsert | src/carbonfactor_parser/persistence/postgresql_insert_builder.py:60-107 | From rows to the insert statement, for any float(): when the parse succeeds a statement is ready if and only if float() takes the factor value of every accepted row, and so always if it takes the text of every finite decimal; then there is one row of parameters for each accepted row, in order, and each is what RowInserted says of its cells |
| DefraChain.PlainFloatReads | src/carbonfactor_parser/normalization/defra_desnz_mapper.py:170-186 | That promise about float() is met by one that refuses other texts |
| DefraQuality.SuccessIsValid | src/carbonfactor_parser/normalization/data_quality_validation.py:205-292 | On the normalized records of a successful DEFRA parse the data-quality pass finds nothing blocking if and only if no year, version, factor id and unit stand in the file twice, for any float() |
| DefraQuality.PlaceSeen | src/carbonfactor_parser/normalization/data_quality_validation.py:385-410 | The pass sees the row number, the provenance and the artifact of an accepted row, and no document |
| DefraQuality.ValueReported | src/carbonfactor_parser/normalization/data_quality_validation.py:450-462 | The sorted result calls a factor value not numeric if and only if it is a Decimal, a boolean, of any further type, or a text that is not blank and that float() refuses |

## Left out

- Text.Lower: Unicode case mapping beyond ASCII and the Kelvin sign, as far as no comparison with the needles of the code can see it; `\d`, `\w` and `isdecimal` know ASCII digits and letters only.
- Watcher.FindIssue: the search limits of `gh` (200 issues, 100 pull requests) and the case where a search misses an issue.
- Queue.LockAlways: removal of a stale lock file by hand, reopening of issues, edits of titles, bodies or labels by people, and creation of issues during a run; issues may be closed at any time.
- InProgress.AtMostOneInProgress: processes on the reporter's claim path, which takes no lock; UnlockedClaimRaces shows why.
- ClaimRace.ClaimsCross: races of more than two agents, and snapshots of the reporter taken while the board changes.
- StatusKept.StatusKept: boards where a Depends-on field is missing or an id does not resolve to one issue; OneStatusInTurns and OneStatusAlways cover these, on their own conditions, and AttentionLoses is a run there.
- StatusLoss.ClaimLosesExactly: issues that carry another status beside ready when they are claimed; LostExactly says what holds of them afterwards.
- MergedDependencies.DependenciesAlwaysMerged: boards where a Depends-on field is missing or an id does not resolve to one issue; MergedDependentKept shows what happens there.
- Unblocking.MergeUnblocks: boards on which a merged issue of the list is malformed, where the order of the list matters; SoloEvaluatesAll states the verdicts there.
- WakeUp.NoLostWakeUp: runs in which a call of a watcher fails, which FailureForgets describes, and boards whose Unblocks fields do not mirror their Depends-on fields.
- Restart.RestartRepairs: the text of bodies and comments, other agents at work between stop and restart, boards on which a merged issue of the list is malformed, and pull requests whose task id stands in the body of the issue alone, where rewriting the Status line may remove it.
- Supervision.RunRunner: selection by task id or by the first ready issue, the override flag, dry runs of the runner, and everything after the claim, which touches no issue; the runner for pull request fixes likewise.
- Supervision.Cycle.Execute: configuration loading, the fast-forward of the base branch (its failures are ignored) and log files.
- Footers.ExtractedIsCanonical: the branch of `sanitize_task_id` for texts with one part, which no caller on this path reaches.
- Dependencies.ReadersAgree: bodies with the field more than once, indented, or with ids of other shapes; the two readers have different rules there.
- References.ResolveMeans: the watcher's own patterns for footers and titles appear as they are written; the round trips and BracketedTitle say what they find in the usual texts.
- PrCreation.RetryableMeans: errors with letters beyond ASCII, where the pattern folds some of them and word boundaries are those of ASCII words.
- Dispatch.SelectHandoff: recognising task pull requests (their number is given) and rendering the package; the run-once outcome, reports and check summaries are not modelled.
- NormalizedCsv.ParsedMeans: the `csv` module and the checks of content, family and header before the loop; the DEFRA minimal fixture format.
- DetailColumns.FileDetails: files whose master keys' shortened digests collide, which ParsedPersists excludes too.
- FactorWriter.BuildCommand: the repository's own validation after the loop, JSON encoding of digests, timestamps, and input that is a normalized output batch.
- DataQuality.Validate: numbers that are NaN or infinite, unhashable identities, the redaction of provenance contexts, and messages.
- RunHistory.Validate: whether metadata can be serialised as JSON, which the `Json` type guarantees; the order and wording of problems.
- HistoryRows.CommandShows: the record of the run itself, with its summary figures, is given.
- RunHistoryStore.Persist: a commit that takes effect and still reports failure, check constraints and the unique index on ids, all of which are covered only as statements that may fail.
- Redaction.RedactOnce: the url and assignment patterns of the text redactor, which appear as its hypothesis; the sorted visit of keys, which orders the new dictionary only.
- DefraChain.DefraToInsert: parser and normalization metadata (none is supplied on this path) and rendering of the SQL text; floats are reals, so rounding and overflow are not seen.
- Prompts, reports, comments, argument parsing, `git`, Codex and the file system beyond the lock file are not modelled.
- The contract validators, adapter registries and release gates are not modelled: they would add only easy members.
