# Verified model of the factory's guard, measures, audit trail and configuration protocols

This project models, in Dafny, the parts of the agents platform whose correctness rests on more than one
function at a time, and proves what they promise for every input, every reply and every interleaving.

- **Measures** (`Sorting`, `Ownership`, `Stays`, `Report`, `ReadLinked`): who owned a card at each instant,
  the segments of a stay, the weekly rows that must add up, and the worklist that reads every linked item.
- **Audit trail** (`Audit`): two records paged by a cursor with one position in each.
- **Tool catalogue** (`Catalogue`): publications, sweeps, leases and the grace of older workers' rows.
- **Merger guard** (`Readiness`, `Refusals`, `Merging`, `Board`, `CloseOut`): readiness, the one irreversible
  merge request, refusals that are spent once, lane moves and the close-out of merged pull requests.
- **Locked configuration** (`Bindings`, `OAuth`): account bindings against the removal of their connection,
  and refreshed grants stored by compare-and-set.
- **Egress denials** (`Egress`): a buffer drained, flushed and refilled without losing a denial.

`Common` holds what several of them use.

Code that updates state is modelled by classes and methods with loops, each proved against a specification
function; protocols are state machines whose steps are the source's locked sections or single requests, and
the theorems range over every sequence of steps. GitHub is an adversary: a request may fail before it leaves,
be applied or not once it has left, and be answered or not. A call cut off after a write is one whose answer
is lost.

## What does not hold, and exactly when it does

- **Audit paging is not complete in general.** The cursor's outer order compares a textual mark, and the ledger
  branch compares run id and sequence. Where one run id extends another (`run-1`, `run-10`) the two orders
  differ and a page size exists that skips a row. `Audit.CompleteExactlyWhenMarksAgree` gives the condition.
- **A worker does not always put back what a sweep took.** Its renewal finds the lapse and removes the evidence in
  one write. When the hold call then fails, or the publication that should follow does, nothing repeats it.
  `Catalogue.LossIsRepairedExactly` says over runs when the tools come back, `Catalogue.UnrepairedLossGoesUnnoticed`
  that otherwise they stay away unreported while the worker renews in time, and `Catalogue.SilentLoss` is such a run.
- **A lease's expiry can go back.** A lease forgotten by a fast clock and renewed by one more than a lease slower ends
  earlier than it did. `Catalogue.ExpiryNeverGoesBack` holds for runs without such a pair of clocks, and
  `Catalogue.SlowClockMovesExpiryBack` shows that the condition is exact.
- **A refresh stored while its answer was lost cannot be confirmed.** The retry compares against a grant the row
  no longer holds, so that transport hands out no token until the row is rewritten
  (`OAuth.LostAnswerIsNotRepeated`).
- **A shared credential's transport is not reused after a refresh.** The comparison is with the grant read when
  the server was connected, and after a refresh the transport no longer derives from it. The next round trip starts
  over from the old grant, which the store refuses. `OAuth.RefreshedSnapshotIsRefused` is the failing input and
  `OAuth.Auth.RoundTrip` states when a token is handed out.
- **A merge refusal is not proof that nothing merged.** `Merging.RefusalMayHideAMerge` gives a refused answer over a
  merge that was made, for every status but a 4xx. `Merging.RefusalProvesExactlyOn4xx` states the condition.
- **A refusal is spent once as long as an answered 4xx posted no comment**, which is how the source reads it.
  `Refusals.RefusalsAreSpentOnce` has that as its hypothesis, and `Refusals.UntrustedAnswerDoublesAComment` shows
  that it is needed.
- **A percentile above 100 has no answer.** The source indexes past the end of the durations (`Report.Percentile`).
- **A key reads back exactly for accounts without a slash** (`Bindings.KeyReadsBack`); binding refuses the others.

Where code and comment disagree the model follows the code: `leaseUnmanaged` leases every unmanaged server a
publication names, also one the configuration holds, while its comment speaks only of the others.

## Model

| member | source | states |
|---|---|---|
| `Sorting.SortStableIsStable` | factory/measure/signals.go:145-149 | a library sort lists every position once, by key and then by original place |
| `Sorting.SortedOnceIsTheSet` | factory/measure/stays.go:101-102 | sorting and compacting keeps exactly the values, each once, ascending |
| `Ownership.LabelsAt` | factory/measure/ownership.go:190-202 | the labels carried at an instant, each with the event that last put it on, against a definition by "applied and not removed since" and not by replay |
| `Ownership.LinkedPRsMembers` | factory/measure/ownership.go:207-225 | a pull request is listed exactly when either side holds the link, and only once |
| `Ownership.ListLinkedPRs` | factory/measure/ownership.go:207-225 | the two loops compute that list |
| `Ownership.SortedReplayDecidesOpen` | factory/measure/ownership.go:98-116 | replaying the sorted timeline decides open or closed as the unsorted timeline says: no close without a later reopen |
| `Ownership.OpenFlag` | factory/measure/ownership.go:98-116 | the replay loop answers that |
| `Ownership.ListOpenAt` | factory/measure/ownership.go:98-116 | exactly the pull requests open at the instant, in order |
| `Ownership.ListOpenedBy` | factory/measure/ownership.go:151-159 | exactly the pull requests opened by the instant, in order |
| `Ownership.AnyMergedStillReady` | factory/measure/ownership.go:120-136 | whether one was merged by the instant and still carries the ready label |
| `Ownership.AppliedLastIsUnique` | factory/measure/ownership.go:163-185 | at most one label application is the last one among the pull requests |
| `Ownership.AppliedLastDecides` | factory/measure/ownership.go:163-185 | and it alone names the sub-state owner |
| `Ownership.SubStateAt` | factory/measure/ownership.go:163-174 | the running best over pull requests and their labels is that owner |
| `Ownership.ComputeDoingOwner` | factory/measure/ownership.go:73-94 | the owner of a card in Doing by its pull requests, in the code's order of cases |
| `Ownership.ComputeOwner` | factory/measure/ownership.go:38-51 | the owner of a card in a lane at an instant |
| `Ownership.OwnerSettled` | factory/measure/ownership.go:138-146 | between two instants with no event that changes hands, on the card or its pull requests, the owner is the same: the cuts are enough |
| `Ownership.OwnerIsReported` | factory/measure/owner.go:26-33 | no rule names an owner the report has no row for |
| `Tiling.EveryInstantHasItsOwner` | factory/measure/stays.go:86-114 | each instant of a stay is in exactly one segment, which names the owner at that instant |
| `Tiling.TilingIsUnique` | factory/measure/stays.go:86-114 | segments that tile a stay with different neighbours are determined by the owner at each instant |
| `Tiling.ExtendTiles` | factory/measure/stays.go:104-113 | extending the last segment or appending one keeps the tiling |
| `Stays.OneOwnerBetweenCuts` | factory/measure/stays.go:88-102 | no owner changes inside a piece between two cuts |
| `Stays.Cuts` | factory/measure/stays.go:88-102 | the cuts run from start to end, ascend, and hold every moment something changed hands |
| `Stays.Segments` | factory/measure/stays.go:86-114 | the segments of any stay tile it: lengths add up, neighbours differ, each instant has its owner |
| `Stays.StatusMoves` | factory/measure/stays.go:58-67 | the board moves of the project, sorted stably by time |
| `Stays.CardStays` | factory/measure/stays.go:69-84 | one stay per move, to the next move or open, each closed one tiled |
| `Stays.LaneStays` | factory/measure/stays.go:38-47 | the stays of every card on the board, by number, each closed one tiled |
| `Weeks.WeekStartIsTheOnlyMonday` | factory/measure/weeks.go:12-17 | the Monday computed is the only one whose week holds the instant |
| `Weeks.ListWeeks` | factory/measure/weeks.go:38-44 | the window's Mondays, newest first, each once |
| `Weeks.WeekIsListed` | factory/measure/weeks.go:38-44 | every Monday inside the window is listed |
| `Weeks.WeekStaysInWindow` | factory/measure/weeks.go:24-35 | an instant inside the window belongs to a week inside it |
| `Report.Percentile` | factory/measure/weeks.go:49-57 | for any percentage: above 100 there is no answer where there are durations (the source indexes past the end); otherwise the value is one of the durations, at least p percent are at or below it, and fewer are below any smaller one |
| `Report.LaneOrder` | factory/measure/measures.go:74-82 | the four named lanes and then any other met, each once |
| `Report.ListClosedIn` | factory/measure/measures.go:99-107 | the lengths of the closed stays of a lane and week, in order |
| `Report.LaneRows` | factory/measure/measures.go:86-96 | one row for each week and lane with closed stays, with its count and percentiles |
| `Report.StayCountedOnce` | factory/measure/measures.go:84-107 | each closed stay that ended in the window falls into exactly one lane row, whose count is that of the stays of its week and lane |
| `Report.LaneRowsCountEveryStay` | factory/measure/measures.go:84-107 | the counts of all lane rows add up to the closed stays that ended in the window: none is missed or counted twice |
| `Report.OwnersShareStays` | factory/measure/measures.go:123-152 | over any choice of closed stays the owners' times add up to the stays' lengths |
| `Report.WeekRows` | factory/measure/measures.go:109-121 | one week's role rows add up to the time of the closed stays that ended in it, though rows with nothing to show are dropped |
| `Report.RoleRows` | factory/measure/measures.go:109-121 | the same for every week of the window |
| `Report.Measure` | factory/measure/measures.go:59-70 | from a snapshot: stays tiled, lane rows exact and counting every closed stay of the window, and every week's role rows add up |
| `ReadLinked.Reader.Absorb` | factory/measure/timeline.go:131-150 | a page is added to its item once, the first page creating the item and bringing its first links |
| `ReadLinked.Reader.LinkPages` | factory/measure/links.go:31-65 | succeeds exactly when no query fails; then every later page of links is in and other items are untouched |
| `ReadLinked.Reader.Timelines` | factory/measure/timeline.go:68-104 | on success every target is whole: all pages of its timeline and of its links; a failure means a query failed or a target is not readable |
| `ReadLinked.Unread` | factory/measure/fetch.go:59-64 | the targets not yet read, each number once |
| `ReadLinked.ClosedHoldsReachable` | factory/measure/fetch.go:57-77 | a set of items closed under links holds everything reachable from its targets |
| `ReadLinked.Reader.ReadAll` | factory/measure/fetch.go:57-77 | terminates; on success it read exactly the items reachable along links, each whole; otherwise a query failed or something it pursued was not readable |
| `Text.FixedIsOrdered` | internal/audit/trailquery.go:79-113 | numbers padded to one width compare as text as they do as numbers |
| `Audit.Read` | internal/audit/postgres.go:46-80 | a page carries nothing outside the filter, and the next cursor is empty exactly on a short page |
| `Audit.AdminOrdersAgree` | internal/audit/trailquery.go:99-113 | the admin branch's order is the outer order |
| `Audit.LedgerOrdersAgree` | internal/audit/trailquery.go:79-97 | the ledger branch's order is the outer order where the marks agree |
| `Audit.PageIsTopOfRest` | internal/audit/trailquery.go:43-61 | the top of the two branches' tops is the top of everything past the cursor |
| `Audit.NextStartsAfter` | internal/audit/postgres.go:83-89 | the advanced cursor leaves exactly what the page did not show |
| `Audit.WalkIsTheTrail` | internal/audit/postgres.go:46-89 | from the empty cursor, for any page size, the pages are every entry once in the merged order |
| `Audit.MergedIsUnique` | internal/audit/trailquery.go:43-61 | there is one merged order |
| `Audit.WalkIsShort` | internal/audit/postgres.go:46-89 | following cursors ends, after at most one page more than there are entries, on any trail |
| `Audit.WalkExists` | internal/audit/postgres.go:46-89 | a walk exists from every cursor |
| `Audit.DisagreementLosesARow` | internal/audit/trailquery.go:79-97 | two ledger rows of one instant whose marks are the wrong way round: some admin record and page size make a walk that never shows one of them |
| `Audit.CompleteExactlyWhenMarksAgree` | internal/audit/trailquery.go:43-113 | paging rebuilds the trail for every admin record and page size if and only if the marks agree with run id and sequence |
| `Audit.PlainRunsAgree` | internal/audit/trailquery.go:79-97 | they agree when no run id is a proper prefix of another and sequences fit their width |
| `Audit.ExtendingRunsDisagree` | internal/audit/trailquery.go:79-97 | run-1 and run-10 at one instant: paging is not complete |
| `Catalogue.ValuesAreLastListings` | internal/admin/tool_catalogue.go:86-114 | a tool is written exactly when it is listed by a server the publication is the authority on, as last listed |
| `Catalogue.PublicationDecides` | internal/admin/tool_catalogue.go:44-171 | after a publication an accepted server has exactly the tools listed, and every other server's rows are as the sweep left them |
| `Catalogue.StalePublicationIsDropped` | internal/admin/tool_judgement.go:40-60 | a discovery under another generation, or of a server not configured, is not recorded |
| `Catalogue.SweepConfigures` | internal/admin/tool_judgement.go:95-113 | after a sweep every managed row's server is configured and switched on |
| `Catalogue.RunKeepsConfigured` | internal/admin/tool_catalogue.go:44-171 | so in every state of every run of publications, sweeps, renewals, saves and removals |
| `Catalogue.SweepAndGrace` | internal/admin/tool_grace.go:49-75 | after a sweep the grace table is exactly the servers with an old worker's row left; such a row leaves only a whole grace after first sight, unheld |
| `Catalogue.PublicationAndGrace` | internal/admin/tool_grace.go:49-75 | a publication keeps the table as exact and starts no grace over |
| `Catalogue.GraceCountsFromFirstSight` | internal/admin/tool_grace.go:30-59 | over any run a grace counts from a step that saw the old worker's row |
| `Catalogue.GraceIsKept` | internal/admin/tool_grace.go:49-59 | while such a row survives its first sight does not change |
| `Catalogue.LeaseNeverMovesBack` | internal/admin/tool_lease.go:77-101 | one step never moves a lease's expiry back; only forgetting an expired one removes it |
| `Catalogue.ExpiryNeverGoesBack` | internal/admin/tool_lease.go:77-101 | nor does any run, across forgetting and renewing again, as long as no renewal's clock is more than a lease behind an earlier forgetting |
| `Catalogue.SlowClockMovesExpiryBack` | internal/admin/tool_lease.go:77-101 | a lease forgotten by one clock and renewed by another ends earlier than before exactly when that condition fails |
| `Catalogue.HeldServerIsNeverSwept` | internal/admin/tool_lease.go:128-178 | renewals whose gap plus clock skew stays under the lease keep the server's unmanaged rows through every sweep of every run |
| `Catalogue.LossIsReported` | internal/admin/tool_lease.go:55-101 | after a sweep took a server's rows, the next renewal of any worker running it answers lapsed, and a publication leases it |
| `Catalogue.LossIsRestored` | internal/admin/tool_catalogue.go:44-114 | that publication writes back exactly what the worker lists, under a lease |
| `Catalogue.LossIsRepairedExactly` | cmd/agentd/mcp.go:790-813 | over runs: after a sweep took a tool, the next pass of a worker running its server brings it back if and only if the hold call does not fail after its renewal and the publication commits, nothing else publishing that server |
| `Catalogue.UnrepairedLossIsSilent` | cmd/agentd/mcp_lease.go:38-48 | a worker whose renewals stay within a lease is never told of a lapse by a later one |
| `Catalogue.UnrepairedLossGoesUnnoticed` | cmd/agentd/mcp_lease.go:38-48 | so a loss its pass failed to repair stays: the tool is absent in every later state and no later renewal of that worker finds a lapse |
| `Catalogue.SilentLoss` | internal/admin/tool_lease.go:55-65 | a run in which this happens |
| `Catalogue.LookingFirstIsEnough` | internal/admin/tool_lease.go:140-178 | when the cheap look finds nothing to do, a sweep would keep every row and every grace in use |
| `Catalogue.ForgettingChangesNoHold` | internal/admin/tool_lease.go:55-65 | deleting expired leases changes who is held for nobody |
| `Catalogue.Judge` | internal/admin/tool_judgement.go:40-60 | the loops keep the accepted servers, their entries and which of them are unmanaged |
| `Catalogue.EncodeTools` | internal/admin/tool_catalogue.go:86-114 | the rows written, by tool, later entries winning |
| `Catalogue.Unmanaged` | internal/admin/tool_lease.go:107-116 | the unmanaged servers a publication names |
| `Catalogue.Curator.RenewLeases` | internal/admin/tool_lease.go:77-101 | fails exactly without a holder, changing nothing; otherwise every named hold is live, none ended earlier than before, all others are as they were, and a lapse is answered exactly when some named hold was not live |
| `Catalogue.Curator.SweepCatalogue` | internal/admin/tool_judgement.go:95-113 | the sweep, with managed rows configured afterwards |
| `Catalogue.Curator.RecordTools` | internal/admin/tool_catalogue.go:86-171 | drops what is no longer offered and writes what is |
| `Catalogue.Curator.PublishTools` | internal/admin/tool_catalogue.go:44-81 | lease, sweep and record as one step, or nothing when there is no holder |
| `Catalogue.Curator.HoldToolServers` | internal/admin/tool_lease.go:55-65 | the call is a run of renew, forget and sweep cut off where it fails; short of a failed renewal every hold it names is live; no row of a held server leaves, and none is added or changed |
| `Catalogue.HoldIsARun` | internal/admin/tool_lease.go:55-65 | whatever fails, the tables are those of a state of the run of its steps, so the theorems over runs speak of hold calls |
| `Catalogue.Curator.PutServer` | internal/admin/integrations.go:273-280 | a save that switches a server off leaves no row of it and answers with their number; other rows, leases and graces stay; managed rows stay configured |
| `Catalogue.Curator.DeleteServer` | internal/admin/integrations.go:981-1023 | a removal leaves neither the server nor a row of it and answers with their number; other rows, leases and graces stay; managed rows stay configured |
| `Catalogue.Curator.DropServerTools` | internal/admin/tool_catalogue.go:128-141 | exactly that server's rows go, and their number is reported |
| `Catalogue.Reconciler.FlagServers` | cmd/agentd/mcp_lease.go:53-61 | the servers started by flags that are held and live |
| `Catalogue.Reconciler.ReviveFlagServers` | cmd/agentd/mcp_lease.go:72-83 | starts again every flagged server that is not live, and says whether one came up |
| `Catalogue.Reconciler.ListPublication` | cmd/agentd/mcp.go:821-843 | flagged sessions are published unmanaged, others under their known generation, and a session without one is left out |
| `Catalogue.Reconciler.Pass` | cmd/agentd/mcp.go:790-813 | a pass publishes exactly on a lapse found by a call that did not fail, a revived server or another change; the tables afterwards are those of the hold call and then, if it commits, of that publication |
| `Guard.HasLabel` | factory/guard/pulls.go:33-40 | membership of a label |
| `Readiness.LatestReviews` | factory/guard/signals.go:80-87 | one standing review for each reviewer who decided something: their latest by id |
| `Readiness.JudgeStandings` | factory/guard/signals.go:88-99 | the verdict of the set of standing reviews, whatever order the map is walked in |
| `Readiness.DistinctStandings` | factory/guard/signals.go:80-99 | with distinct ids the standings are determined |
| `Readiness.CheckQA` | factory/guard/signals.go:111-128 | the verdict of a QA status no other QA status is later than, or missing when there is none |
| `Readiness.FindLatestRun` | factory/guard/signals.go:147-156 | a run of that name, app and head that none is later than, or none exists |
| `Readiness.CheckRuns` | factory/guard/signals.go:134-145 | the first expected check that fails and how, or that all last succeeded |
| `Readiness.Judge` | factory/guard/merge.go:112-123 | reviews, then QA, then checks, then freshness: the first that fails decides |
| `Readiness.JudgedIsUnique` | factory/guard/merge.go:112-123 | with distinct ids two judgements of one state give the same reason and the same check |
| `Readiness.PassesExactlyWhenReady` | factory/guard/merge.go:94-123 | the ordered judgement passes if and only if the order-free readiness condition holds |
| `Readiness.OrderDoesNotMatter` | factory/guard/signals.go:80-158 | readiness depends on which reviews, statuses and runs there are, not on their order |
| `Readiness.Prejudge` | factory/guard/merge.go:94-108 | answers empty exactly on the readiness condition; fails exactly when a read it needs fails |
| `Wire.GitHub.Send` | factory/guard/github.go:76-131 | not-sent is reported exactly when nothing left the process; a lost or undecodable answer is a failure that may have been applied |
| `Merging.Merger.MergeIfReady` | factory/guard/merge.go:60-90 | at most one merge request, only once every signal passed on that head, and then surely; an error is answered exactly when a needed read failed; what was tried, left and was applied is given exactly, under every answer; merge_not_sent means nothing left; merged means GitHub merged that head; without a request the answer is prejudge's; only refused and unknown outcomes are recorded |
| `Merging.Merger.Merge` | factory/guard/merge.go:128-156 | the answer to the one merge call and what GitHub applied under it, whichever it is |
| `Merging.Merger.Reconcile` | factory/guard/reconcile.go:19-47 | a lost answer is merged exactly when a re-read shows that head merged in the target |
| `Merging.RefusalProvesExactlyOn4xx` | factory/guard/merge.go:128-156 | trusting GitHub that an answered 4xx applied nothing, merge_refused proves this call merged nothing exactly when its status is a 4xx |
| `Merging.RefusalMayHideAMerge` | factory/guard/merge.go:128-156 | under every other status there is a script answered merge_refused in which GitHub merged |
| `Merging.PrejudgeForetellsMerge` | factory/guard/merge.go:60-123 | on one state prejudge is empty exactly when merge_if_ready is admitted to its merge request, and exactly when the state is ready |
| `Refusals.Record.Add` | factory/guard/refusals.go:41-59 | a full log first loses what expired, then everything, and then holds the new refusal |
| `Refusals.Record.Take` | factory/guard/refusals.go:65-75 | the entry goes, and counts only within the hour |
| `Refusals.Record.Restore` | factory/guard/refusals.go:80-87 | the entry is back and proves exactly as long as it would have; no other entry changes |
| `Refusals.StepConserves` | factory/guard/refusals.go:41-87 | no step of any call, its comment answered however, makes a refusal prove two comments applied by GitHub |
| `Refusals.CommentBalances` | factory/guard/sendback.go:189-212 | posting a comment spends the refusal unless it is known unwritten, and then GitHub applied none |
| `Refusals.RefusalsAreSpentOnce` | factory/guard/sendback.go:102-212 | over every interleaving, for each pull request, head and cause: comments applied by GitHub, refusals held and the stored entry never exceed the refusals recorded, and each was taken within the hour of a recording really made |
| `Refusals.UntrustedAnswerDoublesAComment` | factory/guard/sendback.go:121-127 | were a comment applied under an answered 4xx, one refusal would give two |
| `SendingBack.Sender.SendBack` | factory/guard/sendback.go:102-137 | it writes exactly when the input is valid, the cause has a route, the reads come, the pull request can be addressed and the server observes the cause, and otherwise answers which of these failed; the writes tried, left and applied are the comment, the new label and the old one removed, each after the one before was answered; the refusal's journey is that of the interleaved steps |
| `SendingBack.Sender.Enter` | factory/guard/sendback.go:102-119 | the calls that get as far as observing, and the answer of the others |
| `SendingBack.Sender.Observe` | factory/guard/sendback.go:158-177 | an unrebuildable cause is observed exactly when its refusal is stored, fresh and of this head; another exactly when prejudging gives it now (one way without distinct ids) |
| `SendingBack.Sender.ObserveAgain` | factory/guard/sendback.go:169-176 | the cause is observed exactly when it is the verdict of judging the head again |
| `SendingBack.VerdictIsTheOnlyOne` | factory/guard/sendback.go:169-176 | with distinct ids that verdict is the only one |
| `SendingBack.SpentUnlessUnwritten` | factory/guard/sendback.go:121-127 | a refusal is left for another call exactly where the comment is known unwritten, with its original moment, and GitHub then applied none |
| `SendingBack.JourneyPosts` | factory/guard/sendback.go:121-127 | the steps a call takes post one comment exactly when GitHub applied it |
| `SendingBack.EveryLastingRefusalHasARoute` | factory/guard/sendback.go:50-74 | whatever the judgement refuses with can be sent back, except exactly the two causes that clear by themselves |
| `SendingBack.Sender.Comment` | factory/guard/sendback.go:189-212 | what left and what was applied; known unwritten exactly when the request never left or GitHub answered a 4xx, created exactly on a 201 with an id |
| `SendingBack.Sender.Relabel` | factory/guard/sendback.go:215-224 | the old label is touched only once the new one was added |
| `SendingBack.DropReadyLabel` | factory/guard/labels.go:12-36 | done exactly on a 200 or a 404 |
| `Pairs.Reader.ReadPairs` | factory/guard/env.go:95-115 | for any list and any value check: accepted exactly when every entry is well formed, known and apart from the entries before it, as the loop compares them; the table holds the entries in order |
| `Pairs.TakenIsInjective` | factory/guard/env.go:95-115 | an accepted table gives no two names one value, and only known names and checked values |
| `Pairs.TakenIsHeld` | factory/guard/env.go:95-115 | where the check refuses the empty value, as every check in use does, an accepted table holds every entry written |
| `Board.ReadLanes` | factory/guard/config_board.go:69-75 | without a fault the five lanes have distinct option ids, each the one written |
| `Board.LaneOf` | factory/guard/config_board.go:23-34 | a lane the table gives for the option, whatever order the map is walked in, or none exists |
| `Board.ReadsBackWhatWasWritten` | factory/guard/config_board.go:23-34 | an option id reads back as the lane it was written for and no other |
| `Board.NoMoveFollowsAMove` | factory/guard/roles.go:72-100 | whatever the roles, a move the table allows leads to a lane no agent may leave |
| `Board.JudgeItem` | factory/guard/board.go:76-90 | the lane of a card of this project, or why it is none |
| `Board.UpdateField` | factory/guard/board_github.go:126-150 | done exactly when GitHub named the item back without an error; not-sent exactly when nothing left |
| `Board.Mover.Move` | factory/guard/board.go:47-71 | one mutation, exactly when the card stands in a lane the role may take it out of |
| `Board.AgentsKeepTheTable` | factory/guard/roles.go:72-100 | an agent changes a card only from Triagem or Doing, only into Preparado, Travado or Done, and into Done only by closing out a merged pull request |
| `Board.AgentsMoveOnceBetweenPeople` | factory/guard/board.go:47-90 | in any run, between two agent changes of one card lies a person's |
| `CloseOut.CardsOf` | factory/guard/listready.go:100-114 | the unarchived items of the project on the pull request and its issues, each once |
| `CloseOut.JudgeClosable` | factory/guard/listready.go:148-168 | with no card, or the one card in Doing or Done; otherwise it is a person's; fails exactly when the one card cannot be read |
| `CloseOut.List` | factory/guard/listready.go:63-146 | each list and each count is exact: every listed pull request is filed once, open ones by their cards with the verdict a merge would get now, merged ones by whether they may be closed; it fails exactly when a read one of them needs fails |
| `CloseOut.ListedReadyIsReady` | factory/guard/listready.go:116-146 | an entry says ready exactly when the pull request is ready by the order-free condition |
| `CloseOut.EveryNodeIsFiled` | factory/guard/listready.go:63-97 | the two lists and the four counts add up to the listing |
| `CloseOut.UninterruptedCloses` | factory/guard/closemerged.go:34-71 | a call nothing interrupts leaves the label gone and the card in Done or none |
| `CloseOut.Closer.CloseMerged` | factory/guard/closemerged.go:34-71 | whatever answers come the world takes a close step; a pull request not merged and labelled gets no write; an uninterrupted call finishes |
| `CloseOut.Closer.Finish` | factory/guard/closemerged.go:56-99 | the card to Done, then the label |
| `CloseOut.LabelGoesLast` | factory/guard/closemerged.go:60-71 | any step, of a call or on the board, that takes the label leaves the one card in Done, or there is none |
| `CloseOut.UnlabelledIsFinished` | factory/guard/closemerged.go:17-71 | over any run of calls cut off anywhere and of people's and agents' moves between them, a pull request without its label is merged, was finished when the label went, and still is unless a person moved its card since |
| `CloseOut.InterruptedStaysClosable` | factory/guard/closemerged.go:17-71 | over any such run with no move of its card by a person or another agent, the pull request can still be closed, so the next uninterrupted call finishes it |
| `CloseOut.CloseStepIsABoardEvent` | factory/guard/closemerged.go:88-99 | a close-out changes cards only as the board's close-out event for a merged pull request |
| `Bindings.KeyReadsBack` | internal/admin/channel_identity.go:333-345 | a key reads back as its connection exactly when the account holds no slash, whatever the connection's name holds |
| `Bindings.KeysAreDistinct` | internal/admin/channel_identity.go:93-95 | no two bindings share a key, even where one connection's name extends another's |
| `Bindings.Channels.BindIdentity` | internal/admin/channel_identity.go:116-173 | a binding is stored exactly when account, principal and connection are good and the transaction commits; otherwise nothing changes |
| `Bindings.Channels.UnbindIdentity` | internal/admin/channel_identity.go:209-246 | every position of the key is emptied and the account speaks for nobody |
| `Bindings.Channels.DeleteChannel` | internal/admin/channels.go:624-666 | the connection goes with its own bindings, each recorded once, and no other's |
| `Bindings.Channels.WithdrawBindings` | internal/admin/channel_identity.go:179-193 | exactly the rows whose key reads as the connection, one record each |
| `Bindings.StepStaysSound` | internal/admin/channel_installation.go:161-167 | under the two locks every step of every transaction keeps bindings anchored and what waiting transactions rely on |
| `Bindings.EveryBindingIsAnchored` | internal/admin/channel_identity.go:116-193 | however the transactions interleave, every binding stands on a connection that exists |
| `Bindings.UnboundSpeaksForNobody` | internal/admin/channel_identity.go:209-246 | once an unbind commits the account speaks for nobody until a later bind of it commits |
| `OAuth.Store.Refresh` | internal/admin/integrations.go:846-912 | whatever the answer says, the owner's row changes only by the compare-and-set and no other row at all; accepted exactly when the row held what the refresh started from |
| `OAuth.Transport.Persist` | cmd/agentd/mcp.go:497-512 | the transport is clean again exactly when nothing was left to store, or the row still held what the refresh started from and the answer came; the row then holds the grant |
| `OAuth.Transport.Token` | cmd/agentd/mcp.go:470-495 | when exactly a token is handed out; it is of the grant loaded or of one the store accepted; after a refresh the row holds the new grant and the transport no longer derives from the older one |
| `OAuth.Auth.TransportFor` | cmd/agentd/mcp.go:411-422 | a transport is kept exactly while it derives from the credential in hand; a new one is clean and holds that credential |
| `OAuth.Auth.RoundTrip` | cmd/agentd/mcp.go:411-512 | where the transport is not kept, a token is handed out if and only if the access token in hand is present and unexpired, or it can be refreshed and the row still holds that grant |
| `OAuth.RefreshedSnapshotIsRefused` | cmd/agentd/mcp.go:411-512 | two round trips with one snapshot, the first of which refreshes it: the first gets a token and the second, though the row holds the refreshed grant, gets none |
| `OAuth.RefreshesFormAChain` | internal/admin/integrations.go:846-972 | of two accepted refreshes with no write between, the second starts from what the first stored |
| `OAuth.TwoRefreshesOfOneGrant` | internal/admin/integrations.go:846-972 | two refreshes from one grant are both stored only if a write put that grant back in between |
| `OAuth.OneRefreshOfAGrantIsStored` | internal/admin/integrations.go:846-972 | among workers alone, with grants never handed out twice, at most one is |
| `OAuth.LostAnswerIsNotRepeated` | cmd/agentd/mcp.go:470-512 | a refresh stored while its answer was lost is refused on every retry until the old grant is put back |
| `Egress.CodeIsIdempotent` | internal/egressmetrics/metrics.go:23-28 | bounding a code twice is bounding it once |
| `Egress.Reporting.Denied` | cmd/agentd/stdio_egress_reporting.go:66-99 | one more attempt under the bounded code, with first and last seen kept true |
| `Egress.Reporting.Drain` | cmd/agentd/stdio_egress_reporting.go:115-127 | the batch holds, key by key, what the buffer held, and the buffer is empty |
| `Egress.Reporting.Requeue` | cmd/agentd/stdio_egress_reporting.go:129-151 | what was buffered meanwhile and the batch, merged key by key |
| `Egress.Reporting.Flush` | cmd/agentd/stdio_egress_reporting.go:101-113 | store and buffer together hold the same before and after, whether the write succeeds or not |
| `Egress.ObservedIsTrue` | cmd/agentd/stdio_egress_reporting.go:79-99 | the sum over observations has the least and the greatest of their moments |
| `Egress.ObservedIsCounted` | cmd/agentd/stdio_egress_reporting.go:79-99 | and counts them |
| `Egress.NoDenialIsLost` | cmd/agentd/stdio_egress_reporting.go:66-151 | over every interleaving of adds, drains, writes and failed writes, stored, in flight and buffered together equal what was observed: count, first and last |

## Left out

- SQL, JSON, base64 and the GraphQL and REST encodings: tables are maps, and a locked transaction is one step (several steps in `Bindings`).
- Text collation: the audit trail compares text character by character, as the C collation does.
- Letter case outside ASCII: logins and repository names are compared by ASCII case; white space is space, tab, newline and carriage return.
- State words of GitHub (review states, status and check conclusions) are kept as the one comparison a decision makes with each.
- Paging of GitHub listings (`listAll`, page limits) and the batch size of twenty timelines: a listing is read whole or not at all, and timelines are asked for one page at a time in the batches' order.
- Duration saturation, sub-second time and time zones: time is whole seconds from Go's zero time, in UTC.
- The caught-later signals, the moves count, open rows and unmapped rows of the report: `Report.RoleRows` takes the two counts as parameters.
- Report.Measure: states the stays, lane rows and role times; open rows, unmapped rows and the two counts of a role row are not computed.
- Catalogue.Curator.PutServer: takes the save and the dropping of its tools as one step, though enabling saves take no catalogue lock.
- Catalogue.Reconciler.Pass: the connecting, probing and disconnecting of configured servers are one parameter, whether they changed something.
- Catalogue.LossIsRepairedExactly: speaks of one pass after the loss, with no other publication of that server in the run.
- Board.Mover.Move: takes the read of a card and its mutation as one step; a person's move between the two is overwritten.
- Board.AgentsMoveOnceBetweenPeople: speaks of the one card an event names, with calls as single steps for the same reason.
- CloseOut.Closer.CloseMerged: the listing and the card read of one call show one state of the world; moves fall between calls.
- CloseOut.InterruptedStaysClosable: holds until the card is next moved by hand or by another agent, since such a move may take it where close-out does not act.
- Refusals.RefusalsAreSpentOnce: requires that an answered 4xx posted no comment, for the calls that are not cut off before they read the answer.
- SendingBack.Sender.Observe: without distinct ids in the signals a cause that judging again may give need not be the one it gives, so only one direction is stated then.
- Merging.Merger.MergeIfReady: a read of GitHub shows a pull request merged only with a head GitHub merged.
- Bindings.Channels.DeleteChannel: the conversations removed with a connection and the installation-room check are not modelled; the check's verdict is a parameter.
- OAuth.Store.Refresh: the two refresh functions are one, with the empty owner for the shared row; the detail recorded beside the grant is not modelled.
- Egress.NoDenialIsLost: a failed write stores nothing, and the step relation takes the buffer's content from the methods' contracts.
- QA verdicts, card fields, the token and identity caches, and the tools' registration: they would add only simple members.
- Erasure and retention, branding, password and heading parsers, budgets and policies, wiring and ticker loops.
