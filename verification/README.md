# Verification of my-token's usage pipeline

my-token reports what coding sessions cost. A **collector** on each machine reads append-only transcript
files, finds the usage of each message, works out which project a session was about, and posts batches to a
**server**. The server keeps a **ledger** of usage events. A **console** reads windows of that ledger. Agents
reach the server with API keys and the owner with a session.

This project models that pipeline in Dafny and proves what it promises. Code that changes state is written as
classes and methods with loops, each proved against a function of the inputs or of the old state. The laws
are then proved of those functions and, for the protocol, of every run of a state machine.

| file | what it holds |
|---|---|
| `Basics.dfy` | options, Go's byte order on strings, cutting at a colon, sums over finite sets |
| `Transcript.dfy` | transcript lines, touched paths, usage rows and their first-wins deduplication |
| `GitRoots.dfy` | git-root cache, tally and majority vote |
| `PathStore.dfy` | the collector's three local tables and the incremental scan |
| `IncrementalVotes.dfy` | the incremental vote against the from-scratch vote |
| `Pricing.dfy`, `Ledger.dfy` | cost, the server's tables, and the ingestion endpoint with its failures |
| `Collector.dfy` | the sent-id file and one whole collector run |
| `Delivery.dfy` | installs, network and server as a state machine; what every run keeps |
| `VoteHistory.dfy`, `Conservation.dfy`, `Provenance.dfy` | the vote, the totals and the origin of every ledger row, over whole histories |
| `PathLabels.dfy` | the console's path labels |
| `Calendar.dfy`, `Windows.dfy` | the proleptic Gregorian calendar (RFC 3339) and the console's windows |
| `Summary.dfy`, `ReadSide.dfy` | aggregation; filters, queries, hostnames |
| `Drilldown.dfy`, `EndToEnd.dfy` | laws that span the read side, and the pipeline from transcript to console |
| `Accounts.dfy`, `Identity.dfy` | users and API keys, rotation, revocation, admission |
| `Rotations.dfy` | two rotations of one handle at the same time |

`dafny verify dfyconfig.toml` checks everything.

## What is proved

* **Exactly-once ledger.** In every run of the protocol (transcripts grow, several installs run and stop
  anywhere, requests are lost, delayed or repeated, responses are lost, requests fail partway, the sent-id file
  is lost or torn), sent ids are always in the ledger, no ledger row ever changes, and a run that returns
  without error has put every id of the files it scanned into the ledger. Whatever becomes of a collector run,
  it is a run of this state machine. Every ledger row says, field by field, what the transcripts said. Once
  every install has caught up, the totals of any window are those of the transcript lines in it.
* **Incremental equals from-scratch.** After any history the stored vote is the from-scratch tally of the whole
  history, with the lines left behind by stops between the two commits of a file tallied again. So it is
  exact if and only if no such stop had anything to vote.
* **Labels.** The escalation loop ends at a closed form. Labels before machines are appended coincide exactly
  for clashing paths, and final labels exactly for clashing paths on one machine or where an appended machine
  spells out what another path shows.
* **Windows.** Each calendar window starts at the latest of its boundaries not after now; weekdays are those of
  RFC 3339, Appendix B.
* **Read side.** The answer does not depend on the order of the query's rows. Breakdowns conserve the
  totals, scan roots partition usage exactly when each row is claimed by one of them, drilling down agrees
  with the row, composite keys merge exactly for install ids that begin one another, and the rows of the
  windows table are nested.
* **Keys.** Revocation is permanent. A rotation by itself never leaves its user without the new key; two at once
  do exactly when each has the other's key in its snapshot and gets to it. Bearer and session admission are
  exact: agents by live key or verified subject, owners by session, nobody by both. A new key is good for 90 days.

## Where the code and its comments differ

* `web/src/lib/pathDisplay.ts:125-128` says rows still tied after escalation have the same path. They need
  not: `PathLabels.LeadingSlashTies` and `PathLabels.LockedPairsTie` give two families, and
  `PathLabels.LabelsTieExactly` the exact condition. Appending machines can make a further tie, between "b" on
  machine "m" and a path ending in "b (m)" (`PathLabels.MarkSpells`); `PathLabels.FinalLabelsTieExactly` is
  exact for the labels that are shown.
* `internal/transport/bff/json_middleware.go:43-52` says an owner has no bearer credential.
  `IssueAPIKeyForHandle` and `Rotate` (`internal/identity/service.go:328-353`, `:384-401`) give a key to whatever
  user has the handle, the owner included: `Identity.OwnerCanHoldKey` is such a run, `Identity.HolderIsOwner` and
  `Identity.OwnerKeysExactly` say exactly when. What keeps owners out is the gate. The two admission checks are
  disjoint because only the two roles exist (`Identity.BothGatesExactly`).
* `internal/domain/usage/service.go:180-189` says a machine row's install id stays reachable in the raw key. A row
  with a blank install id that has a hostname loses it (`Drilldown.RenamedKeepsRow`, and at the failing input
  `Drilldown.BlankIdIsLost`). The collector makes up a UUID for a blank id (`internal/collector/config.go:109-113`),
  so only another client can send one; `openapi.yaml:262-263` sets no least length.

## Model

| member | source | states |
|---|---|---|
| Basics.CutUndoesJoin | internal/domain/usage/repo.go:251-254 | splitting a joined `a:b` gives both halves back if and only if `a` holds no colon |
| Basics.LessExactly | internal/domain/usage/summary.go:327 | the string order is decided at the first difference, a prefix coming first |
| Transcript.ExtractTouchedPaths | internal/collector/touchedpaths.go:49-78 | the loops collect the touched paths of all tool-use blocks in order |
| Transcript.TouchedExactly | internal/collector/touchedpaths.go:49-110 | a path is collected as often as file tools, globs and directory changes touch it, and from no other tool |
| Transcript.TouchedPathsSplit | internal/collector/collector.go:231-246 | scanning a file in two pieces finds what one pass finds |
| Transcript.SessionStable | internal/collector/touchedpaths.go:139-152 | appending lines never changes a session id already known |
| Transcript.FirstSessionIdExactly | internal/collector/touchedpaths.go:139-152 | a file's session is the first non-empty session id a line names |
| Transcript.ExtractUsageRows | internal/collector/transcript.go:72-108 | the loop computes the first-wins deduplication of the usage lines |
| Transcript.RowsAreFirstWins | internal/collector/transcript.go:72-108 | no id twice, exactly the ids the lines carry, each row read off the first line with its id |
| Transcript.RowsReadOff | internal/collector/transcript.go:72-108 | each row says, field by field, what the first line with its id says |
| Transcript.RowsInOrder | internal/collector/transcript.go:72-108 | rows come in the order of their first lines |
| Transcript.RowsUnseenSplit | internal/collector/collector.go:82-97 | deduplicating across pieces is one pass over the concatenation |
| Transcript.FirstCwdBearingRow | internal/collector/path.go:55-65 | the first row of the session with a cwd, or none |
| Transcript.FirstCwdExactly | internal/collector/path.go:55-65 | what it finds is the earliest non-empty cwd of the session, or that there is none |
| GitRoots.TallyGitRoots | internal/collector/path.go:174-188 | counts through the cache equal the from-scratch tally with the plain resolver |
| GitRoots.TallyCounts | internal/collector/path.go:174-188 | a root is in the tally exactly when some path votes for it; its entry is the number of votes |
| GitRoots.GitRootCache.Resolve | internal/collector/path.go:115-127 | the cached resolver answers what git would, errors included, and asks only for unknown directories |
| GitRoots.LookupsAreFresh | internal/collector/path.go:76-127 | over any run of lookups the cache agrees with git, a known directory is never asked about and a resolving one at most once |
| GitRoots.MajorityGitRoot | internal/collector/path.go:201-209 | for every visiting order, the least root among those of greatest positive count; false exactly when none is positive |
| GitRoots.WinnerUnique | internal/collector/path.go:201-209 | there is at most one such root |
| GitRoots.WinnerExists | internal/collector/path.go:201-209 | there is one exactly when some count is positive |
| GitRoots.ResolvePathFromVoteCounts | internal/collector/path.go:236-244 | the winning root; with no positive count git's root of the cwd or else the cwd; with neither "(unknown)" |
| GitRoots.ScratchIsSessionPath | internal/collector/path.go:174-253 | the full-history path is the root with most ballots, least first; without ballots git's root of the cwd or else the cwd; without either "(unknown)" |
| PathStores.PathStore.SaveGitRoots | internal/collector/pathstore.go:118-143 | resolved directories are merged into the table, nothing else changes |
| PathStores.PathStore.AddVotes | internal/collector/pathstore.go:149-181 | each non-zero delta is added to its (session, root) count |
| PathStores.PathStore.SetScanOffset | internal/collector/pathstore.go:227-237 | the offset of one (session, file) is replaced |
| PathStores.ScanOneFile | internal/collector/collector.go:219-251 | one file's new lines are counted and its offset moved, as the specification says |
| PathStores.ScanAllFiles | internal/collector/collector.go:219-251 | the loop over files; a file that cannot be read ends it with the earlier commits kept |
| PathStores.ScanSessionPaths | internal/collector/collector.go:210-280 | the whole pass: new tables, one path a session, and git asked only for unknown directories |
| IncrementalVotes.GrowthKeepsSurplus | internal/collector/collector.go:219-251 | appending lines and adding files does not change stored counts minus scanned votes |
| IncrementalVotes.ScanFileKeepsSurplus | internal/collector/collector.go:231-249 | scanning a file moves stored counts and scanned votes by the same amount |
| IncrementalVotes.StopGrowsSurplus | internal/collector/collector.go:241-248 | a stop between the two commits over-counts by exactly the votes of the unscanned part |
| IncrementalVotes.RescanAddsNothing | internal/collector/collector.go:219-251 | a file listed again adds no vote |
| IncrementalVotes.CountsAreHistory | internal/collector/path.go:174-188 | once every file is scanned, stored counts equal the from-scratch tally of the session over all its files, plus what was counted twice |
| IncrementalVotes.TallyUnchanged | internal/collector/path.go:174-188 | tallying more paths changes nothing exactly when none of them votes |
| IncrementalVotes.RunReturnsScratchPaths | internal/collector/path.go:251-253 | each path a full run returns is the one the full-history resolution gives |
| IncrementalVotes.TalliedAreSaved | internal/collector/collector.go:253-255 | a completed run saves every directory it resolved while tallying |
| Ledger.Repo.InsertBatch | internal/domain/usage/repo.go:194-232 | all rows or none; the count is the number of new distinct ids |
| Ledger.InsertAllSplit | internal/domain/usage/repo.go:194-232 | two batches in turn are their concatenation |
| Ledger.InsertAllKeeps | internal/domain/usage/repo.go:194-232 | existing rows stay as they are and exactly the ids of the batch are added |
| Ledger.InsertAllFirst | internal/domain/usage/repo.go:194-232 | of several events with one new id the first is stored |
| Ledger.FiguresSpelled | internal/domain/usage/summary.go:271-291 | tokens are the four counters together, cost the rows' costs, turns the number of rows |
| Pricing.CostSpelled | internal/domain/usage/pricing.go:26-100 | the price of each counter for each family, and which names fall in which |
| Ledger.ResendChangesNothing | internal/domain/usage/repo.go:194-232 | inserting a batch a second time changes nothing |
| Ledger.NewIdsSplit | internal/domain/usage/repo.go:194-232 | the inserted counts of two batches add up to the count of both at once |
| Ledger.NewIdsIsGrowth | internal/domain/usage/repo.go:194-232 | the inserted count is the growth of the table |
| Ledger.Service.IngestBatch | internal/domain/usage/service.go:94-125 | received counts all events, inserted the new ids, each row priced and stamped |
| Ledger.Service.IngestUsageEventsBatch | internal/transport/publicapi/usage_handler.go:70-120 | the three effects in order, cut short where a fault strikes; nothing without authentication |
| Ledger.IngestRows | internal/transport/publicapi/usage_handler.go:88-114 | under any fault no row changes, each new row keeps every field of an event of the request, and 201 means all are in |
| Ledger.IngestAnswers | internal/transport/publicapi/usage_handler.go:70-120 | 201 exactly when no fault strikes, with both counts; the machine's row is written first |
| Ledger.UpsertRootsExactly | internal/domain/usage/service.go:306-313 | the last report of a path wins and other roots stay |
| Ledger.IngestKeeps | internal/transport/publicapi/usage_handler.go:88-114 | every row's machine and scan root stay registered, after failures partway through too |
| Collector.SentState.FilterUnsent | internal/collector/state.go:66-74 | keeps, in order, exactly the rows whose id is not recorded as sent |
| Collector.SentState.Save | internal/collector/state.go:77-88 | written in any order, the file reads back as the same set |
| Collector.CollectRows | internal/collector/collector.go:82-97 | the per-file loops give one deduplication of all lines, each id credited to the first file that has it |
| Collector.OwnersAreFirst | internal/collector/collector.go:76-97 | an id is credited to the first scanned file that carries it |
| Collector.BuildEvents | internal/collector/collector.go:123-163 | events, scan-root reports and estimate of the new rows, each actor looked up once |
| Collector.EstimateIsCharged | internal/collector/collector.go:163 | the local estimate is what the server charges for the same events |
| Collector.SortReports | internal/collector/collector.go:169-174 | the reports in path order, each once |
| Collector.BatchCarries | internal/collector/collector.go:82-163 | a batch carries exactly the ids found and not sent, figures from the first line of each |
| Collector.BatchIsTrue | internal/collector/collector.go:113-163 | every event copies its row, and its actor is the session's first cwd, its path what votes and cwd make of it, its scan root that of the first file with the id |
| Collector.BatchReports | internal/collector/collector.go:162-174 | every report names a scanned file's root, name and source type |
| Collector.BatchIsCollectorMade | internal/collector/collector.go:144-178 | a batch names one machine and reports every scan root it uses |
| Collector.Install.Run | internal/collector/collector.go:61-195 | the run's effect on store, server and sent-id file for every fate of request, response and save |
| Delivery.StepSafe | internal/collector/collector.go:61-195 | every step keeps sent ids inside the ledger and every ledger row as it is |
| Delivery.RunSafe | internal/collector/collector.go:61-195 | the same over every run |
| Delivery.ReachableSafe | internal/domain/usage/repo.go:194-232 | every reachable world is safe: keyed rows, registered labels, sent ids in the ledger |
| Delivery.FinishedRunDelivered | internal/collector/collector.go:176-194 | a run that ends by saving has every id it found in the ledger and in the sent-id file |
| Delivery.EmptyRunDelivered | internal/collector/collector.go:165-167 | a run that finds nothing unsent has every id it found in the ledger |
| Delivery.EveryRunIsSteps | internal/collector/collector.go:61-195 | every outcome of a collector run, for every fate of its post and its save, is a possible run of the state machine with the same end state |
| VoteHistory.RunVotes | internal/collector/collector.go:219-251 | over any run the surplus rises by exactly the votes of what stops leave to be read again |
| VoteHistory.IncrementalIsHistory | internal/collector/collector.go:210-280 | after any history, counts and paths are those of the whole history with the lines left behind by stops voting again |
| VoteHistory.IncrementalEqualsScratch | internal/collector/collector.go:210-280 | counts equal the from-scratch ones if and only if no stop between two commits had anything to vote; then the paths do too |
| VoteHistory.IncrementalOverCounts | internal/collector/collector.go:241-248 | each count is too high by exactly the votes left to be read again |
| VoteHistory.NeverAskedAgain | internal/collector/collector.go:211-255 | a directory resolved while tallying in a completed run never reaches git in any later run |
| Conservation.SuccessfulRunCatchesUp | internal/collector/collector.go:61-195 | a collector run over all transcripts that returns without error catches its install up |
| Conservation.CaughtUpMeansLanded | internal/collector/collector.go:176-194 | once every install has caught up since its last growth, every id is in the ledger |
| Conservation.LandedExactly | internal/domain/usage/repo.go:194-232 | the ledger holds exactly the transcripts' ids if and only if all have landed |
| Conservation.LinesSpeakForRows | internal/domain/usage/repo.go:194-232 | whatever holds of every usage line, as transcripts grow, holds of every ledger row |
| Conservation.TotalsConserved | internal/domain/usage/service.go:94-125 | when lines of one id agree and every install has caught up, ledger totals equal the sum over distinct ids, tokens also counter by counter |
| Conservation.WindowConserved | internal/domain/usage/service.go:94-125 | the same for the rows stamped in any window and the ids whose lines lie in it |
| Provenance.RowsAreTrue | internal/collector/collector.go:61-195 | over every run each ledger row keeps every field of an event that some run sent and that was true to the transcripts |
| PathLabels.SegmentsOfJoin | web/src/lib/pathDisplay.ts:55-72 | joining segments and splitting again gives the segments back |
| PathLabels.SegmentsExactly | web/src/lib/pathDisplay.ts:55-58 | segments are what stands between slashes, less the empty ones |
| PathLabels.SameCandidate | web/src/lib/pathDisplay.ts:67-72 | two candidates agree exactly when the shown trailing segments agree |
| PathLabels.CommonRun | web/src/lib/pathDisplay.ts:67-72 | trailing runs of a length agree exactly up to the longest common one |
| PathLabels.EscalateAll | web/src/lib/pathDisplay.ts:102-123 | the loop terminates at the closed form of the depths |
| PathLabels.ShortenPaths | web/src/lib/pathDisplay.ts:81-155 | the whole function: closed form, then machine suffixes on rows still tied |
| PathLabels.ShortIsTied | web/src/lib/pathDisplay.ts:102-121 | a row short of its final depth is tied with another row in that round |
| PathLabels.DoneIsUntied | web/src/lib/pathDisplay.ts:102-121 | a free row at its final depth with segments left is tied with none |
| PathLabels.PlainLabelShape | web/src/lib/pathDisplay.ts:123 | every label before suffixes is a trailing run of its path's segments |
| PathLabels.PlainLabelSpelled | web/src/lib/pathDisplay.ts:67-123 | between the slashes of a label stand the last segments of the path, as many as the depth |
| PathLabels.TwinsShowMachine | web/src/lib/pathDisplay.ts:130-147 | one path on two machines shows its basename with the machine in parentheses |
| PathLabels.LabelsTieExactly | web/src/lib/pathDisplay.ts:81-123 | labels before suffixes coincide if and only if the paths clash in one of three ways |
| PathLabels.FinalLabelsTieExactly | web/src/lib/pathDisplay.ts:123-155 | final labels coincide if and only if the paths clash and the machines agree, or one appended machine spells out what the other path shows |
| PathLabels.CleanPathsTieExactly | web/src/lib/pathDisplay.ts:123-155 | when neither path contains " (", final labels coincide exactly for clashing paths on one machine |
| PathLabels.MarkSpells | web/src/lib/pathDisplay.ts:130-147 | a family of paths that do not clash and still end with one label |
| PathLabels.LeadingSlashTies | web/src/lib/pathDisplay.ts:123-147 | a path and the same path with a leading slash stay tied |
| PathLabels.LockedPairsTie | web/src/lib/pathDisplay.ts:94-96 | two duplicated paths with one basename stay tied, machine suffixes included |
| PathLabels.DistinctSegmentsDistinctLabels | web/src/lib/pathDisplay.ts:81-155 | with pairwise distinct segments, labels are pairwise distinct and carry no machine |
| PathLabels.NoShorterLabel | web/src/lib/pathDisplay.ts:102-121 | at any smaller depth a free row shares its candidate with another row |
| PathLabels.OrderDoesNotMatter | web/src/lib/pathDisplay.ts:81-155 | a row's label does not depend on the order of the rows |
| Calendar.DayOfCivil | internal/domain/usage/summary.go:98-113 | day number to civil date and back |
| Calendar.CivilOfDay | internal/domain/usage/summary.go:98-113 | civil date to day number and back |
| Calendar.EpochIsDayZero | internal/domain/usage/summary.go:98 | days are counted from 1970-01-01 |
| Calendar.WeekdayIsZeller | internal/domain/usage/summary.go:103 | the weekday is that of RFC 3339, Appendix B |
| Windows.TodayIsLatest | internal/domain/usage/summary.go:98 | today starts at the midnight less than a day before now |
| Windows.WeekIsMonday | internal/domain/usage/summary.go:99-104 | the week starts on a Monday midnight less than seven days before now, across month and year borders |
| Windows.CalendarStartIsLatest | internal/domain/usage/summary.go:97-108 | each calendar window starts at the latest of its boundaries not after now |
| Windows.StartsAreMonotone | internal/domain/usage/summary.go:90-121 | every start is monotone in now |
| Windows.WindowsNest | internal/domain/usage/summary.go:90-121 | the starts are nested; year within lifetime exactly from 2000 on |
| Windows.WindowsSpelled | internal/domain/usage/summary.go:50-121 | every window ends now; 5 and 24 hours and 2000-01-01 in nanoseconds; seven windows |
| Summary.Aggregate | internal/domain/usage/summary.go:282-335 | totals of all events, one row a key with exactly its sums, strictly ordered by cost then key |
| Summary.AggregateSpelled | internal/domain/usage/summary.go:168-335 | totals and each row add up four token counters, cost and turns; keys, exclusion, order and install count spelled out |
| Summary.SortOrders | internal/domain/usage/summary.go:323-328 | sorting rows of distinct keys orders them strictly and keeps them all |
| Summary.TotalPermuted | internal/domain/usage/summary.go:288-291 | sums depend only on the multiset of events |
| Summary.AggregateUnique | internal/domain/usage/summary.go:282-335 | the same multiset of events gives the identical result, breakdown order included |
| Summary.BreakdownConserves | internal/domain/usage/summary.go:288-316 | rows plus the events left out of the path breakdown add up to the totals |
| Summary.ReportingInstallsAgree | internal/domain/usage/summary.go:293-334 | the install count is the same for every grouping and counts the named machine rows |
| ReadSide.QueryMeansFilter | internal/domain/usage/repo.go:284-319 | the query built selects exactly what the filter asks for; a malformed scan root asks for nothing |
| ReadSide.ListEventsInWindow | internal/domain/usage/repo.go:327-358 | each wanted row of the window once, in any order, nothing else |
| ReadSide.ListedTotal | internal/db/usage_events.sql.go:61-68 | a sum over any listing is the sum over the ledger |
| ReadSide.SubstituteMachineHostnames | internal/domain/usage/service.go:190-206 | the in-place pass over machine rows |
| ReadSide.SubstituteMachineHostnamesInKeys | internal/domain/usage/service.go:221-270 | the in-place pass over path and actor rows |
| ReadSide.AnswerFromListing | internal/domain/usage/service.go:143-177 | aggregating a listing gives the answer in terms of the ledger |
| ReadSide.Summarize | internal/domain/usage/service.go:143-177 | totals, rows and install count in terms of the ledger, hostnames put in; an error only for an unknown window |
| ReadSide.AnswerSpelled | internal/domain/usage/service.go:143-177 | an answer's totals over the ledger, counter by counter |
| ReadSide.AnswerRowSpelled | internal/domain/usage/service.go:143-270 | each displayed row's figures over the ledger, counter by counter |
| ReadSide.WindowTable | internal/domain/usage/service.go:411-428 | seven rows in order, each its window's totals |
| ReadSide.WindowRowSpelled | internal/domain/usage/service.go:411-428 | a table row's figures over the ledger, counter by counter |
| ReadSide.WindowsAbut | internal/db/usage_events.sql.go:61-68 | half-open windows that abut add up |
| ReadSide.ScanRoots | internal/domain/usage/service.go:347-376 | each registered scan root once, with a hostname or else the install id |
| Drilldown.AnswerUnique | internal/domain/usage/service.go:143-177 | the console sees one answer in whatever order the database returns rows |
| Drilldown.RowsMergeExactly | internal/domain/usage/summary.go:168-179 | rows of two machines can share a path or actor key if and only if one install id, followed by a colon, begins the other |
| Drilldown.KeysNeverMerge | internal/domain/usage/summary.go:168-179 | colon-free installs: keys agree exactly when machine and part agree |
| Drilldown.RenamedKeepsRow | internal/domain/usage/service.go:190-270 | figures stay, and raw-key-or-key recovers the key except for a blank install id with a hostname |
| Drilldown.ConsoleRecoversPath | web/src/app/usage/BreakdownPanel.tsx:56-60 | the prefix split gives the exact path back if and only if the shown prefix has no colon |
| Drilldown.PathSurvivesDisplay | internal/domain/usage/service.go:221-270 | from event key through hostname to the path shown |
| Drilldown.DrillDownAgrees | internal/domain/usage/service.go:143-206 | filtering on a machine row's key totals what the row says |
| Drilldown.BlankDrillDown | internal/domain/usage/service.go:143-206 | for a blank install id without a hostname it totals everything, so it agrees exactly when no named install reports |
| Drilldown.RootFilterSelects | internal/domain/usage/repo.go:251-319 | a scan-root filter wants its own events if and only if the install id has no colon |
| Drilldown.SoleClaimExactly | internal/domain/usage/repo.go:251-254 | a row has its own root as only claimant exactly when its install id has no colon and no other root has its filter value |
| Drilldown.ScanRootsPartition | internal/domain/usage/repo.go:251-319 | totals over all registered scan roots add up to the unfiltered total when each row is claimed once |
| Drilldown.PartitionExactly | internal/domain/usage/repo.go:251-319 | machine by machine, the turns add up if and only if each row is claimed once |
| Drilldown.WindowRowsNest | internal/domain/usage/service.go:411-428 | windows rows are nested for non-negative tokens; before 2000 the lifetime row is empty |
| EndToEnd.RunLabelled | internal/transport/publicapi/usage_handler.go:88-114 | over every run, scan roots name known installs and the ledger priced every row itself |
| EndToEnd.UsagePartitions | internal/domain/usage/repo.go:251-319 | after any run, with colon-free install ids, scan roots partition usage |
| EndToEnd.ConsoleShowsTranscripts | internal/domain/usage/service.go:143-177 | once every install has caught up, the console's total for any window is the sum over the distinct message ids whose lines lie in it |
| Accounts.RunKeeps | internal/identity/repo.go:251-347 | over every sequence of commits users stay and key rows change only by one permanent revocation |
| Accounts.SameHandleExactly | internal/identity/repo.go:130-143 | handles are the same letter by letter, upper and lower case alike |
| Identity.BearerTokenExactly | internal/identity/service.go:133-143 | a token is found exactly when the header is the scheme, the token and spaces around it |
| Identity.Service.CreateUser | internal/identity/repo.go:161-179 | inserts unless an index forbids it |
| Identity.Service.RevokeAPIKey | internal/identity/repo.go:251-264 | revokes only the caller's own unrevoked key |
| Identity.Service.RevokeAPIKeyByID | internal/identity/repo.go:306-318 | revokes any unrevoked key |
| Identity.Service.DisableOtherAPIKeys | internal/identity/repo.go:330-347 | revokes every other unrevoked key of the user, none fails, and counts them |
| Identity.Service.IssueAPIKeyForHandle | internal/identity/service.go:328-353 | find or create an agent, then a 90-day key; exactly when it succeeds and what it commits |
| Identity.Service.Rotate | internal/identity/service.go:384-417 | the new key is first and the only unrevoked one at the end; the count is the number live before |
| Identity.Service.SeedOwner | cmd/seed/main.go:103-124 | one owner row a subject, never for a blank subject |
| Identity.RotationNeverLocksOut | internal/identity/service.go:384-417 | stopped anywhere after its first commit, the new key is unrevoked and other users' keys are untouched |
| Rotations.LockedOutExactly | internal/identity/repo.go:330-347 | over every interleaving of two rotations, the user ends with neither new key if and only if each had the other's key in its snapshot and got to it |
| Rotations.SnapshotHoldsExactly | internal/identity/repo.go:234-244 | a snapshot holds the other's key exactly when the other had committed it by then |
| Rotations.SnapshotsDecide | internal/identity/service.go:384-417 | when the new keys are the newest, the two snapshots alone decide |
| Rotations.LockOutHappens | internal/identity/service.go:384-417 | it can happen to any user, whatever keys they held |
| Rotations.AloneItSucceeds | internal/identity/service.go:384-417 | by itself a rotation never fails and ends with the new key the only unrevoked one |
| Identity.HolderIsOwner | internal/identity/service.go:328-401 | a key issued or rotated is an owner's exactly when the handle names an owner, upper and lower case alike |
| Identity.OwnerKeysExactly | internal/identity/repo.go:214-227 | over every run an owner holds a key row if and only if one did before or some commit gave an owner a key |
| Identity.OwnerCanHoldKey | internal/identity/service.go:328-353 | seeding the owner and issuing for the owner's handle gives the owner a key |
| Identity.RejectedForGood | internal/identity/service.go:158-207 | once refused as revoked or expired, refused ever after, whatever a JWT verifier says |
| Identity.NewKeyGoodFor90Days | internal/identity/service.go:158-207 | a new key acts as its agent at every instant for 90 days, exactly while not revoked |
| Identity.BearerAdmitsExactly | internal/identity/service.go:158-251 | a bearer credential acts as exactly the active agent who holds it as a live key, or whose subject the verifier gives when no key has its hash |
| Identity.SessionAdmitsExactly | internal/transport/bff/json_middleware.go:68-109 | a session admits exactly the stored active owner it names |
| Identity.ReachableAdmission | internal/identity/service.go:158-251 | both, in every state that seeding, issuing, rotating and revoking reach, and never one user by both |

## Left out

- File walking, home expansion, the git subprocess, HTTP and SQLite: files are a sequence, tables are maps with atomic commits, and git and the directory of a touched path are fixed functions. A failing statement on the local tables is covered as a stop.
- JSON decoding, the `cd` regular expression and timestamp parsing: transcripts start as parsed lines.
- Machine integers and floating point: counts are unbounded. Every price is a whole number of cents per million tokens, so cost is exact in units of 10^-8 USD; the rounding of `float64` sums is not modelled.
- Growth of a transcript between the two reads of one run: both loops of a run see the same files. Growth between runs is a step of the protocol.
- Two collector processes of one install at the same time.
- Pricing.CostForUsage: lower-casing covers ASCII letters only.
- Summary.Aggregate: the library sort is modelled by its result, an insertion sort; keys are distinct, so stability does not matter.
- ReadSide.Summarize: the query and the hostname lookup see one state of the tables.
- Drilldown.DrillDownAgrees: asks for a non-blank install id, because a blank machine filter means no filter; `Drilldown.BlankDrillDown` covers the blank one, but not when it has a hostname, which then is what is filtered on.
- EndToEnd.ConsoleShowsTranscripts: asks that the lines of one id lie in the window all or none; the ledger keeps the timestamp of the first.
- Identity.Service.Rotate: one rotation of a handle at a time; `Rotations` has two at a time, but not three, and not other changes of the keys in between.
- Identity.RejectedForGood: cookies, hashes and JWTs are arbitrary functions; their cryptography is not modelled, nor is a failing key lookup.
- Machine summaries (`ListMachineSummaries`), key listings for the settings page, the OAuth callback and generated code.
