# Network Atlas: a verified model of its core

Network Atlas watches hosts over SSH, keeps a catalog of what runs on them and
draws it as a graph. This project models the eight components whose logic is
hard to get right, as Dafny programs with contracts, and proves what they
promise over all inputs, runs and interleavings. Verify with
`dafny verify dfyconfig.toml`.

- `ChangeEvents`, `StreamProtocol`: the pruned change-event log, and streams that resume from a Last-Event-ID or are reset
- `Evidence`, `CatalogTables`, `Catalog`, `ResourceLinks`, `CatalogStore`: one discovery run updating deployments, observations, project targets and resource links; `CatalogOutcome` and `LinkOutcome` tell its effect from the run's own lists and results
- `Batch`, `BatchTranscript`, `BatchScript`: the framed transcript of sixteen remote actions, its parser, and the one remote command that prints it; `BatchOutcome` tells the accepted texts and their slots, `ScriptRun` runs the script line by line
- `Shell`, `ShellText`: shell quoting and command texts against the token recognition of POSIX.1-2017, Shell Command Language, sections 2.2, 2.3 and 2.6
- `CpuCounters`, `CpuParsing`, `DeviceRates`, `NetworkRates`, `ProcessSummary`: reading two counter frames and differencing them; `RateOutcome` and `SummaryOutcome` tell what the numbers count
- `EvidenceDiff`, `KeyOrder`: the second-scan diff, which is also a patch
- `Refresh`, `Viewport`: the latest-wins refresh coordinator and the graph fit of the frontend
- `RateLimit`, `ConstantTime`: the fixed-window limiter and the comparison of secrets
- `ProjectGraphs`, `ProjectRemoval`: removing and exporting a project over every stored snapshot; `ProjectOutcome` tells what each row keeps
- `DocumentPaths`, `PathOutcome`, `Documents`: which documents a discovery may read, and its budgets
- `Text`, `Decimals`, `Metrics`, `Wrappers`: shared vocabulary

How the source's form is kept: SQL tables and in-memory objects that are
updated in place are classes whose methods give their whole new state in terms
of a specification function of the old one; loops are loops with invariants;
pure code is functions. A database transaction is atomic: a method that returns
an error leaves its tables as they were. Floating-point rates are reals. Strings
are sequences of bytes. Digests, UUIDs and parsed JSON are opaque values.
Clocks, remote replies and the browser's route are parameters.

Where the code and the reader's expectation differ, the code is modelled and
the exact condition is proved:

- An expired Last-Event-ID is recognised exactly when an event after it is gone,
  except on an emptied log, where nothing is ever expired
  (`ExpiredExactlyWhenLost`, `ErasedLogHidesLoss`).
- The wait a refused caller is told is enough exactly when what is left of the
  window is below one second or a whole number of seconds (`AdvertisedWaitAlone`,
  `AdvertisedWaitCanFallShort`); one second more is always enough.
- A waiting refresh can be stranded only by a run that rejects while a request
  waits, and stays so until the next request (`StrandedExactlyByRejection`,
  `StrandedExactlyWhen`, `RejectionStrands`); the call site in
  frontend/app.js catches its own errors.
- The fitted graph is centred on an axis exactly when it extends over at least
  one unit there (`CentredWhen`), and its scale is the largest that shows every
  node exactly when it is 1 or decided on such an axis (`LargestExactlyWhen`,
  `SmallViewShrinksTooFar`).
- Expiry is checked when a stream connects, not when it polls. A connected
  stream skips events without a reset exactly when a poll no longer finds the
  next event stored, which without erasure means more than 2000 events behind
  (`GapFreeExactlyWhenPollsFindNext`, `KeepingUpLeavesNoGap`,
  `LatePollSkipsSilently`).
- Clients of the rate limiter can be accepted nearly twice the limit within one
  window, and every limit has a run that reaches the bound
  (`LessThanTwiceTheLimit`, `SlidingBoundIsReached`).
- A project root of slashes alone passes the guard against "/", and every
  absolute document path counts as below it; any other valid root keeps some
  readable path out (`RootBoundsExactlyWhen`, `SlashesBoundNothing`).

## Model

| member | source | states |
|---|---|---|
| `ChangeEvents.ChangeLog.Publish` | backend/src/events.rs:124-157 | the next cursor is assigned, the subject is cut at 512 characters, and exactly the newest 2000 rows remain, oldest first |
| `ChangeEvents.AppendKeepsSound` | backend/src/events.rs:124-157 | stored cursors stay a gapless run ending at the last one assigned, never more than 2000, however full the log was |
| `ChangeEvents.AppendedIsPublished` | backend/src/events.rs:124-157 | column by column: the change stands last under the next cursor with its own kind, revision, summary and time and its subject or the first 512 characters of it, behind the newest 1999 rows as they were |
| `ChangeEvents.ChangeLog.Erase` | backend/src/data_management.rs:1129-1133 | deleting the workspace empties the rows while the cursor supply goes on |
| `ChangeEvents.ChangeLog.CursorBounds` | backend/src/events.rs:316-329 | the minimum and maximum are the oldest stored and the last assigned cursor, or both missing |
| `ChangeEvents.LoadAfterIsWindow` | backend/src/events.rs:331-356 | a read gives at most 100 stored events after the cursor, oldest first, without a gap, and is empty exactly when nothing later is stored |
| `ChangeEvents.DrainingReadsEverything` | backend/src/events.rs:251-296 | polling until idle reads every stored event after the cursor once and in order, 100 at a time |
| `ChangeEvents.EventStream.constructor` | backend/src/events.rs:222-243 | a new stream starts after the requested cursor, or with one reset to the newest cursor when the request is expired |
| `ChangeEvents.EventStream.Poll` | backend/src/events.rs:256-290 | one poll yields exactly the loaded batch and moves the stream cursor to its last line |
| `ChangeEvents.ExpiredExactlyWhenLost` | backend/src/events.rs:223-231 | on a non-empty log a positive Last-Event-ID is expired if and only if some event after it was pruned |
| `ChangeEvents.ErasedLogHidesLoss` | backend/src/events.rs:223-231 | a concrete emptied log on which a lost event goes unnoticed |
| `StreamProtocol.EveryRunIsSafe` | backend/src/events.rs:217-302 | over every interleaving of publishes, erasures, connects, polls, yields and drops, received ids strictly increase and each event is the one recorded under its id in the history of publishes |
| `StreamProtocol.ReceivedWasPublished` | backend/src/events.rs:124-290 | over every run, what a client receives under id n is the change of the n-th publish action: its kind, revision, summary and time, and its subject or the first 512 characters of it |
| `StreamProtocol.GapFreeExactlyWhenPollsFindNext` | backend/src/events.rs:222-296 | over every run, erasures and reconnects included, no event is ever skipped without a reset if and only if every poll still finds the stream's next event stored |
| `StreamProtocol.PollSkipsExactlyWhenNextIsGone` | backend/src/events.rs:256-290 | in every reachable state a poll loads change events only, and skips some exactly when the next one is gone |
| `StreamProtocol.KeepingUpLeavesNoGap` | backend/src/events.rs:222-296 | unless the log is erased, that is the case exactly when no poll finds the log more than 2000 events ahead of the stream |
| `StreamProtocol.LatePollSkipsSilently` | backend/src/events.rs:256-290 | a concrete run whose client receives event 2 first, with no reset |
| `StreamProtocol.UnresetClientSeesHistory` | backend/src/events.rs:222-296 | a client whose polls find their next events and that is never reset has received exactly the published events after its start |
| `StreamProtocol.ResetClientSeesHistory` | backend/src/events.rs:222-296 | what such a client received behind its last reset is exactly the history after that reset's id |
| `StreamProtocol.ResetPrecedesLaterEvents` | backend/src/events.rs:230-243 | an expired resume yields stream.reset with the newest cursor before anything else, and some later event had indeed been lost |
| `Evidence.ObservedDeployments` | backend/src/catalog.rs:382-413 | the observed map holds each identity the run saw, with the first item that named it |
| `Evidence.ProviderCoverage` | backend/src/catalog.rs:436-486 | the coverage map holds exactly the providers the run speaks about, with their merged status and time |
| `Evidence.MergedReadyMeansAllReady` | backend/src/catalog.rs:488-530 | merged coverage is ready if and only if every matching result is ready |
| `Evidence.ReadyCoverageNeedsEveryResultReady` | backend/src/catalog.rs:436-530 | one result that is not ready keeps the provider's coverage from being ready |
| `CatalogTables.ReplayInClosedForm` | backend/src/catalog.rs:594-635 | the fold over observations: ignored is permanent, stale follows the latest decisive observation, freshness the latest of all |
| `CatalogTables.ReplayTargetInClosedForm` | backend/src/catalog.rs:636-651 | a target's fold: archived never changes, otherwise the latest decisive observation decides |
| `CatalogTables.FollowsTransitive` | backend/src/catalog.rs:533-764 | agreement of the tables with the fold over history composes over successive changes |
| `CatalogStore.CatalogDatabase.InsertObservation` | backend/src/catalog.rs:767-805 | a row is inserted unless the deployment already has one for this run, and nothing else changes |
| `CatalogStore.CatalogDatabase.PersistObservedDeployment` | backend/src/catalog.rs:533-651 | the whole new state after one observed deployment, target rows included |
| `CatalogStore.CatalogDatabase.PersistMissingObservation` | backend/src/catalog.rs:677-726 | the whole new state after a proven absence: stale unless ignored, targets stale unless archived |
| `CatalogStore.CatalogDatabase.PersistUnknownObservation` | backend/src/catalog.rs:728-765 | the whole new state when absence is not proven: only freshness and the latest observation move |
| `CatalogStore.RecordedFollows` | backend/src/catalog.rs:533-805 | each of the three recordings adds at most one row and keeps the tables in agreement with history |
| `CatalogStore.CatalogDatabase.PersistAllObserved` | backend/src/catalog.rs:58-77 | after the first loop exactly the sighted identities have been settled as observed |
| `CatalogStore.CatalogDatabase.PersistAllAbsent` | backend/src/catalog.rs:79-110 | every existing deployment of a covered provider that was not sighted is settled as missing or unknown, and no other |
| `CatalogStore.CatalogDatabase.PersistDiscoverySuccess` | backend/src/catalog.rs:47-125 | a whole run has exactly its effect on all tables, time stamps included; an unknown host is an error that changes none |
| `CatalogStore.CatalogDatabase.SweepLinks` | backend/src/catalog.rs:141-169 | exactly the observed evidence links of the host whose owning provider is ready go stale |
| `CatalogStore.CatalogDatabase.PersistResourceEvidence` | backend/src/catalog.rs:131-286 | sweep and upserts together leave every link as the fold of its matching items in item order says |
| `Catalog.DeploymentsAgreeWithHistory` | backend/src/catalog.rs:533-764 | after any sequence of runs a non-ignored deployment is stale exactly when its latest decisive observation is missing; rows keep their ids and freshness matches the latest observation |
| `Catalog.TargetsAgreeWithHistory` | backend/src/catalog.rs:636-651 | after any sequence of runs a target that is not archived is stale exactly when the latest decisive observation is missing |
| `Catalog.OneObservationEach` | backend/src/catalog.rs:58-110 | a run gives each covered deployment exactly one observation, missing only if all its provider's results are ready, and uncovered ones none |
| `CatalogOutcome.ListedIsObserved` | backend/src/catalog.rs:58-77 | a deployment that the run lists gets an observed row, becomes fresh and, if it was stale, unassigned |
| `CatalogOutcome.ReadyProviderProvesAbsence` | backend/src/catalog.rs:83-97 | when the run does not list a deployment of its host, some result names the provider and all such results are ready, the latest row is missing and the deployment stale unless ignored |
| `CatalogOutcome.UnreadyProviderProvesNothing` | backend/src/catalog.rs:488-530 | one result that is not ready makes that row unknown with the status of the first such result, and the state stays |
| `CatalogOutcome.UnspokenIsUntouched` | backend/src/catalog.rs:436-486 | deployments of other hosts, of providers the run does not speak about, or with a row for this run already keep everything and get no row |
| `CatalogOutcome.RowsComeFromLists` | backend/src/catalog.rs:382-413 | after a run there are the deployments from before and those its lists name, no others |
| `CatalogOutcome.FirstListedDescribes` | backend/src/catalog.rs:533-593 | the row's time and status and the shown name come from the first listed item of the identity |
| `CatalogOutcome.TargetsFollowTheRow` | backend/src/catalog.rs:636-726 | a target that is not archived is confirmed at the later of the two times, made stale, or left, as the row of this run says |
| `Catalog.ReplayIsIdle` | backend/src/catalog.rs:698-711 | persisting the same run again changes no deployment, observation or target row |
| `ResourceLinks.LinkEffectInClosedForm` | backend/src/catalog.rs:238-282 | a link ends as the last matching item wrote it, its revision moved by the number of matching items; without a match only the sweep acts |
| `ResourceLinks.ReadyProviderDecidesLinks` | backend/src/catalog.rs:141-282 | with a ready owning provider an evidence link is observed exactly when this run's evidence matches it |
| `ResourceLinks.UnreadyProviderStalesNothing` | backend/src/catalog.rs:141-169 | without a ready owning provider no link becomes stale |
| `ResourceLinks.UserDecisionsSurvive` | backend/src/catalog.rs:238-282 | confirmed and archived states, user-declared origin and references, and other hosts' links survive every run |
| `LinkOutcome.MatchMeansRefers` | backend/src/catalog.rs:303-359 | an item refers to a deployment exactly when one of the names its kind goes by occurs in the deployment's text, a Compose project's containers included, or is the project's name |
| `LinkOutcome.LinksFollowTheEvidence` | backend/src/catalog.rs:131-286 | every link of every run, told from the run's lists and results: left alone or doubted when no item reaches it, else renewed by the last item that does, one revision for each |
| `LinkOutcome.ResourcesFollowTheItems` | backend/src/catalog.rs:186-224 | the resources stored are those before and one for each item, by source and bounded id |
| `Batch.SlotsAreSeparate` | backend/src/monitoring.rs:412-434 | setting one action's slot sets that slot and touches no other |
| `Batch.Advance` | backend/src/monitoring.rs:253-308 | one round of the parser moves the cursor strictly forward and keeps the outcome |
| `Batch.ParseBatch` | backend/src/monitoring.rs:249-317 | the cursor loop terminates on every text and computes the recursive reading of it |
| `Batch.BlockIsNew` | backend/src/monitoring.rs:268-297 | a block is accepted only for a profile action no earlier block was for |
| `BatchOutcome.AcceptedExactlyWhenSpelt` | backend/src/monitoring.rs:249-317 | a text is accepted if and only if it is a row of well-formed blocks, one for each of the sixteen actions, with white space between them |
| `BatchOutcome.CodesDecideSlots` | backend/src/monitoring.rs:298-326 | in every accepted text code 124 gives timed out, 126 permission denied, any other than 0 unsupported, and 0 the trimmed output or, beyond the action's limit, parse failed |
| `BatchOutcome.OutputLimits` | backend/src/monitoring.rs:76-205 | the limits of the sixteen actions in bytes |
| `BatchTranscript.BatchRoundTrip` | backend/src/monitoring.rs:228-317 | for any outputs free of the end marker, any exit codes and any block order, each slot holds the trimmed output or the specified quality |
| `BatchOutcome.PrintedCodesDecide` | backend/src/monitoring.rs:228-326 | each slot of a printed transcript, by the literal status: an output exactly when the status is 0, nobody spoke of a denied permission and the trimmed output fits |
| `BatchTranscript.AcceptedExactlyWhenComplete` | backend/src/monitoring.rs:268-316 | a printed transcript is accepted exactly when every action occurs exactly once |
| `BatchTranscript.AcceptedSetsEachOnce` | backend/src/monitoring.rs:249-317 | any accepted text sets every slot by exactly one of its blocks |
| `BatchTranscript.FirstEndMarker` | backend/src/monitoring.rs:272-278 | the end marker is found behind the output even when the output ends with part of one |
| `BatchScript.BatchCommand` | backend/src/monitoring.rs:210-243 | the script builder's loop makes a remote command of four shell words, the last being the whole script |
| `BatchScript.EverySubstitutionIsFound` | backend/src/monitoring.rs:225-236 | the shell that gets the script finds sixteen command substitutions, one per action in profile order, each exactly the text written for it, however that text is quoted inside |
| `BatchScript.SubstitutedReads` | backend/src/monitoring.rs:213-236 | the text of a substitution, scanned again, is a group with the action's words, or the time limit and the action's whole command as one word for its `sh -c`, and the exchanged streams |
| `BatchScript.EveryCommandArrives` | backend/src/monitoring.rs:210-243 | for every action, from the login shell to the innermost: the script arrives whole, the action's substitution is found in it, a time-limited command arrives unchanged, and the command reads as its words, its own script included |
| `BatchScript.CommandTextReads` | backend/src/monitoring.rs:23-37 | an action's command reads as `LC_ALL=C` and its words, an inner script being one word |
| `ScriptRun.ScriptPrintsTranscript` | backend/src/monitoring.rs:210-243 | whatever the sixteen groups print, complain and return, running the script line by line prints their transcript, in order, each status read before the permission test, with one delay of a second between the fifth and the sixth |
| `ScriptRun.ScriptIsParsedBack` | backend/src/monitoring.rs:210-326 | from the command's text to the slots: the parser accepts what the script prints, and each slot holds what its own group's status, complaints and output call for |
| `ScriptRun.RefusalMatches` | backend/src/monitoring.rs:227 | the shell pattern matches a text exactly when permission and, behind it, denied occur in it, either with a capital or not |
| `ScriptRun.InnerCommands` | backend/src/monitoring.rs:23-37 | which actions run an inner shell, and which script it gets |
| `ScriptRun.FileCommands` | backend/src/monitoring.rs:26-33 | which actions print a file, and which one |
| `ScriptRun.LimitedCommands` | backend/src/monitoring.rs:213-222 | which actions run under a time limit, which one, and with which command |
| `Shell.QuotedIsLiteral` | backend/src/monitoring.rs:328-330 | wherever a word may stand, POSIX token recognition reads quoted text as exactly its original |
| `Shell.QuotedIsOneWord` | backend/src/monitoring.rs:328-330 | the quoted form of any NUL-free string is exactly one word equal to it |
| `Shell.NestingUnwraps` | backend/src/monitoring.rs:328-330 | any number of nested quotings gives back the original after as many shells |
| `Shell.QuotedArgument` | backend/src/discovery.rs:1053-1055 | between any command text and any continuation the quoted text is one word, and the other words do not depend on it |
| `Shell.QuoteFreeIsWrapped` | backend/src/monitoring.rs:23-37 | the scripts that command texts put between plain single quotes are in quoted form |
| `ShellText.PiecesRead` | backend/src/monitoring.rs:226-236 | a text of words, quoted words, parameters, substitutions and operators has exactly their tokens, whatever stands before |
| `ShellText.BodiesAreFound` | backend/src/monitoring.rs:226-236 | the substitutions a shell finds in a text are the ones written in it, in order |
| `ShellText.GroupIsBody` | backend/src/monitoring.rs:226-236 | a command grouped in parentheses is a whole substitution: no quoted word in it, whatever it holds, closes it early or leaves it open |
| `CpuCounters.TotalIsExactSum` | backend/src/monitoring.rs:1673-1686 | the checked total is the exact sum, missing exactly when that does not fit 64 bits |
| `CpuCounters.QualityHasOneCause` | backend/src/monitoring.rs:1007-1049 | between parsed frames each quality has exactly one cause; the overflow outcome is unreachable |
| `CpuCounters.ObservedRateAddsUp` | backend/src/monitoring.rs:1026-1048 | busy, idle and iowait ticks make up the total with no clipping; percentages lie in 0..100 and steal within busy |
| `CpuCounters.TotalsTelescope` | backend/src/monitoring.rs:1007-1049 | along any chain of observed steps totals telescope and the step from first to last is observed with their sum |
| `CpuParsing.ParseProcStat` | backend/src/monitoring.rs:1384-1422 | accepted exactly when no CPU line is malformed and an aggregate exists; each name has its last row |
| `CpuParsing.ParsedFrameFits` | backend/src/monitoring.rs:1410-1416 | every tick vector of a parsed frame has a total within 64 bits |
| `CpuParsing.CpuObservedExactly` | backend/src/monitoring.rs:952-981 | CPU is observed exactly when all sources parsed, the boot is the same, half a second passed and the aggregate moved only forward |
| `CpuParsing.CoresObservedExactly` | backend/src/monitoring.rs:981-998 | exactly the current cores are listed, each observed exactly when frame A has it and it moved forward |
| `CpuParsing.DeriveCpuFrom` | backend/src/monitoring.rs:952-1005 | the same from the raw sources: observed exactly when both texts are usable and parse, boot and interval allow it, and the aggregate rows of the two texts moved only forward; cores likewise |
| `RateOutcome.RowsAreRead` | backend/src/monitoring.rs:1384-1416 | a line counts exactly when it is named cpu with digits or none and its next eight fields are user, nice, system, idle, iowait, irq, softirq and steal, adding up within 64 bits |
| `RateOutcome.OthersAreSkipped` | backend/src/monitoring.rs:1388-1401 | a line is skipped exactly when it is not so named |
| `RateOutcome.LastRowCounts` | backend/src/monitoring.rs:1416-1420 | the ticks of a name are those of its last row |
| `RateOutcome.CpuIsMeant` | backend/src/monitoring.rs:952-1049 | the quality of every outcome, and every percentage times the new ticks as a growth of the counters it is named after, for the aggregate and each core |
| `DeviceRates.DeriveDiskIo` | backend/src/monitoring.rs:1123-1176 | each current disk appears once, in order, with its own outcome; missing sources decide in the stated order |
| `DeviceRates.DiskObservedExactly` | backend/src/monitoring.rs:1151-1162 | a disk is observed exactly when boot, interval, numbers in frame A and all counters allow it; rates are non-negative |
| `DeviceRates.DiskRatesCombine` | backend/src/monitoring.rs:1178-1209 | over two adjoining windows byte rates are the time-weighted means of the parts |
| `DeviceRates.IopsCombine` | backend/src/monitoring.rs:1178-1209 | operations per second are at most that mean, and equal to it if and only if the 64-bit count does not saturate or one part had none |
| `DeviceRates.DiskLoadsCombine` | backend/src/monitoring.rs:1178-1209 | so are utilisation and average queue depth |
| `DeviceRates.AwaitsCombine` | backend/src/monitoring.rs:1178-1209 | read and write awaits are the means weighted by operations |
| `DeviceRates.DiskIdentityTellsDevices` | backend/src/monitoring.rs:1150 | identity strings agree only on the same boot and the same device numbers |
| `DeviceRates.FamilyObservedExactly` | backend/src/monitoring.rs:1342-1358 | a family is observed exactly when some member is, and lists its members whenever it has any |
| `RateOutcome.DiskIsMeant` | backend/src/monitoring.rs:1140-1209 | a disk's labels, its quality in every case, and each rate times its window or operations as the growth of its own counters against the last device of frame A with its numbers |
| `RateOutcome.FamilyIsMeant` | backend/src/monitoring.rs:1342-1358 | a family's quality is observed with any observed member, else its first member's, and unsupported without members |
| `NetworkRates.DeriveNetwork` | backend/src/monitoring.rs:1211-1296 | each interface of the name-ordered current table appears once, in ascending order of name, with its own outcome; missing sources decide in the stated order |
| `NetworkRates.InterfaceObservedExactly` | backend/src/monitoring.rs:1257-1294 | an interface is observed exactly when its index is known in both frames, boot and interval allow it and no counter fell |
| `NetworkRates.RenameIsFollowed` | backend/src/monitoring.rs:1248-1256 | an interface renamed between the frames keeps its rate, because only the index joins |
| `NetworkRates.GreatestNameWins` | backend/src/monitoring.rs:1248-1256 | among names sharing an index in frame A the greatest provides the counters |
| `NetworkRates.NetRatesCombine` | backend/src/monitoring.rs:1298-1340 | over two adjoining windows byte and packet rates are the time-weighted means of the parts |
| `NetworkRates.RxSharesCombine` | backend/src/monitoring.rs:1298-1340 | the share of bad received packets is at most the mean weighted by packets, and equal to it if and only if the 64-bit count of bad ones does not saturate or one part had none |
| `NetworkRates.TxSharesCombine` | backend/src/monitoring.rs:1298-1340 | sent packets likewise |
| `NetworkRates.UtilisationMeansShare` | backend/src/monitoring.rs:1298-1340 | utilisation times capacity gives back the bit rate, and is at most 100 exactly when the capacity is not exceeded |
| `RateOutcome.InterfaceIsMeant` | backend/src/monitoring.rs:1247-1340 | an interface's labels, its quality in every case, and each rate and share as the growth of its own counters against the last entry of frame A with its index |
| `RateOutcome.UnidentifiedIsListed` | backend/src/monitoring.rs:1257-1274 | an interface that frame B cannot identify is listed with a parse failure |
| `RateOutcome.MissingSourceDecides` | backend/src/monitoring.rs:1211-1245 | which missing source decides a network family |
| `ProcessSummary.Summarise` | backend/src/monitoring.rs:35 | the loop counts exactly the entries before it stops and says whether it was cut short |
| `ProcessSummary.SummaryOfListing` | backend/src/monitoring.rs:35 | running, blocked and zombie stay within scanned, scanned within 4096, and truncated is set exactly when 4096 were read and more remained |
| `ProcessSummary.CommandNameIsSkipped` | backend/src/monitoring.rs:35 | the state is read behind the last ") ", whatever the command name holds |
| `ProcessSummary.ParseProcessSummary` | backend/src/monitoring.rs:1643-1671 | the map-filling loop reads the last value of each key and accepts only bounded counters |
| `ProcessSummary.PrintedSummaryParses` | backend/src/monitoring.rs:1643-1671 | the printed line is read back as exactly the loop's counters if and only if fewer than 2^32 entries were unreadable |
| `SummaryOutcome.StateMeans` | backend/src/monitoring.rs:35 | a process's state is the first word behind the last ") " of its line, or of the whole line where there is none |
| `SummaryOutcome.SummaryIsMeant` | backend/src/monitoring.rs:35 | each number is how many of the entries looked at are of its kind, and the loop looks at as many as it takes to read 4096 |
| `SummaryOutcome.PrintedText` | backend/src/monitoring.rs:35 | the printed line, word for word |
| `SummaryOutcome.ParsedExactlyWhen` | backend/src/monitoring.rs:1643-1671 | a text is accepted as a summary exactly when its fields are pairs and the last of each key gives its number or flag, within 4096 and adding up |
| `EvidenceDiff.LastFactWins` | backend/src/discovery_diff.rs:59-64 | among facts that share a key the last one is kept |
| `EvidenceDiff.CreateDiff` | backend/src/discovery_diff.rs:143-210 | one item per key of either scan in ascending key order, each with its classification and references, and counts that match the items |
| `EvidenceDiff.DiffIsPatch` | backend/src/discovery_diff.rs:143-210 | applying a diff turns the previous digests into exactly the current ones, and reverting it gives back the previous |
| `EvidenceDiff.DiffsRebuildLatestScan` | backend/src/discovery_diff.rs:143-210 | folding the diffs of any chain of runs from nothing rebuilds the latest digests |
| `EvidenceDiff.DiffIsDetermined` | backend/src/discovery_diff.rs:143-210 | the specification of a diff admits one list of items only |
| `EvidenceDiff.MissingIsNeverConflict` | backend/src/discovery_diff.rs:160-182 | a key that is gone is missing and never a conflict; a conflict reason is present exactly on conflicts |
| `EvidenceDiff.ConflictsExactly` | backend/src/discovery_diff.rs:66-96 | a fact conflicts for a reason exactly when the first node that names it is archived, or stands against the confirmed node of its id for the first reason that applies |
| `EvidenceDiff.ItemsAreMeant` | backend/src/discovery_diff.rs:143-210 | every item's change, reason, kind, id and digests from the two facts under its key |
| `EvidenceDiff.TallyCounts` | backend/src/discovery_diff.rs:98-106 | a count is the number of items of that change |
| `EvidenceDiff.KeyIdentifiesFact` | backend/src/discovery_diff.rs:42-44 | facts share a key if and only if kind and external id agree, whatever characters the id holds |
| `Refresh.Coordinator.Request` | frontend/data-source.js:550-556 | the whole new state after a request, a drain being started exactly when none is live |
| `Refresh.Coordinator.Resume` | frontend/data-source.js:529-547 | the whole new state after an awaited run: next pending run or clean end |
| `Refresh.EveryRunIsSound` | frontend/data-source.js:522-558 | whatever the order of requests, settlements and resumptions, only the last drain is unfinished and tokens fit |
| `Refresh.OneRunInFlight` | frontend/data-source.js:529-556 | at most one refresh run is in flight, and it is the active one |
| `Refresh.StartedTokensIncrease` | frontend/data-source.js:550-556 | started tokens strictly increase and the n-th request holds token n |
| `Refresh.TicketsAreRequests` | frontend/data-source.js:550-556 | every ticket waiting or started carries the route of the request that took its token |
| `Refresh.Coordinator.RunIsCurrent` | frontend/data-source.js:538-540 | a run sees itself as current exactly when it is the active one, holds the latest token and the browser still shows its route |
| `Refresh.CurrentExactlyWhen` | frontend/data-source.js:538-540 | over every run a started request is current if and only if a drain is live, it was the last request and the browser shows the route of the last request |
| `Refresh.CurrentMeansNewest` | frontend/data-source.js:538-540 | a run that sees itself as current is the newest request with nothing waiting behind it |
| `Refresh.SupersededStaysSuperseded` | frontend/data-source.js:538-540 | a superseded run never again sees itself as current, on any route |
| `Refresh.FinishedStaysFinished` | frontend/data-source.js:538-547 | neither does a run the drain has moved on from |
| `Refresh.StrandedExactlyByRejection` | frontend/data-source.js:543-547 | a waiting request loses its drain exactly when the drain resumes from a rejected run |
| `Refresh.StrandedExactlyWhen` | frontend/data-source.js:529-556 | over every run a request is stranded if and only if some drain resumed from a rejected run while one waited and nothing was requested since |
| `Refresh.NoLostWakeUp` | frontend/app.js:922-996 | with runs that do not reject, a waiting request always has a live drain |
| `Refresh.RejectionStrands` | frontend/data-source.js:543-547 | a concrete stranded request, and the next request taking over |
| `Refresh.QuietMeansCaughtUp` | frontend/data-source.js:522-558 | at quiescence the last run started is the last one requested if and only if nothing is pending, which is if and only if no request was stranded; without rejections always |
| `Refresh.TwoRoundsSuffice` | frontend/data-source.js:529-547 | at most two more runs settle before everything is quiet |
| `Viewport.EveryNodeInside` | frontend/data-source.js:748-762 | one positive scale of at most 1 maps every node rectangle inside the viewport |
| `Viewport.CentredWhen` | frontend/data-source.js:754-759 | the bounding box is centred on an axis exactly when it extends over at least one unit |
| `Viewport.NoneIsBetter` | frontend/data-source.js:754-756 | whatever shift and scale up to 1 shows every node, the scale is at most the room the bounding box has on each axis |
| `Viewport.BestShowsAll` | frontend/data-source.js:754-756 | a transform with exactly that scale shows every node |
| `Viewport.LargestExactlyWhen` | frontend/data-source.js:748-762 | the fitted scale is the largest up to 1 that shows every node if and only if there are no nodes, neither ratio is below 1, or the smaller ratio is that of an axis on which the nodes reach one unit |
| `Viewport.SmallViewShrinksTooFar` | frontend/data-source.js:748-762 | a concrete node that fits its viewport and is shrunk to half its size |
| `RateLimit.RateLimiter.Check` | backend/src/auth.rs:1007-1026 | the whole new bucket table, admission, and the advertised wait |
| `RateLimit.AnswerMeans` | backend/src/auth.rs:1007-1026 | admission, the new bucket and the advertised whole seconds, from the bucket's own numbers |
| `RateLimit.LessThanTwiceTheLimit` | backend/src/auth.rs:1007-1026 | in any half-open interval one window long a key is accepted less than twice its limit |
| `RateLimit.SlidingBoundIsReached` | backend/src/auth.rs:1007-1026 | for every positive limit and window a run that reaches that bound |
| `RateLimit.AtMostTheLimitPerBucket` | backend/src/auth.rs:1015-1025 | every bucket a key ever had accepted at most the limit in its own window |
| `RateLimit.KeysAreIndependent` | backend/src/auth.rs:1009-1014 | a key's answers do not depend on checks of other keys |
| `RateLimit.AcceptedAgainWhen` | backend/src/auth.rs:1015-1022 | a refused idle key is accepted again exactly when the rest of its window has passed and the limit is positive |
| `RateLimit.AdvertisedWaitPlusOne` | backend/src/auth.rs:1019-1022 | waiting one second more than advertised always suffices |
| `RateLimit.AdvertisedWaitAlone` | backend/src/auth.rs:1019-1022 | the advertised wait alone suffices exactly when no fraction above whole seconds remains |
| `RateLimit.AdvertisedWaitCanFallShort` | backend/src/auth.rs:1019-1022 | a concrete refusal whose advertised wait is too short |
| `ConstantTime.ConstantTimeEq` | backend/src/auth.rs:920-929 | true exactly on equal byte strings, trailing zeros included |
| `ProjectGraphs.Graph.RemoveProject` | backend/src/data_management.rs:1309-1321 | the whole new snapshot and the list of removed ids |
| `ProjectGraphs.Graph.FilterProject` | backend/src/data_management.rs:1323-1343 | the whole new snapshot after an export filter |
| `ProjectGraphs.RemovalTakesExactly` | backend/src/data_management.rs:1309-1321 | exactly the nodes sharing an id with a project node go, and exactly the edges touching such an id |
| `ProjectGraphs.RetainKeepsOrder` | backend/src/data_management.rs:1316-1319 | what is kept stays in its order |
| `ProjectGraphs.RemovalIntroducesNoDangling` | backend/src/data_management.rs:1317-1319 | a surviving edge dangles afterwards exactly if it dangled before |
| `ProjectGraphs.RemovalEmptiesView` | frontend/data-source.js:722-735 | the frontend's view of a removed project is empty, and removing it again changes nothing |
| `ProjectGraphs.RemovalsCommute` | backend/src/data_management.rs:1309-1321 | which of two projects is removed first does not matter |
| `ProjectGraphs.ExportIsClosed` | backend/src/data_management.rs:1323-1343 | the export holds exactly the project's nodes and neighbours and the edges between them, none dangling |
| `ProjectGraphs.ExportKeepsProjectNode` | backend/src/data_management.rs:1323-1343 | the export of a snapshot that holds the project's own node still holds it |
| `ProjectRemoval.ProjectionStore.RemoveProjectFromSnapshots` | backend/src/data_management.rs:1216-1307 | all or nothing over drafts, layouts, versions and projects, with the exact outcome |
| `ProjectRemoval.ProjectionStore.ExportProject` | backend/src/data_management.rs:952-985 | the export holds exactly the filtered drafts with a node carrying the project id, and is refused as not found when there is none |
| `ProjectRemoval.ExportIsComplete` | backend/src/data_management.rs:952-985 | every draft with such a node is exported, and every exported snapshot still holds it |
| `ProjectRemoval.RemovedIsNotExported` | backend/src/data_management.rs:952-985 | after a removal the project's export is refused as not found |
| `ProjectRemoval.ExportedCanBeRemoved` | backend/src/data_management.rs:1216-1307 | what can be exported can be removed |
| `ProjectRemoval.ExactlyHoldersAreBumped` | backend/src/data_management.rs:1226-1256 | every draft row stays in place; exactly those holding a node of the project get one more revision and pending change, the others are untouched |
| `ProjectRemoval.LayoutsInClosedForm` | backend/src/data_management.rs:1257-1282 | a layout keeps in order exactly the positions none of its affected drafts lost, and takes the last one's revision, also when drafts share it |
| `ProjectOutcome.DraftsKeepTheRest` | backend/src/data_management.rs:1226-1256 | a draft that held the project keeps exactly the other nodes and the edges between them, in order, one revision on; any other is as it was |
| `ProjectOutcome.VersionsKeepTheRest` | backend/src/data_management.rs:1280-1294 | exactly the versions not bound to the project survive, in order, each with its id and all that is not the project's |
| `ProjectOutcome.LayoutsKeepTheRest` | backend/src/data_management.rs:1257-1279 | a layout keeps in order exactly the positions of nodes that no draft of it lost, with the last such draft's revision |
| `ProjectOutcome.OutcomeMeans` | backend/src/data_management.rs:1216-1307 | when a removal fails and why, and that exactly this project goes |
| `ProjectOutcome.ExportOutcomeMeans` | backend/src/data_management.rs:952-985 | when an export fails and why, and what each exported draft keeps |
| `ProjectRemoval.NothingShowsTheProject` | backend/src/data_management.rs:1216-1307 | afterwards no draft and no version shows anything of the project |
| `ProjectRemoval.SecondRemovalIsRefused` | backend/src/data_management.rs:1301-1306 | removing the same project again is refused as not found |
| `ProjectRemoval.RefusedExactlyWhenNoDraftHoldsIt` | backend/src/data_management.rs:1301-1306 | not found exactly when no draft holds a node of the project |
| `DocumentPaths.AdmittedExactly` | backend/src/discovery.rs:1057-1084 | a path is admitted exactly when it is the trimmed root, a slash and a readable relative path |
| `PathOutcome.AdmittedExactlyWhen` | backend/src/discovery.rs:1024-1084 | the same by characters and segments alone: both paths sane, the rest below the root, no private segment in lower case, and a document's name |
| `DocumentPaths.AdmittedStaysBelow` | backend/src/discovery.rs:1024-1084 | an admitted path's segments are the root's followed by the relative ones, none of them ".." |
| `DocumentPaths.RootBoundsExactlyWhen` | backend/src/discovery.rs:1024-1063 | a valid root keeps some readable path out if and only if it is more than slashes |
| `DocumentPaths.SlashesBoundNothing` | backend/src/discovery.rs:1024-1063 | the root "//" is valid and a file at the top of the file system is admitted below it |
| `DocumentPaths.RootIsOneArgument` | backend/src/discovery.rs:1032-1040 | the whole listing command reads as find with its fixed tests, the root being one argument behind the double dash |
| `DocumentPaths.FindInFull` | backend/src/discovery.rs:1032-1040 | every word the remote find receives |
| `DocumentPaths.PathIsOneArgument` | backend/src/discovery.rs:1042-1051 | the reading command hands its fixed script and the path on unchanged |
| `Documents.Captured` | backend/src/discovery.rs:715-717 | what is captured begins the content and is at most 64 KiB |
| `Documents.CapturedIsNearlyAll` | backend/src/discovery.rs:715-717 | at most three bytes are given up to keep characters whole |
| `Documents.PrintedDocumentParses` | backend/src/discovery.rs:699-763 | size, hash and content as printed are read back |
| `Documents.DocumentsReadExactly` | backend/src/discovery.rs:699-763 | which outputs are documents, and the size, hash, content and truncation each says |
| `Documents.CapturedIsLongest` | backend/src/discovery.rs:715-717 | what is captured is the longest beginning of at most 64 KiB that cuts no character |
| `Documents.Discovery.Action` | backend/src/discovery.rs:415-458 | a command succeeds only while total output is within 4 MiB |
| `Documents.Discovery.CollectDocuments` | backend/src/discovery.rs:215-271 | the documents read are the admitted ones in order, all of them unless a budget is used up; each is what the remote replied to its own reading command, each listing what it replied to its listing command |
| `Documents.Discovery.Discover` | backend/src/discovery.rs:87-302 | a successful discovery kept at most 32 documents from at most 8 roots, below 512 KiB + 64 KiB captured and within 4 MiB of output |
| `Documents.PlannedExactly` | backend/src/discovery.rs:225-262 | what there is to read is exactly the admitted paths on the listings' lines |
| `Documents.PlannedInOrder` | backend/src/discovery.rs:225-262 | listings are read in order, and their lines in order |
| `Documents.ChosenExactly` | backend/src/discovery.rs:216-222 | the first eight roots are listed, in byte order |

## Left out

- Event streams: session checks, keep-alives, the polling interval and SSE framing; one client at a time, since streams share only the log. Cursors are unbounded integers.
- `event_kind_for_request` and every HTTP route, header, cookie and audit record.
- Catalog payload columns (evidence references, metadata documents, fingerprints, display names of resources): they are copied, not decided upon. Row ids come from one counter in place of UUIDs.
- Catalog rows changed by users, target creation and deletion of hosts; column checks that would abort a transaction.
- White space is ASCII, and text limits count bytes where the source counts characters.
- JSON, YAML, regular expressions, redaction, SHA-256 and SSH are opaque: their results are parameters.
- `ChangeEvents.ChangeLog.Erase`: models the event table only, not the rest of a workspace deletion.
- `Batch.SlotsAreSeparate`: slots are chosen by action id; names map to ids through the profile's own list.
- `BatchScript.BatchCommand`: the four scripts that actions run in an inner shell are parameters, any texts without NUL; what they and the programs print is not modelled here.
- `ScriptRun.ScriptPrintsTranscript`: runs the commands the script uses and no others: `printf` with strings and newlines, `exec` on descriptor 3, assignments, a `case` of one pattern, `set` and `sleep`. Expansions inside and outside double quotes are not told apart, and what a group does is a parameter.
- `Shell.QuotedArgument`: braces, arithmetic, backquotes and expansions or comments inside a substitution stop the scan; here-documents, reserved words and field splitting are not modelled, and IO numbers and multi-character operators are read one by one.
- `CpuParsing.CoresObservedExactly`: cores are a map, so their listing order is not modelled.
- `DeviceRates.DeriveDiskIo`: disk and network tables are taken as parsed; `parse_diskstats`, `parse_network` and `parse_network_identity` are not modelled. Floating-point rounding and infinities are not modelled.
- Memory, load, filesystem capacity, uptime and online-CPU parsing: small pure readers.
- `Refresh.Coordinator.Request`: a run that calls `request` or throws before its first await is not modelled.
- `RateLimit.RateLimiter.Check`: the lock is not modelled, checks of one limiter happen one after another, as the lock makes them.
- `ConstantTime.ConstantTimeEq`: running time is not modelled.
- `ProjectRemoval.ProjectionStore.ExportProject`: the query's order by update time and the other sections of the export payload.
- Project removal: columns of other tables that the deleted project row cascades to, and the backup taken before. Revisions are unbounded integers.
- `Documents.Discovery.Discover`: the fixed provider commands and their parsers are parameters; audits are only counted.
- Redaction states of documents other than truncation.
- The delete barrier, monitoring schedules and roll-ups, projection drafting and the model provider.
