# Verified model of ncda's accounting engine

ncda watches file I/O of a whole system: an eBPF program records system calls, a reader parses
the records, and an accounting engine attributes them to paths, processes and containers and
keeps a tree, a process table and two rolling-rate structures up to date. This project models
that engine from the system call to the rows of the file views and proves that its fast forms
agree with simple ones, for all inputs, runs and interleavings.

- **Ingestion** (`Attribution`, `Ledger`, `Coalescing`, `App`, `Effects`, `Batching`, `AppLaws`,
  `AppRuns`, `RootActivity`, `Conservation`): a batch is not applied event by event; reads and writes are merged
  per descriptor, and lifecycle events flush only what they could affect. Batched ingestion is proved
  equal to single-event ingestion in the whole state, by a frame argument about the descriptor cache
  and by laws under which groups commute and merge. `AppRuns` and `RootActivity` lift the results to
  every state reachable by batches, queries, losses, rediscovery and resets.
- **Rates** (`Buckets`, `RateTracker`, `EventLog`, `RateRuns`, `RateTheorems`, `RateAnswers`,
  `RateWindows`): 64 buckets with lazy expiry, proved against the whole history of what was ever
  recorded.
- **Tree** (`Tree`, `TreeLaws`, `Stats`, `Processes`, `ProcessOrder`): incremental aggregation against
  recomputation, removal through the reverse index against a scan.
- **Filter and views** (`Filter`, `Filtered`, `Ordering`, `Views`).
- **Paths** (`Render`, `Normalize`, `Spelling`, `Resolve`, `Links`, `Tidy`, `Provenance`): rendering on top of UTF-8
  (section 4 of RFC 3629), lexical normalization, procfs resolution and exclusion. They discharge
  the conditions on path spellings that the other parts need.
- **Capture** (`Records`, `Capture`, `CaptureRuns`, `Reader`, `EndToEnd`): the per-thread stashes of the
  eBPF program, the record layout and its parser, batch draining and shutdown.

Classes model what the program updates in place; each method is proved against a function of the
old state, and lemmas are about those functions: what they keep, and what they come to in terms of
the inputs alone. Tables are visited in an order that Dafny leaves
open, so order independence is part of every result.

## Findings

- Two spellings of one leaf make the reverse index depend on the order of activity
  (`TreeLaws.SpellingOrderMatters` says exactly when). Resolution never produces such spellings for
  one process while its container name stays the same, so within one batch the order does not show:
  batched and single ingestion of equal states end with equal indexes, however those states spell
  what they had indexed before (`Batching.IngestBothWays`).
- The prefix index counts a path that starts with two slashes twice at `/`, so it is exact there
  exactly when no live path does (`RateAnswers.RootIndexExactIff`). Resolution never produces such
  a path (`AppRuns.ReachedTidy`).
- The tree skips activity on `/` itself while the process table counts it. In every reachable state
  the row of a process is its total over the tree and its activity on `/` since it last ended
  (`RootActivity.ReachedAccounts`), so the two agree, and filtering by a process shows its row,
  exactly when that activity is nothing or the total is saturated anyway
  (`RootActivity.ReachedExactIff`, `ReachedPidFilterIsRowIff`). Opening `/` itself resolves to `/` and
  breaks the agreement (`RootActivity.RootOpenBreaksExact`).
- Excluding a prefix excludes the subtree of the place it names exactly when the prefix, without
  trailing slashes, is empty or canonical (`Spelling.ExclusionIsSubtreeIff`). Any other prefix, such as
  `/a//b` or a relative one, does not even exclude the place that it names
  (`Spelling.SloppyPrefixMisses`), and the command line accepts it unchecked.
- Procfs marks unlinked files by the suffix ` (deleted)`, so a file whose own name ends in it is
  taken for the file without it (`Links.SuffixIsLost`). Two files resolve alike exactly when their
  links lead to the same place without that suffix (`Links.LinksAlikeIff`).
- The cap of 64 buckets is lossless exactly for windows of at most 63 times 2^64 - 1 nanoseconds
  (`RateTheorems.CapIsLosslessIff`); beyond that the bucket width is clamped.

## Model

| member | source | states |
|---|---|---|
| `App.AppState.Ingest` | ncda/src/tui/app.rs:118-186 | a batch leaves memory, tree, process table, both rate structures, diagnostic counters and tallies exactly as ingesting its events one at a time would, whatever order the flushes take, and loss counters alone; whatever an index has gained since any earlier index `base` stays canonical |
| `App.AppState.IngestEach` | ncda/src/tui/app.rs:118-186 | the reference: every event as a batch of its own |
| `Batching.IngestBothWays` | ncda/src/tui/app.rs:118-186 | two equal states, one ingesting a batch and the other its events one at a time, end equal in everything: also in the reverse index with its spellings and reference counts and in the catalogue of the event log, whatever was indexed before and however it is spelled |
| `App.SinglesConcat` | ncda/src/tui/app.rs:118-186 | ingesting a concatenation is ingesting its parts one after the other |
| `App.CountedConcat` | ncda/src/tui/app.rs:383-389 | tallying a concatenation of events is tallying its parts one after the other |
| `App.AccumulateIoGroup` | ncda/src/tui/app.rs:57-74 | the position table and the live slots stay in bijection, so the `expect` cannot fail, and flushing the longer table is flushing the old one and then recording the new I/O by itself, from every calm state |
| `App.AppState.FlushIoKey` | ncda/src/tui/app.rs:266-278 | taking one group out of turn and recording it now changes nothing about the outcome of flushing everything; the `expect` cannot fail |
| `App.AppState.FlushFdGroups` | ncda/src/tui/app.rs:254-264 | recording the waiting read and write of one descriptor now changes nothing about the outcome of flushing everything |
| `App.AppState.FlushKeys` | ncda/src/tui/app.rs:219-246 | recording any waiting groups now, in any order, changes nothing about the outcome of flushing everything |
| `App.AppState.FlushLifecycleGroups` | ncda/src/tui/app.rs:199-252 | after it no group that the event could affect is waiting, and the outcome of flushing everything is unchanged |
| `App.AppState.FlushIoGroups` | ncda/src/tui/app.rs:188-197 | the remaining groups are recorded in first-seen order |
| `App.AppState.RecordIoGroup` | ncda/src/tui/app.rs:280-306 | one group is resolved, counted, excluded, decorated and recorded in all four structures as the specification of one group says |
| `App.AppState.ResolveFdPath` | ncda/src/tui/app.rs:397-415 | cached path or resolution of an existing descriptor, with what is remembered and counted; canonical paths in, canonical path out |
| `App.AppState.ResolveOpened` | ncda/src/tui/app.rs:310-330 | the resolution of an opened file, with what is remembered and counted; canonical whenever resolution is |
| `App.AppState.Credit` | ncda/src/tui/app.rs:289-305 | excluded paths leave everything alone; other paths are recorded under the remembered container name, and what the index gains is canonical |
| `App.AppState.Record` | ncda/src/tui/app.rs:299-305 | tree, process table and, for I/O, both rate structures gain the same activity |
| `App.AppState.IngestOpen` | ncda/src/tui/app.rs:309-339 | an open, in full |
| `App.AppState.IngestClose` | ncda/src/tui/app.rs:340-349 | a close is credited before the descriptor is forgotten |
| `App.AppState.IngestDup` | ncda/src/tui/app.rs:350-363 | a duplicate takes the path of its source, and only that |
| `App.AppState.Redirect` | ncda/src/tui/app.rs:357-362 | the new descriptor loses its own path and takes the path of the source, if there is one; duplicating a descriptor onto itself forgets nothing |
| `App.AppState.IngestCloseRange` | ncda/src/tui/app.rs:364-372 | a closed range forgets exactly the descriptors of the process from its first to its last, unless bit 2 of the flags says that they are only marked close-on-exec; every other path stays |
| `App.AppState.IngestEnd` | ncda/src/tui/app.rs:373-378 | exec and exit forget the process everywhere but in the statistics of tree nodes |
| `App.AppState.IngestLifecycle` | ncda/src/tui/app.rs:308-381 | every lifecycle event has the effect that the pure specification gives it |
| `App.AppState.RecordIoOutcome` | ncda/src/tui/app.rs:383-389 | failures and empty transfers only touch their own counters |
| `App.AppState.CountEvents` | ncda/src/tui/app.rs:119-121 | the events of a batch are counted, saturating, and nothing else changes |
| `App.AppState.UpdateDropTotal` | ncda/src/tui/app.rs:435-443 | only new losses discard attribution, and then all of it; dropped events are those since the last reset |
| `App.AppState.Reset` | ncda/src/tui/app.rs:445-458 | all activity is gone, knowledge about descriptors stays, and losses so far no longer count |
| `App.AppState.ResetCounters` | ncda/src/tui/app.rs:450-457 | all counters start again, with the losses so far as the baseline |
| `Effects.RangeForgets` | ncda/src/tui/app.rs:364-372 | after a range close a descriptor is known exactly if it was before and the range or its flags spare it, under its old path; nothing else changes |
| `Effects.CloseForgets` | ncda/src/tui/app.rs:340-349 | after a close exactly its descriptor is unknown |
| `Effects.DuplicateTakes` | ncda/src/tui/app.rs:350-363 | afterwards both descriptors name what the source names, or neither is known if it is no file; others are untouched |
| `Effects.EndForgets` | ncda/src/tui/app.rs:373-378 | afterwards descriptors, root, name and row of exactly this process are gone |
| `Effects.OpenRemembers` | ncda/src/tui/app.rs:309-339 | an opened file is remembered under its descriptor, however it resolved; something that is no file changes nothing |
| `Effects.TransferRemembers` | ncda/src/tui/app.rs:397-415 | a transfer remembers what it looked up; one that moved nothing changes nothing at all |
| `Effects.ProcessRemembered` | ncda/src/tui/app.rs:293-298 | a transfer fills the memo of names exactly when it credits activity, and that of roots exactly when procfs resolution looks at the root |
| `Effects.OpenerRemembered` | ncda/src/tui/app.rs:309-339 | an open does the same |
| `Effects.TransferAttributed` | ncda/src/tui/app.rs:280-306 | a transfer that moved something is attributed to what its descriptor names, under `/[container]`, with its bytes, one operation, its latency and its bytes for the rates; excluded paths and descriptors that are no files are attributed to nothing |
| `Effects.OpenAttributed` | ncda/src/tui/app.rs:309-339 | an open is attributed as one operation, without bytes |
| `Effects.CloseAttributed` | ncda/src/tui/app.rs:340-349 | a close is attributed as one operation if its descriptor is remembered |
| `Effects.OthersUnattributed` | ncda/src/tui/app.rs:350-378 | duplications, range closes, exec and exit are attributed to nothing |
| `Effects.TallyCounts` | ncda/src/tui/app.rs:383-389 | over a run the tallies are the numbers of events, of failed transfers and of transfers of nothing, saturated |
| `Effects.TroublesCounted` | ncda/src/tui/app.rs:397-415 | over a run the diagnostic counters gain the numbers of events whose descriptor did not resolve, or is no file, saturated |
| `App.FdPathCache.RootFor` | ncda/src/bpf.rs:686-693 | a process root is read once and then remembered |
| `App.FdPathCache.OnCloseRange` | ncda/src/bpf.rs:638-644 | exactly the descriptors of the range are forgotten, or none for close-on-exec (flag 4), and the others keep their paths |
| `App.FdPathCache.OnProcessReset` | ncda/src/bpf.rs:646-649 | exactly the entries of the process are forgotten |
| `App.FdPathCache.InvalidateAll` | ncda/src/bpf.rs:652-655 | all descriptors and process roots are forgotten |
| `App.ContainerResolver.Resolve` | ncda/src/container.rs:66-73 | a container name is looked up once and then remembered |
| `App.ContainerResolver.InvalidatePid` | ncda/src/container.rs:75-77 | exactly the name of the process is forgotten |
| `App.ContainerResolver.ReplaceDiscovery` | ncda/src/container.rs:58-62 | every remembered name is forgotten, so new names apply to every process from then on |
| `Coalescing.EventFirst` | ncda/src/tui/app.rs:199-252 | an event that affects no waiting group may be applied before all of them |
| `Coalescing.TakeOut` | ncda/src/tui/app.rs:266-278 | any waiting group may be recorded first |
| `Coalescing.JoinWaiting` | ncda/src/tui/app.rs:65-69 | I/O merged into a waiting group is I/O recorded at the end |
| `Coalescing.JoinLast` | ncda/src/tui/app.rs:70-73 | I/O that opens a group is I/O recorded at the end |
| `Coalescing.RecordFirst` | ncda/src/tui/app.rs:188-197 | recording something now or after all waiting groups is the same |
| `Coalescing.GroupsSwap` | ncda/src/tui/app.rs:280-306 | recording two groups in either order leaves the same state |
| `Coalescing.GroupsJoin` | ncda/src/tui/app.rs:39-44 | recording two groups with one key is recording their accumulation |
| `Coalescing.EventPasses` | ncda/src/tui/app.rs:308-381 | an event commutes with recording a group it does not affect |
| `Coalescing.CalmLater` | ncda/src/rate.rs:54-87 | the shape that ingestion needs of the rate structures survives time and queries |
| `Attribution.UnflushedUnseen` | ncda/src/tui/app.rs:199-252 | the cache frame: an event leaves what is known about the descriptor of every group it does not flush exactly as it was |
| `Attribution.UnflushedApart` | ncda/src/bpf.rs:630-655 | such an event neither stores nor drops that path, and looks at it in no way that matters |
| `Attribution.EventPassesGroup` | ncda/src/tui/app.rs:308-381 | in either order the same is remembered and each adds the same |
| `Attribution.GroupsCommute` | ncda/src/tui/app.rs:397-415 | two groups remember the same and count the same failures in either order, even when they share a descriptor |
| `Attribution.GroupsMerge` | ncda/src/tui/app.rs:280-288 | the accumulation of two groups counts as many failures and ignored operations as the two |
| `Ledgers.TreeSwap` | ncda/src/model.rs:212-264 | recording at two places commutes, also where the paths overlap |
| `Ledgers.TreeMerge` | ncda/src/model.rs:212-264 | recording twice at one place is recording the sum |
| `Ledgers.TreePasses` | ncda/src/model.rs:287-305 | recording for one process commutes with removing another |
| `Ledgers.EmitTrades` | ncda/src/tui/app.rs:280-306 | two updates may trade places in the whole ledger |
| `Ledgers.EmitMerges` | ncda/src/tui/app.rs:280-306 | two updates of one key are their merged update in the whole ledger |
| `Ledgers.EmitPasses` | ncda/src/tui/app.rs:373-378 | an update commutes with the end of another process |
| `AppRuns.GlobalRateIsRootRate` | ncda/src/tui/app.rs:303-305 | in every state reachable by batches, queries, losses, rediscovery and resets, the global rate and the rate of `/` have the same numerator at any common time |
| `AppRuns.ReachedIndexIsScan` | ncda/src/rate.rs:230-248 | in every reachable state the O(1) lookup answers any non-empty prefix, `/` included, as a scan of all activities would |
| `AppRuns.RatesFollow` | ncda/src/rate.rs:54-87 | in every reachable state each rate structure is what its own history of records and queries makes of it |
| `AppRuns.SameHistory` | ncda/src/tui/app.rs:303-305 | both histories contain the same activity |
| `AppRuns.ReachedTidy` | ncda/src/tui/app.rs:293-305 | no path that is recorded ever starts with two slashes |
| `AppRuns.ReachedCalm` | ncda/src/tui/app.rs:118-186 | what `Ingest` requires of the rate structures holds before every batch |
| `AppRuns.ReachedSound` | ncda/src/model.rs:320-333 | every reachable tree is well formed with recomputable aggregates, every entry counts, and no process exceeds its row in the process table |
| `AppRuns.ReachedDirectories` | ncda/src/model.rs:223-230 | in every reachable tree exactly the root and the nodes that have children are directories |
| `AppRuns.ReachedRateWithinWindow` | ncda/src/rate.rs:78-99 | in every reachable state the global rate counts at least what was recorded within the window and at most what was recorded within the window and one bucket |
| `AppRuns.ReachedPrefixWithinWindow` | ncda/src/rate.rs:230-232 | the same holds for the rate of every non-empty prefix, `/` included |
| `AppRuns.ReachedFilteredWithinWindow` | ncda/src/rate.rs:233-248 | the same holds for every filtered rate, whose sum never overflows |
| `AppRuns.SameViewSameState` | ncda/src/tui/app.rs:118-186 | the parts of the state that a view leaves out (reverse index with its spellings and counts, interned paths) are determined by it and by the index at any earlier time |
| `AppLaws.RunSound` | ncda/src/model.rs:320-333 | every run of events keeps the tree sound |
| `AppLaws.ExactIff` | ncda/src/model.rs:213-216 | recording keeps process table and tree in agreement exactly when the path names something below `/` or the row is saturated anyway |
| `AppLaws.PidFilterIsRowIff` | ncda/src/tui/filter.rs:92-117 | filtering the root by a process gives its process panel row, or none if there is none, exactly when tree and process table agree about it |
| `RootActivity.RunAccounts` | ncda/src/tui/app.rs:299-302 | over every run of events the row of a process stays the sum of its total over the tree and its activity on `/` since it last ended |
| `RootActivity.RunExactIff` | ncda/src/tui/app.rs:299-302 | after a run process table and tree agree exactly when for every process the activity on `/` is nothing or saturated away |
| `RootActivity.RunExact` | ncda/src/model.rs:213-216 | a run none of whose own events is attributed to `/` keeps them in agreement |
| `RootActivity.ReachedAccounts` | ncda/src/tui/app.rs:299-302 | in every reachable state a row is tree total plus activity on `/`, and there is a row exactly if there is either |
| `RootActivity.ReachedExactIff` | ncda/src/model.rs:213-216 | in every reachable state process table and tree agree exactly when no activity on `/` shows |
| `RootActivity.ReachedPidFilterIsRowIff` | ncda/src/tui/filter.rs:92-117 | in every reachable state filtering the root by a process gives its process panel row exactly when its activity on `/` does not show |
| `RootActivity.ReachedExact` | ncda/src/tui/app.rs:299-302 | if no event so far was attributed to `/`, table and tree agree and filtering the root by any process gives its row |
| `RootActivity.RootOpenResolves` | ncda/src/bpf.rs:586-594 | an open of `/` itself is attributed to `/`, whatever the root directory of the process, unless procfs says that the descriptor is no file |
| `RootActivity.RootOpenBreaksExact` | ncda/src/model.rs:213-216 | such an open by a process without a row ends the agreement |
| `Conservation.RootConserves` | ncda/src/model.rs:212-264 | over every run of events each counter of the root gains exactly the contributions of the attributed events, saturated, and process ends take nothing away |
| `Conservation.UpdateStats` | ncda/src/model.rs:51-83 | an attributed event contributes its bytes, its operation and its latency to the counters of its own kind, and nothing to the others |
| `Conservation.RootPeaks` | ncda/src/model.rs:36-45 | the maximal latency of the root is the largest one among attributed reads and writes, or an earlier one |
| `Provenance.GroupKeeps` | ncda/src/tui/app.rs:397-415 | a property of everything that resolution produces holds of everything a group remembers and records |
| `Provenance.EventKeeps` | ncda/src/tui/app.rs:308-381 | a property of everything that resolution produces holds of everything a lifecycle event remembers and records |
| `Tidying.GrownDetermined` | ncda/src/model.rs:234-263 | two indexes of one tree that have both grown by canonical spellings from one earlier index, whatever that one contains, are equal, reference counts included |
| `Tidying.GrownRecorded` | ncda/src/tui/app.rs:293-299 | indexing a decorated canonical path is growth by a canonical spelling |
| `Tidying.GrownEnded` | ncda/src/tui/app.rs:373-378 | growth survives the end of a process, in the earlier index and in the later one |
| `RateTracking.RateTracker.RecordAt` | ncda/src/rate.rs:54-76 | bucket merging, the running sum and the cap, as one function of the old state |
| `RateTracking.RateTracker.BytesAt` | ncda/src/rate.rs:78-86 | the numerator of the global rate, and the expiry that asking causes |
| `RateTracking.RateTracker.ExpireBuckets` | ncda/src/rate.rs:89-99 | exactly the expired front buckets leave, with their bytes |
| `RateTracking.RateTracker.TrimBuckets` | ncda/src/rate.rs:101-106 | only buckets beyond the cap leave, oldest first |
| `RateTracking.RateTracker.Reset` | ncda/src/rate.rs:50-52 | nothing is left |
| `RateTracking.RecordRateReady` | ncda/src/rate.rs:54-76 | recording keeps the bucket discipline and the cap discards nothing |
| `RateTracking.RecordRateMerges` | ncda/src/rate.rs:54-76 | two amounts recorded at one instant count as their saturated sum |
| `EventLogging.EventLog.RecordAt` | ncda/src/rate.rs:166-216 | the whole event log after a record, with its catalogue of interned paths intact |
| `EventLogging.EventLog.RemoveBucket` | ncda/src/rate.rs:281-301 | a bucket takes exactly its own bytes out of activities and prefix totals and releases paths without activity |
| `EventLogging.EventLog.ExpireBuckets` | ncda/src/rate.rs:262-272 | exactly the expired front buckets leave |
| `EventLogging.EventLog.TrimBuckets` | ncda/src/rate.rs:274-279 | only buckets beyond the cap leave, oldest first |
| `EventLogging.EventLog.AddTotals` | ncda/src/rate.rs:173-199 | activities and prefix totals gain the bytes, and a newly active path is interned and counted |
| `EventLogging.EventLog.AddToBucket` | ncda/src/rate.rs:201-214 | the newest bucket takes the bytes while it is young enough, a new one otherwise |
| `EventLogging.EventLog.DebitActivity` | ncda/src/rate.rs:283-298 | an activity loses the bytes; without any left it goes, and with it the last trace of an idle path |
| `EventLogging.EventLog.VisitPrefix` | ncda/src/rate.rs:304-317 | one visit adjusts one prefix, so that all visits so far add up |
| `EventLogging.EventLog.Reset` | ncda/src/rate.rs:162-164 | nothing is left |
| `EventLogging.EventLog.AdjustPrefixTotals` | ncda/src/rate.rs:303-318 | every prefix is adjusted by what all its visits charge, and empty totals disappear |
| `EventLogging.EventLog.BytesForPrefixAt` | ncda/src/rate.rs:218-250 | the numerator of a prefix rate: an index lookup without a filter, the matching activities with one |
| `EventLogging.EventLog.ScanActivities` | ncda/src/rate.rs:232-247 | a filtered query sums exactly the matching activities, in any order |
| `EventLogging.OneTermScans` | ncda/src/tui/filter.rs:75-85 | a term adds up exactly the activities whose lower-case command, container or path contains it, or whose process id it is; a process without a row has neither command nor container |
| `EventLogging.TermsScan` | ncda/src/tui/filter.rs:75-85 | several terms must all hold, a free term holds for any of the fields, and no term holds for everything |
| `EventLogging.VisitsExactly` | ncda/src/rate.rs:320-340 | a prefix is charged once for every path it matches; only `/` is charged twice, for paths that start with two slashes |
| `EventLogging.RecordEventReady` | ncda/src/rate.rs:166-216 | recording keeps the bucket discipline and the cap discards nothing |
| `EventLogging.RecordEventLaws` | ncda/src/rate.rs:166-216 | records made at one instant commute, and merge when they share a key |
| `EventLogging.CatalogueDetermined` | ncda/src/rate.rs:119-138 | interned paths and process counts are a function of the activities |
| `RateRuns.LazyIsEager` | ncda/src/rate.rs:89-99 | lazy expiry during queries leaves the same live buckets as bucketing the whole history and expiring once |
| `RateRuns.WindowSandwich` | ncda/src/rate.rs:54-106 | live activity is a suffix of the history: everything inside the window, nothing older than the window and one bucket |
| `RateTheorems.CapIsLosslessIff` | ncda/src/rate.rs:12-12 | no run with a monotone clock ever exceeds the cap of 64 buckets, exactly when the bucket width is not clamped |
| `RateTheorems.CapIsReached` | ncda/src/rate.rs:253-260 | the divisor 63 is tight: some run fills all 64 buckets |
| `RateTheorems.RateQueriesArePure` | ncda/src/rate.rs:78-86 | queries of the tracker, with their lazy expiry, change no later answer |
| `RateTheorems.EventQueriesArePure` | ncda/src/rate.rs:218-250 | queries of the log, with their lazy expiry, change no later state of the log |
| `RateAnswers.RateRunRefines` | ncda/src/rate.rs:54-106 | without overflow the running sum is the sum over the live history, bucket by bucket |
| `RateAnswers.EventRunRefines` | ncda/src/rate.rs:166-216 | without overflow activities are the key-wise sums of the live history and prefix totals its charges, all positive |
| `RateAnswers.RateWithinWindow` | ncda/src/rate.rs:78-99 | an answer is at least the bytes of the window and at most those of the window and one bucket |
| `RateAnswers.PrefixIndexIsScan` | ncda/src/rate.rs:230-248 | the index agrees with a scan for every non-empty prefix, up to paths with two leading slashes at `/` |
| `RateAnswers.RootIndexExactIff` | ncda/src/rate.rs:320-332 | at `/` it agrees exactly when no live path starts with two slashes |
| `RateAnswers.GlobalIsRoot` | ncda/src/tui/app.rs:303-305 | tracker and log agree on the total whenever they were fed the same activity |
| `RateAnswers.EventuallyQuiet` | ncda/src/rate.rs:281-301 | once all activity has left the window the log is empty, totals and index included |
| `RateWindows.KeysWithinWindow` | ncda/src/rate.rs:166-250 | whatever set of activities is asked for, the log finds at least the bytes recorded for it within the window, at most those within the window and one bucket, and their sum fits into 64 bits |
| `RateWindows.PrefixIsSubtree` | ncda/src/rate.rs:334-340 | a prefix in canonical spelling matches exactly the paths below its place in the tree |
| `RateWindows.PrefixWithinWindow` | ncda/src/rate.rs:230-232 | so does the index lookup of a prefix, at `/` as long as no path starts with two slashes |
| `RateWindows.FilteredWithinWindow` | ncda/src/rate.rs:233-248 | so does the scan of a filtered query |
| `Buckets.RoomForOne` | ncda/src/rate.rs:253-260 | after expiry there is always room for one more bucket |
| `Tree.FileTree.RecordStats` | ncda/src/model.rs:212-264 | every node on the path gains the delta, the leaf also directly; new nodes get their names, exactly the nodes before the leaf become directories, and the index keeps the first spelling of each leaf |
| `Tree.FileTree.Walk` | ncda/src/model.rs:219-232 | the walk creates and credits exactly the nodes on the way, and makes directories of all but the last |
| `Tree.FileTree.IndexActivity` | ncda/src/model.rs:248-262 | a first visit is indexed and counted |
| `Tree.FileTree.RemoveProcess` | ncda/src/model.rs:287-305 | removal through the index gives the tree that deleting the process from every node would give, under any aliases, and the index stays exact |
| `Tree.FileTree.RemoveOne` | ncda/src/model.rs:291-304 | one indexed spelling clears one leaf and releases one reference |
| `Tree.FileTree.RemoveFrom` | ncda/src/model.rs:288-304 | any order of the indexed spellings clears exactly their leaves |
| `Tree.FileTree.Release` | ncda/src/model.rs:297-303 | one reference fewer, and none kept at zero |
| `Tree.FileTree.Reset` | ncda/src/model.rs:276-280 | an empty tree with an empty index |
| `Tree.FileTree.FindNode` | ncda/src/model.rs:308-314 | a path finds its node exactly when the tree has it |
| `Tree.RecordedPasses` | ncda/src/model.rs:223-230 | recording makes directories of exactly the nodes it passes through |
| `Tree.RecordedDirectories` | ncda/src/model.rs:223-230 | so directories stay exactly the root and the nodes with children |
| `TreeLaws.RecordedKeepsAggregates` | ncda/src/model.rs:212-264 | after recording, every aggregate is its own statistics and the aggregates of its children |
| `TreeLaws.RemovedKeepsAggregates` | ncda/src/model.rs:287-305 | after a removal, every aggregate is still its own statistics and the aggregates of its children |
| `TreeLaws.AggregateIsRecomputed` | ncda/src/model.rs:320-333 | an aggregate equals the recursive recomputation over the subtree |
| `TreeLaws.IndexDetermined` | ncda/src/model.rs:234-263 | two indexes of one tree are equal exactly when they spell common leaves alike |
| `TreeLaws.SpellingOrderMatters` | ncda/src/model.rs:244-262 | two first visits give the same index in either order exactly when they do not spell one leaf in two ways |
| `TreeLaws.AliasesExist` | ncda/src/model.rs:213-216 | every leaf can be spelled in more than one way |
| `TreeLaws.RecordedKeepsEntries` | ncda/src/model.rs:240-262 | entries of processes never exceed the statistics of their node, and every entry counts operations |
| `Stats.AccumulateMonoid` | ncda/src/model.rs:36-45 | saturating statistics form a commutative monoid, so no overflow hypothesis is needed |
| `Stats.SumSplit` | ncda/src/model.rs:36-45 | a table of statistics may be combined in parts and in any order |
| `Stats.Figures` | ncda/src/model.rs:20-34 | the shown totals are saturated sums, and the latency is averaged over reads and writes, zero without any |
| `Processes.ProcessTable.RecordStatsWithContext` | ncda/src/process.rs:84-103 | a row is created on first use, keeps its first container and gains the delta |
| `Processes.ProcessTable.Remove` | ncda/src/process.rs:130-132 | exactly the row of the process is gone |
| `Processes.ProcessTable.Reset` | ncda/src/process.rs:134-136 | no row is left |
| `Processes.RecordedKeyed` | ncda/src/process.rs:84-103 | rows stay under their own process id |
| `Processes.RecordedLaws` | ncda/src/process.rs:84-103 | activity of one process commutes and merges |
| `Processes.RowRemembers` | ncda/src/process.rs:84-103 | over any number of recordings a row keeps the name that the process had at first and the first container that was known of it |
| `ProcessOrder.Sorted` | ncda/src/process.rs:105-122 | the process panel shows all rows in the one order that the sort key and process ids determine, however the table is visited |
| `ProcessOrder.BeforeLaws` | ncda/src/process.rs:105-122 | that order is irreflexive, transitive and total on different process ids, ascending or descending |
| `ProcessOrder.PanelSorted` | ncda/src/process.rs:105-122 | each sort key orders by its own figure, downwards if descending, and equal rows by process id, upwards |
| `Filtered.FilteredStats` | ncda/src/tui/filter.rs:92-117 | the recursive walk combines exactly the matching entries of the subtree, in any order of tables, and reports none only if none matches |
| `Filtered.OwnStats` | ncda/src/tui/filter.rs:102-107 | the direct entries of a node that match, combined in any order |
| `Filtered.MatchingPids` | ncda/src/tui/filter.rs:119-148 | exactly the processes of matching entries |
| `Filtered.VisitPids` | ncda/src/tui/filter.rs:124-140 | a visit adds exactly the processes of matching entries of the subtree |
| `Filtered.MatchingWithinAggregate` | ncda/src/tui/filter.rs:88-117 | filtered statistics never exceed the aggregate, componentwise |
| `Filtered.AnotherTermNarrows` | ncda/src/tui/filter.rs:59-86 | another filter term never adds anything |
| `Filtered.AnswerIffPids` | ncda/src/tui/filter.rs:92-148 | at the root there is an answer exactly when some process matches |
| `Filtered.PidFilterIsTotal` | ncda/src/tui/filter.rs:92-117 | filtering by a process gives its total over the tree |
| `Filter.MatchesAll` | ncda/src/tui/filter.rs:59-86 | a query matches exactly if each of its terms stands somewhere in the field that it names |
| `Filtered.MatchingExactly` | ncda/src/tui/filter.rs:92-117 | exactly the entries at or below the place for which every term holds are combined, with their own statistics |
| `Filtered.ProcessFilterCombines` | ncda/src/tui/filter.rs:83-83 | `process:v` combines exactly the entries of processes whose row has `v` in its lower-case command |
| `Filtered.ContainerFilterCombines` | ncda/src/tui/filter.rs:84-84 | `container:v` combines exactly the entries of processes whose row has `v` in its lower-case container |
| `Filtered.PathFilterCombines` | ncda/src/tui/filter.rs:81-81 | `path:v` combines exactly the entries of nodes with `v` in their lower-case path |
| `Filtered.FreeTermCombines` | ncda/src/tui/filter.rs:75-80 | a free term combines what the fields would one by one, or what has it in the decimal process id |
| `Filtered.TermsIntersect` | ncda/src/tui/filter.rs:75-85 | another term combines exactly what both the query and the term would |
| `Views.VisibleRows` | ncda/src/tui/flat_view.rs:26-69 | the flat view shows exactly the matching children of the directory, in the one order that key and names determine |
| `Views.GetNode` | ncda/src/model.rs:267-273 | a component path finds its node exactly when the tree has it |
| `Views.SortedRows` | ncda/src/tui/tree_view.rs:59-84 | collecting in any order and sorting gives that order |
| `Views.Flatten` | ncda/src/tui/tree_view.rs:34-48 | the tree view is the preorder of expanded directories |
| `Views.FlattenRecurse` | ncda/src/tui/tree_view.rs:51-116 | the shared component stack is restored, and the lines of the subtree are appended |
| `Views.ViewsAgree` | ncda/src/tui/tree_view.rs:51-116 | under the root and under every expanded directory the tree view shows exactly the rows of the flat view of that directory, in the same order with the same statistics |
| `Views.LinesDiffer` | ncda/src/tui/tree_view.rs:86-116 | no place is shown twice |
| `Views.LinesPreordered` | ncda/src/tui/tree_view.rs:86-116 | what lies under a line follows it directly and without interruption |
| `Views.LinesShow` | ncda/src/tui/tree_view.rs:86-103 | every line describes the node at its path: depth, name, kind, expansion and all its figures |
| `Views.RowsShow` | ncda/src/tui/flat_view.rs:39-54 | a name is shown exactly if that child has matching activity, with its path, kind and statistics |
| `Views.RowsSorted` | ncda/src/tui/flat_view.rs:55-68 | each sort key orders by its own figure, downwards if descending, and equal rows by name, upwards |
| `Views.TextLeadsBack` | ncda/src/tui/flat_view.rs:34-41 | the path shown for a place is its canonical spelling and leads back to it |
| `Views.BeforeLaws` | ncda/src/tui/flat_view.rs:55-68 | the order of rows is irreflexive, transitive and total on different names |
| `Ordering.Sort` | ncda/src/tui/flat_view.rs:55-68 | sorting by a strict order gives the same sequence for every input order |
| `Ordering.OneArrangement` | ncda/src/tui/flat_view.rs:55-68 | a set has only one increasing arrangement |
| `Ordering.NamesLexicographic` | ncda/src/tui/flat_view.rs:63-66 | names are ordered lexicographically |
| `Render.DisplayPath` | ncda/src/bpf.rs:786-809 | the loop over valid prefixes and invalid sequences computes the rendering and terminates on all bytes |
| `Render.PushDisplayText` | ncda/src/bpf.rs:811-824 | every character is escaped as it should be |
| `Render.PushHex` | ncda/src/bpf.rs:801-803 | bytes that are no text are written as two hexadecimal digits each |
| `Render.DisplayRoundTrip` | ncda/src/bpf.rs:783-809 | a decoder of backslash escapes inverts the rendering on every byte sequence |
| `Render.DisplayInjective` | ncda/src/bpf.rs:783-785 | different bytes are rendered differently |
| `Render.DisplayPrintable` | ncda/src/bpf.rs:783-824 | no control character is ever written |
| `Render.PlainTextShown` | ncda/src/bpf.rs:811-824 | text without backslashes and control characters is shown as it is |
| `Render.EscapesShown` | ncda/src/bpf.rs:811-824 | a backslash is doubled, an ASCII control character is written as two hexadecimal digits |
| `Render.EncodeDecodes` | ncda/src/bpf.rs:818-821 | decoding a character (section 4 of RFC 3629) and encoding it again gives the same bytes |
| `Render.DecodeEncodes` | ncda/src/bpf.rs:818-821 | every scalar value is found again at the front of its encoding |
| `Render.DisplayAtSlash` | ncda/src/bpf.rs:786-809 | a slash ends even a truncated character, so paths are rendered component by component |
| `Normalize.NormalizeRelativePath` | ncda/src/bpf.rs:756-781 | the component stack computes the normal form, and the capacity computed up front is its exact length |
| `Normalize.JoinComponents` | ncda/src/bpf.rs:769-780 | joining with slashes fills the precomputed capacity exactly |
| `Normalize.NormalizeAbsolutePath` | ncda/src/bpf.rs:744-754 | one leading slash and the normal form |
| `Normalize.NormalIsClean` | ncda/src/bpf.rs:756-781 | no component is empty, `.` or `..`, and splitting finds the components again |
| `Normalize.NormalizationIdempotent` | ncda/src/bpf.rs:744-781 | normalizing twice is normalizing once |
| `Normalize.NormalizationComposes` | ncda/src/bpf.rs:756-781 | a prefix may be normalized first |
| `Normalize.DotDotGoesUp` | ncda/src/bpf.rs:761-763 | `..` takes back the component before it, wherever it stands |
| `Normalize.DotDotStaysAtTop` | ncda/src/bpf.rs:761-763 | `..` at the top means nothing |
| `Normalize.EmptyAndDotMeanNothing` | ncda/src/bpf.rs:760-760 | an empty component or `.` means nothing, wherever it stands |
| `Normalize.FixedIffClean` | ncda/src/bpf.rs:756-781 | exactly the paths of clean components are left alone |
| `Spelling.ShownCanonical` | ncda/src/bpf.rs:744-809 | a rendered normalized path is absolute, without empty components, and its components are the rendered ones |
| `Spelling.SameNodeIffSameNormalForm` | ncda/src/model.rs:213-216 | two paths land on one node of the tree exactly when their normal forms are equal |
| `Spelling.CanonicalUnique` | ncda/src/model.rs:213-216 | every place has one canonical spelling |
| `Spelling.DecoratedUnique` | ncda/src/tui/app.rs:417-423 | container names keep different paths apart |
| `Spelling.DecoratedBelow` | ncda/src/tui/app.rs:417-423 | the activity of a container is kept below one directory at the top, named after it |
| `Spelling.ExclusionIsSubtreeIff` | ncda/src/tui/app.rs:425-433 | excluding a prefix excludes exactly the subtree of the place it names, never a sibling that shares its letters, if and only if the prefix without trailing slashes is empty or canonical |
| `Spelling.ExcludedIffBelow` | ncda/src/tui/app.rs:425-433 | with such prefixes a path is excluded exactly if it lies below one of them |
| `Spelling.SloppyPrefixMisses` | ncda/src/tui/app.rs:425-433 | any other prefix does not exclude the place that it names, under its canonical spelling |
| `Spelling.DoubledPrefixMisses` | ncda/src/tui/app.rs:425-433 | for instance `/a//b` does not exclude `/a/b` |
| `Resolve.ExistingTidy` | ncda/src/bpf.rs:623-628 | existing descriptors resolve to canonical spellings, whatever procfs says |
| `Resolve.OpenTidy` | ncda/src/bpf.rs:568-620 | opened files resolve to canonical spellings, whatever procfs says |
| `Resolve.WorldTidy` | ncda/src/bpf.rs:568-628 | so every batch meets resolvers under which all results about canonical spellings hold |
| `Resolve.RelativeOpensAgree` | ncda/src/bpf.rs:595-619 | a relative path is believed only if procfs resolves the descriptor to the same path |
| `Resolve.UnresolvedApart` | ncda/src/bpf.rs:735-742 | unresolved activity shares a node exactly when descriptor and normal form are the same |
| `Numerals.DecimalReads` | ncda/src/bpf.rs:735-742 | numbers are written in decimal without leading zeros |
| `Resolve.RootOnlyWhenUsed` | ncda/src/bpf.rs:686-712 | the process root matters only where the model says that it is consulted |
| `Resolve.MemoryCanonical` | ncda/src/bpf.rs:724-727 | names of memory files are canonical spellings below `/[memory]`, slashes and all |
| `Links.IgnoredIff` | ncda/src/bpf.rs:715-723 | a descriptor is ignored exactly if its link begins with `socket:`, `pipe:` or `anon_inode:`, with or without a slash |
| `Links.FileResolves` | ncda/src/bpf.rs:669-712 | a path below the process root loses exactly that root, the root itself becomes `/`, a sibling that shares its letters and every other path stay; unlinked files keep their path |
| `Links.LinksAlikeIff` | ncda/src/bpf.rs:669-684 | two files resolve alike exactly if their links, without suffix and process root, have one normal form |
| `Links.SuffixIsLost` | ncda/src/bpf.rs:731-733 | a file whose own name ends in ` (deleted)` resolves to the path without it |
| `Links.MemoryFileNamed` | ncda/src/bpf.rs:724-727 | a file in memory is named after its link, with look-alikes for slashes |
| `Links.NoPathUnresolved` | ncda/src/bpf.rs:623-628 | a link that cannot be read or is no path leaves the descriptor unresolved under its own number |
| `Links.RootKnown` | ncda/src/bpf.rs:687-692 | a process root of `/` counts as none |
| `Links.AbsoluteOpens` | ncda/src/bpf.rs:586-594 | an absolute path is believed and normalized, unless the descriptor is no file |
| `Links.RelativeOpens` | ncda/src/bpf.rs:595-619 | a relative path counts from the working directory for `AT_FDCWD` (-100), or else from the directory that was passed, inside the process root, if procfs says the same of the descriptor |
| `Links.RelativeOtherwise` | ncda/src/bpf.rs:608-619 | otherwise only sockets and the like and files in memory are believed |
| `Links.UnknownOpens` | ncda/src/bpf.rs:576-603 | without a directory to start from, or with an incomplete path, only descriptor and normalized path are known |
| `Capture.Probes.SysEnter` | ncda-ebpf/src/main.rs:212-235 | an entry pends its call and stashes its own arguments, or counts why not; five stashes refine one table of pending calls |
| `Capture.Probes.SysExit` | ncda-ebpf/src/main.rs:313-366 | an exit emits the record due for the call that its own thread entered, and leaves nothing stashed for it |
| `Capture.Probes.EnterOpen` | ncda-ebpf/src/main.rs:238-263 | the shared scratch buffer passes on exactly this path, whatever it held before |
| `Capture.Probes.ProbeRead` | ncda-ebpf/src/main.rs:251-251 | as much of the string as fits before the final zero |
| `Capture.Probes.ReadPath` | ncda-ebpf/src/main.rs:239-259 | the stashed arguments hold the first 256 bytes of the path and say whether there are more |
| `Capture.Probes.EnterIo` | ncda-ebpf/src/main.rs:266-276 | an entry of a read or write is counted and stashed, or counted as failed |
| `Capture.Probes.EnterClose` | ncda-ebpf/src/main.rs:279-287 | an entry of a close |
| `Capture.Probes.EnterDup` | ncda-ebpf/src/main.rs:279-297 | an entry of a duplication, by `dup` or `fcntl` |
| `Capture.Probes.EnterCloseRange` | ncda-ebpf/src/main.rs:300-310 | an entry of a range close |
| `Capture.Probes.IgnoreCompat` | ncda-ebpf/src/main.rs:121-127 | a foreign call is only counted |
| `Capture.Probes.ExitOpen` | ncda-ebpf/src/main.rs:369-401 | the record carries the stashed path followed by zeros, or its loss is counted |
| `Capture.Probes.LeaveOpen` | ncda-ebpf/src/main.rs:322-326 | the stashed arguments of the thread are used once and removed |
| `Capture.Probes.LeaveIo` | ncda-ebpf/src/main.rs:327-336 | the stashed read or write of the thread is used once and removed |
| `Capture.Probes.LeaveClose` | ncda-ebpf/src/main.rs:337-342 | the stashed close of the thread is used once and removed |
| `Capture.Probes.LeaveDup` | ncda-ebpf/src/main.rs:343-352 | the stashed duplication of the thread is used once and removed, whichever call made it |
| `Capture.Probes.LeaveCloseRange` | ncda-ebpf/src/main.rs:353-364 | the stashed range close of the thread is used once and removed |
| `Capture.Probes.ExitIo` | ncda-ebpf/src/main.rs:404-419 | the exit is counted and the record carries result and latency |
| `Capture.Probes.ExitClose` | ncda-ebpf/src/main.rs:422-441 | every close but one of a descriptor that was not open is reported |
| `Capture.Probes.ExitDup` | ncda-ebpf/src/main.rs:444-460 | successful duplications are reported |
| `Capture.Probes.ExitCloseRange` | ncda-ebpf/src/main.rs:463-479 | successful range closes are reported |
| `Capture.Probes.Deliver` | ncda-ebpf/src/main.rs:398-400 | a record is in the ring or counted as dropped |
| `Capture.Probes.ClearStashes` | ncda-ebpf/src/main.rs:482-488 | nothing stays stashed for the thread, and other threads keep theirs |
| `Capture.Probes.CopyName` | ncda-ebpf/src/main.rs:389-397 | nothing of an earlier event stays in the shared event buffer |
| `Capture.Probes.TaskExit` | ncda-ebpf/src/main.rs:535-543 | a dying thread leaves no stash entry, and the last one reports the process |
| `Capture.Probes.TaskstatsExit` | ncda-ebpf/src/main.rs:547-552 | the fallback hook reports the process in the same way |
| `Capture.Probes.ProcessExec` | ncda-ebpf/src/main.rs:503-523 | only the leader of a process reports its exec |
| `CaptureRuns.ThreadsApart` | ncda-ebpf/src/main.rs:212-366 | under every interleaving, the pending call and the delivered records of a thread are those of its own steps alone |
| `CaptureRuns.PendingIsInCall` | ncda-ebpf/src/main.rs:313-366 | what an exit sees is the last entry of its own thread, unless that call returned or the thread died |
| `CaptureRuns.EntriesAccounted` | ncda-ebpf/src/main.rs:266-276 | entries are exits, calls in flight, failed inserts and calls cut short by thread death |
| `CaptureRuns.CountersCount` | ncda-ebpf/src/main.rs:130-153 | the counters are these counts, saturated |
| `CaptureRuns.MissesCounted` | ncda-ebpf/src/main.rs:94-127 | the counters of foreign calls, missing buffers and failed stashes are the numbers of those, saturated |
| `CaptureRuns.RecordsAccounted` | ncda-ebpf/src/main.rs:94-100 | every record that was due is in the ring or counted as lost |
| `CaptureRuns.RingWellFormed` | ncda/src/bpf.rs:405-443 | every record in the ring is one that the parser accepts |
| `CaptureRuns.OpenParsed` | ncda/src/bpf.rs:405-443 | the parser yields the first 256 bytes of the path, marked truncated exactly when there are more, and the descriptor that the call returned |
| `Records.ParseLayout` | ncda/src/bpf.rs:383-531 | the parser accepts every record that the kernel side writes and reads every field back |
| `Records.AcceptedIffWellFormed` | ncda/src/bpf.rs:405-443 | an open is accepted exactly when its first 288 bytes are the layout of a well-formed record |
| `Records.LayoutLength` | ncda-common/src/lib.rs:171-175 | the record sizes that both sides rely on |
| `Records.LayoutOffsets` | ncda-common/src/lib.rs:30-175 | every field of every record stands at its offset, in its width |
| `Records.LowestByteFirst` | ncda/src/bpf.rs:388-388 | numbers are stored from the lowest byte to the highest |
| `Records.AcceptedKinds` | ncda/src/bpf.rs:383-531 | exactly the data of known kinds and sufficient length is accepted, and of the opens exactly those whose flags, length, name and padding fit together |
| `Records.LeRoundTrip` | ncda/src/bpf.rs:388-388 | numbers survive encoding |
| `Records.FromLeRoundTrip` | ncda/src/bpf.rs:388-388 | bytes survive decoding |
| `Reader.Pipeline.DrainRingBatch` | ncda/src/bpf.rs:346-363 | up to 4096 records leave the ring; what parses is kept in order, what does not is counted, and the ring is reported drained exactly when it was |
| `Reader.Pipeline.Arrive` | ncda-ebpf/src/main.rs:75-75 | a record waits at the end of the ring |
| `Reader.Pipeline.SendBatch` | ncda/src/bpf.rs:365-380 | a closed queue loses the whole batch, counted, and ends the reader |
| `Reader.Pipeline.DrainAndSend` | ncda/src/bpf.rs:328-342 | one round loses nothing uncounted and keeps the order |
| `Reader.Pipeline.FinalDrain` | ncda/src/bpf.rs:317-327 | the last drain leaves nothing in the ring unless the queue closes |
| `Reader.Pipeline.HandleBatch` | ncda/src/main.rs:300-311 | a batch is ingested whole or counted as discarded |
| `Reader.Pipeline.Shutdown` | ncda/src/main.rs:178-201 | after shutdown every record that ever arrived was ingested or counted, except those that a closed queue left in the ring; an open queue leaves none |
| `Reader.NothingUnparsed` | ncda/src/bpf.rs:346-363 | well-formed records are all kept, in order |
| `EndToEnd.TransferObserved` | ncda-ebpf/src/main.rs:404-419 | a read or write is accounted with its own descriptor and result, as many bytes as it returned and the time it took |
| `EndToEnd.CloseObserved` | ncda-common/src/lib.rs:27-29 | a close is observed unless it returns -9 (`EBADF`), that is unless the descriptor was not open |
| `EndToEnd.DuplicateObserved` | ncda-ebpf/src/main.rs:444-460 | only successful duplications are observed, by `dup` or by `fcntl` with command 0 or 1030, with the descriptor that was entered and the one that was returned, cut to 32 bits |
| `EndToEnd.RangeObserved` | ncda-ebpf/src/main.rs:463-479 | only range closes that return 0 are observed, as they were entered |
| `EndToEnd.FollowedCalls` | ncda-ebpf/src/main.rs:290-297 | which calls are followed from entry to exit at all |
| `EndToEnd.EndObserved` | ncda/src/bpf.rs:516-531 | exec and exit records reach the aggregator as such |
| `EndToEnd.OpenObserved` | ncda-ebpf/src/main.rs:369-401 | an opened file reaches resolution with the descriptor that was returned, cut to 32 bits, and with its whole path or marked as incomplete, which it is beyond 256 bytes |
| `EndToEnd.LongPathsUnresolved` | ncda/src/bpf.rs:576-578 | a path that the record could not carry is never attributed to a file |

## Left out

- The linked nodes of the tree: `Tree.FileTree` keeps a finite map from places to node data instead
  of owned child tables, so aliasing of nodes and the memory of the tree are not captured.
- `RefCell`, `Arc` and mutexes: rate queries are methods that change the object, interning keeps
  strings, and turns of the application are atomic steps.
- Time: instants are unbounded integers of nanoseconds, so `checked_sub` never fails. All results
  about rates suppose a monotone clock.
- Rate windows above 63 times 2^64 - 1 nanoseconds, for which the bucket width is clamped, are
  outside all results but `RateTheorems.CapIsLosslessIff`.
- Overflow of the live total: the rate structures subtract what saturated addition may have cut
  off, so the results about their answers suppose that the live total fits into 64 bits
  (`RateAnswers.Fits`). The tree, the process table and batched ingestion need no such condition.
- Floating-point rates and human-readable numbers: results are about the integer numerators.
- App.AppState.Ingest: procfs, container discovery and command names are functions held fixed during
  one batch; between batches they may change arbitrarily.
- App.ContainerResolver.ReplaceDiscovery: the tables of discovered names are not state of the model;
  each batch brings the names that hold during it.
- AppRuns.GlobalRateIsRootRate: the bytes of an application total are compared, not the quotient by
  the window.
- Tree.FileTree.RecordStats: strings are sequences of characters; the program slices UTF-8 bytes at
  slashes, which are single bytes.
- Filter.Matches: Unicode lower-casing is an uninterpreted function, and `FilterQuery::parse`, which
  splits the query text into terms, is not modelled.
- EventLogging.EventLog.BytesForPrefixAt: the sum of a filtered scan is an unbounded number here; it
  fits into the 64 bits of the program whenever the live total does
  (`RateWindows.FilteredWithinWindow`).
- Normalize.NormalizeRelativePath: the capacity is an unbounded number.
- Resolve.WorldTidy: symbolic links of `/proc` are functions; reading them, and the discovery of
  containers through external commands and cgroups, is not modelled.
- Capture.Probes.SysEnter: system call numbers and registers are replaced by abstract calls; whether a
  stash insert, a buffer lookup or a ring write succeeds is decided by the environment. A thread is
  supposed to enter calls one at a time.
- Records.ParseLayout: numbers are little-endian, as on both supported architectures.
- Reader.Pipeline.FinalDrain: asynchronous waiting and epoll readiness are left out; the queue may
  close between any two batches.
- Per-CPU counters are one set of counters; their saturating sum over CPUs and `DropSnapshot::total`
  are not modelled.
- Loading and attaching of eBPF programs, signal handling, drawing, key handling, layout, themes,
  formatting, benchmarks and packaging.
- `TreeNode::sorted_children`, which has no tie-break and is not used by the views that are modelled.
