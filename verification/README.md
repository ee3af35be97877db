# InfoMesh, modelled and proved

InfoMesh is a peer-to-peer search node. This project models the parts of it that keep state or iterate, and proves
what they guarantee over whole runs. `dafny verify dfyconfig.toml` checks everything.

| files | part of the system |
|---|---|
| Sums, Propagation, Limit, LinkGraph, Authority, Convergence, AuthorityLimits | domain authority: a damped, PageRank-like propagation over the link graph, with floats as reals |
| Startup, Runtime | single-node startup: an advisory lock and a PID file shared by many processes that may crash |
| Ledger, CreditLedger, CreditSync, CreditSyncManager | credits: grace and debt, score and prices, and the totals that nodes of one owner exchange |
| Scheduling, SchedulerRuns, Politeness, CrawlDelays, Queueing, HourlyLimits, PolitenessLimits, Cancellation, Scheduler | the crawl scheduler: queue, pending counters, politeness delays and the hourly limit |
| Bits, SimHash, NearDuplicates, Dedup, Deduplicator | near-duplicate detection: fingerprints, the in-memory index and its table |
| UrlAssignment, UrlAssigner | which node crawls a URL |
| Recrawl, RecrawlQueue | the priority queue of URLs to crawl again |
| DocumentStore, StoredText, Snapshot, SnapshotFile, LocalStore | the document table with its full-text index and compressed texts, snapshots, and paged publishing |
| Keywords, Distributed, DistributedIndex | keyword extraction and the distributed index |
| Utf8 | truncating a text to a number of bytes |
| Common | what several parts share |

Each stateful object is a class whose methods are proved against value functions (or, where a library decides ties,
relations) of the same names; the theorems about all runs are proved about those functions. Coroutines are cut at
their awaits: a step is what runs between two of them. Clock readings are parameters, and clocks do not run backwards.

## Where the code and its descriptions differ

The model follows the code. Differences that the proofs make visible:

- `add_links` says it returns the number of new links; it counts every target that has a domain
  (`Authority.InsertedCount` says when the two agree).
- The convergence test of the authority loop need not pass within its twenty passes: on some graphs it never does
  (`AuthorityLimits.ThresholdNotReached`); `Convergence.ConvergesIff` says when it does, in terms of the links alone.
- Commands remove the PID file without holding the startup lock, some steps after a look that found no running node
  named in it, be it stale or missing. The startup guarantee holds exactly as long as no node writes its PID between
  such a look and the removal (`Startup.QuietRunsAreSafe`, `Startup.QuietIff`). Three runs that break it:
  `Startup.SplitSweepsAreUnsafe`, `Startup.AbsentFileIsUnsafe` and, in the usual course of `stop`,
  `Startup.StopIsUnsafe`.
- A crash between the commit of an entry and the clearing of grace can shorten a later grace period
  (`Ledger.CrashShortensGrace`, `Ledger.ExactIffNoCrashAtEnd`).
- The crawl loop gives `get_url` five seconds (`infomesh/crawler/crawl_loop.py:375-379`). If they end during the
  politeness pause, which can last a minute, the URL is lost and its domain counts it for ever; enough such losses
  shut the domain out (`SchedulerRuns.NothingLostIff`, `Cancellation.CountersExactIff`, `Cancellation.StarvedDomain`).
  That happens exactly with delays above five seconds (`Cancellation.PatienceIff`).
- A crawl delay is forgotten together with its domain, which can happen in the very step that adds a URL of the
  domain; from then on the configured delay is kept instead (`CrawlDelays.ForgottenIff`,
  `CrawlDelays.ConfiguredDelayInForce`).
- The hourly limit bounds each counter window; an arbitrary hour can see twice as many requests, under every limit
  (`Politeness.HourlyLimit`, `HourlyLimits.HourlyBoundIff`).
- Of a politeness delay set to a whole number below 1 the configuration makes 0, which is below its lower bound of
  0.1 (`Politeness.WithinBoundsIff`).
- The scheduler class taken by itself does not keep a politeness delay of more than an hour once a domain without
  pending URLs is pruned (`PolitenessLimits.SpacedIffWithinHour`). The program never gives it such a delay: the
  configuration allows a minute at most (`infomesh/config.py:246`), and up to there delays are kept
  (`Politeness.ConfiguredDelayKept`).
- `_xor_distance` says it pads on the left; it pads on the right, which makes a difference for hashes of different
  lengths unless the shorter is all zeros (`UrlAssignment.PadsAsNumbersIff`). All hashes the node compares have 64
  digits, so nothing depends on it.
- The SimHash index evicts its oldest entry at capacity even when the added fingerprint needs no room
  (`NearDuplicates.AddLosesIff`).
- A credit summary of a peer whose row was left by another owner is accepted and stored but never counted
  (`CreditSync.AcceptedIsShownIff`).
- The nodes that the program starts all leave their id for credit summaries empty
  (`infomesh/cli/serve.py:666-671`, `infomesh/services.py:581-586`, `infomesh/credits/sync.py:317`). So each takes the
  summaries of the others for its own, stores none and shows its local totals (`CreditSync.SharedIdShowsLocal`).
  Agreement needs different ids (`CreditSync.NodesAgree`, `CreditSync.NodesCountedIff`).
- A discarded and re-enqueued URL is delivered with its discarded entry if that comes first
  (`Recrawl.LatestDeliveredIff`, `Recrawl.OldEntryDelivered`), and discarded entries count against the size of the
  recrawl queue until they are popped. This concerns the class taken by itself: the program (`infomesh/services.py:505`)
  discards nothing from its queue.
- With compression on, which is the default, the store's `update_document`, which the program does not call, changes
  the text and the index but not the compressed text, which is what is read back (`StoredText.ReadsBackIff`,
  `StoredText.UpdatedTextIsNotRead`).
- The snapshot import allows 100000 documents, but the unpacker it uses allows lists of 65536 and strings of 1 MiB,
  and decompression ends at 100 MiB (`infomesh/compression/zstd.py:58-76`), so larger stores can be exported and not
  imported (`SnapshotFile.ReadableIff`). Its description says duplicates are skipped by text hash; they are also
  skipped by URL.
- A batch does not withdraw a node's older pointers: under a keyword that a document no longer has, its pointer stays
  (`Distributed.RepublishedUnder`).

## Model

| member | source | states |
|---|---|---|
| `LinkGraph.PropagateUntilStable` | infomesh/index/link_graph.py:189-228 | From equal scores the damped pass is run until the summed change is below the threshold or twenty passes are used up; the result is exactly the scores of that pass. |
| `LinkGraph.RepeatPasses` | infomesh/index/link_graph.py:206-228 | The loop itself, over the passes as a sequence of scores: it stops after the first pass that moves less than the threshold, or after twenty. |
| `LinkGraph.Propagate` | infomesh/index/link_graph.py:206-217 | One pass over the adjacency lists, edge by edge, computes the pass as a function: 0.15/n plus 0.85 of what each source divides among its targets by weight. |
| `LinkGraph.BuildEdges` | infomesh/index/link_graph.py:191-204 | The adjacency lists hold each linked pair of domains once, with its link count as weight, a tenth of it for self-links. |
| `LinkGraph.Difference` | infomesh/index/link_graph.py:219-221 | The convergence test measures the L1 distance of two score assignments. |
| `LinkGraph.ScoreDomains` | infomesh/index/link_graph.py:136-235 | The normalised scores are the authority of the links table whatever order the database lists the domains in. |
| `LinkGraph.LinkGraph.ComputeDomainAuthority` | infomesh/index/link_graph.py:136-256 | Returns the authority of the whole table and stores one row per domain with the score rounded to six digits and its inbound and outbound counts, keeping rows of other domains. |
| `LinkGraph.LinkGraph.AddLinks` | infomesh/index/link_graph.py:88-132 | Inserts every target that has a domain and is not recorded yet, keeps the rows unique, and returns the number of targets that have a domain. |
| `LinkGraph.IndependentOfOrder` | infomesh/index/link_graph.py:189-235 | A result that is the authority for one listing of the domains is so for every listing. |
| `Propagation.Contraction` | infomesh/index/link_graph.py:206-217 | One pass brings any two score assignments closer by the factor 0.85 in L1. |
| `Propagation.SuccessiveDifference` | infomesh/index/link_graph.py:206-222 | The change made by pass k is at most 0.85^k times the change made by the first. |
| `Propagation.TailBound` | infomesh/index/link_graph.py:206-228 | After a pass that moved the scores by diff, any number of further passes moves them by at most 0.85 diff / 0.15. |
| `Propagation.FixedPointUnique` | infomesh/index/link_graph.py:206-217 | No two different score assignments are left unchanged by a pass. |
| `Propagation.DistanceToFixedPoint` | infomesh/index/link_graph.py:219-228 | The scores after a pass that moved them by diff are within 0.85 diff / 0.15 of any fixed point. |
| `Propagation.IterateDistance` | infomesh/index/link_graph.py:206-228 | The distance to a fixed point after k passes is at most 0.85^k times the distance at the start. |
| `Limit.Solution` | infomesh/index/link_graph.py:206-217 | The equations that a pass leaves unchanged have a solution, found by eliminating one domain at a time; so has every such system whose coefficients are not negative and add up to less than 1 per domain. |
| `Limit.LimitExists` | infomesh/index/link_graph.py:206-228 | The propagation has a limit: there is a fixed point, it is the only one, and after k passes the scores are within 0.85^k of the initial distance from it. |
| `Propagation.ScoreFloor` | infomesh/index/link_graph.py:189-217 | After any number of passes every score is at least 0.15/n. |
| `Propagation.Mass` | infomesh/index/link_graph.py:189-217 | The scores never add up to more than 1; after a pass they add up to exactly 1 if no domain is dangling and to less if one is. |
| `Propagation.IterateOrder` | infomesh/index/link_graph.py:206-217 | The scores after k passes do not depend on the order in which the domains are visited. |
| `Authority.AuthorityRange` | infomesh/index/link_graph.py:230-235 | The normalised scores lie in (0, 1], some domain has exactly 1, and they rank the domains as the propagated scores do. |
| `Authority.AuthorityUnique` | infomesh/index/link_graph.py:136-256 | The result is determined by the links table alone. |
| `Authority.LoopError` | infomesh/index/link_graph.py:206-228 | When the loop stops, the scores are within 0.85 threshold / 0.15 of any fixed point, or the passes are used up and the distance at the start has been damped twenty times. |
| `Authority.LoopStopsIff` | infomesh/index/link_graph.py:206-228 | The loop ends after pass k if and only if pass k is the first that moves the scores by less than a millionth in all, or k is 20 and no earlier pass did. |
| `Authority.LoopTail` | infomesh/index/link_graph.py:219-228 | Where the convergence test passed, no longer run would have moved the scores by more than 0.85 threshold / 0.15. |
| `Authority.AuthorityMass` | infomesh/index/link_graph.py:189-217 | On a links table the propagated scores add up to 1 if and only if every domain has an outgoing link. |
| `Authority.StoredScores` | infomesh/index/link_graph.py:237-253 | The stored scores lie in [0, 1], are within half a millionth of the returned ones, and rank no domain above one that scores higher. |
| `Authority.StoredCounts` | infomesh/index/link_graph.py:178-253 | The first link from one domain to another raises the stored outbound count of the one and the inbound count of the other by one, and no other link changes any stored count. |
| `Authority.InsertedCount` | infomesh/index/link_graph.py:88-132 | The returned count equals the number of rows added if and only if every target with a domain is new and listed once; otherwise it is larger. |
| `Authority.RowsRecorded` | infomesh/index/link_graph.py:88-132 | The rows after add_links are those before and, for each target that has a domain and was not recorded for the page, one with the two URLs and the domain of each. |
| `Authority.LinksGained` | infomesh/index/link_graph.py:104-119 | On the graph of domains: the link count from the page's domain to domain d grows by the number of different new targets in d, and no other count changes. |
| `Authority.RecordTwice` | infomesh/index/link_graph.py:108-132 | Recording a page a second time adds no row. |
| `Convergence.ConvergesIff` | infomesh/index/link_graph.py:206-228 | When the loop stops its convergence test has passed if and only if the 20th step of the undamped walk along the links, which starts from equal scores, moves less than the threshold once damped twenty times. |
| `Convergence.PassesIffLastWould` | infomesh/index/link_graph.py:206-228 | The test passes at some pass if and only if the last of the twenty passes would pass it. |
| `Convergence.PassesIfFirstIsSmall` | infomesh/index/link_graph.py:206-228 | The test passes if the change of the first pass, damped nineteen times, is below the threshold. |
| `Convergence.MovedIsWalked` | infomesh/index/link_graph.py:206-222 | Pass k changes the scores in all by exactly 0.85^(k+1) times what step k of the undamped walk changes. |
| `Convergence.AcyclicConverges` | infomesh/index/link_graph.py:206-228 | On links without cycles, self-links included, and with no path through twenty domains the test always passes, at the latest one pass after as many as the longest path has domains. |
| `AuthorityLimits.ThresholdNotReached` | infomesh/index/link_graph.py:206-228 | On a graph of three domains the loop always uses up its twenty passes: the convergence test fails every time. |
| `AuthorityLimits.StarMoved` | infomesh/index/link_graph.py:206-222 | On that graph each pass moves the scores by exactly 0.85 of what the previous one did, so the contraction factor is attained. |
| `AuthorityLimits.GeometricBoundIsBest` | infomesh/index/link_graph.py:206-222 | A factor bounds the change of pass k by that of the first pass on all networks if and only if it is at least 0.85^k. |
| `AuthorityLimits.LinksMakeStar` | infomesh/index/link_graph.py:191-204 | Four links between three domains give that graph. |
| `Startup.QuietRunsAreSafe` | infomesh/cli/serve.py:200-307 | In every interleaving of any number of start and _serve processes and other commands, with a crash possible at every step and the PID file removed some steps after the look at it, at most one node serves, the PID file names it, and nobody else gets past the check for a running node, as long as no node writes its PID while some process may yet remove the file: one that read another PID and has still to judge it, that waited for a process whose PID the node has been given since, or that has only the removal left. |
| `Startup.QuietIff` | infomesh/runtime.py:84-118 | That condition is exact: after a run that meets it, a step that meets it leads to a safe state again, and a step that does not can be followed by two nodes. |
| `Startup.UnquietIsUnsafe` | infomesh/runtime.py:84-118 | From any state of such a run, a node's PID written against the condition is followed by a second node if the process that may remove it goes on and another node starts. |
| `Startup.AtomicSweepsAreSafe` | infomesh/cli/serve.py:200-307 | If look and removal were one step, all runs would be safe. |
| `Startup.InvKept` | infomesh/runtime.py:84-118 | Every step of every process that meets the condition keeps the invariant that ties the lock, the PID file and the phases of all processes together. |
| `Startup.AloneItServes` | infomesh/cli/serve.py:594-640 | A _serve process left alone becomes the node whatever stale content the PID file has, and the file then names it. |
| `Startup.AloneItStarts` | infomesh/cli/serve.py:200-307 | start, left alone with the child it launches while the PID file names no live process, ends with the child serving, the child's PID in the file, the lock free and start itself out of it. |
| `Startup.RunningNodeIsKept` | infomesh/cli/serve.py:204-213 | start and _serve can only exit when the PID file names a live process of another PID, and change nothing. |
| `Startup.SplitSweepsAreUnsafe` | infomesh/runtime.py:84-97 | A run with two nodes, which breaks the condition: a command finds a stale PID file, a node starts, the command removes what is now the node's file, and another node starts. |
| `Startup.AbsentFileIsUnsafe` | infomesh/runtime.py:109-118 | The same in an empty data directory: a read that fails because there is no file is followed by a removal as well. |
| `Startup.StopIsUnsafe` | infomesh/cli/serve.py:456-462 | The same in the usual course of stop, which clears the file after the node has exited and removed it itself. |
| `Startup.SafeIffSweepsAtomic` | infomesh/runtime.py:84-118 | At most one node serves in all runs without any condition if and only if look and removal are one step. |
| `Runtime.DataDir.ReadLivePid` | infomesh/runtime.py:84-97 | Returns the PID in the file if it is a live node and otherwise removes the file. |
| `Runtime.DataDir.WritePidFile` | infomesh/runtime.py:100-106 | The PID file holds the PID and no temporary file is left. |
| `Runtime.DataDir.ClearPidFile` | infomesh/runtime.py:109-118 | Removes the PID file unless it names another process. |
| `Runtime.StartupLock.Acquire` | infomesh/runtime.py:152-174 | Tries until the lock is free or the clock, read after each failed try, has reached the deadline, and holds the lock exactly when the last try found it free. |
| `Runtime.StartupLock.Release` | infomesh/runtime.py:176-185 | Gives the lock back and closes the handle. |
| `Runtime.ReadStepsAreReadLivePid` | infomesh/runtime.py:84-97 | Undisturbed, the protocol steps of a process leave the file as the method does and stop where its result says. |
| `Runtime.LookStepsAreReadLivePid` | infomesh/runtime.py:84-97 | So do the steps outside the lock: looking, judging and removing. |
| `Runtime.SweepIsReadLivePid` | infomesh/runtime.py:84-97 | If look and removal were one step, that step would leave the file so as well. |
| `Runtime.ClearStepsAreClearPidFile` | infomesh/runtime.py:109-118 | Undisturbed, waiting for a process to exit, reading and removing leave the file as clearing it does. |
| `Ledger.GraceIsExact` | infomesh/credits/ledger.py:182-330 | In every run without a crash between an entry and the clearing of grace, grace_start is set exactly while the balance is used up, and to the time of the spend that began the stretch. |
| `Ledger.StateIsLengthOfStretch` | infomesh/credits/ledger.py:362-377 | So the node is in debt if and only if the current stretch has lasted more than 72 hours, and the clearing inside credit_state changes nothing. |
| `Ledger.PriceOfSearch` | infomesh/credits/ledger.py:389-410 | In every run without such a crash a search costs 0.1, 0.05 or 0.033 as the score is below 100, below 1000 or not, and exactly twice that if and only if a stretch is under way that began more than 72 hours ago. |
| `Ledger.GraceIsEarly` | infomesh/credits/ledger.py:182-330 | With crashes anywhere, grace_start is still set throughout a stretch, never later than the stretch began. |
| `Ledger.CrashShortensGrace` | infomesh/credits/ledger.py:248-265 | A run with a crash after the commit of an entry in which the next stretch begins in debt. |
| `Ledger.ExactIffNoCrashAtEnd` | infomesh/credits/ledger.py:182-330 | grace_start is exact throughout a run if and only if no crash falls between an entry that ends a stretch and the clearing. |
| `Ledger.CappedScoreIsMinimum` | infomesh/credits/ledger.py:433-467 | The score is the other credits plus the lesser of the model credits and 1.5 times the others, so model work is at most 60 % of it. |
| `Ledger.ScoreWithoutModels` | infomesh/credits/ledger.py:433-467 | A node that has summarised nothing with a language model scores all that it has earned. |
| `Ledger.ScoreOfModels` | infomesh/credits/ledger.py:433-467 | A node that has done nothing else scores nothing. |
| `Ledger.ScoreNeverFalls` | infomesh/credits/ledger.py:433-476 | However a history goes on, the score does not fall and the base price of a search does not rise. |
| `Ledger.CrawlerStaysNormal` | infomesh/credits/ledger.py:389-410 | A node that only crawls and makes fewer than ten searches per page at every moment stays out of grace and debt, paying the quoted prices. |
| `Ledger.TenthSearchBeginsGrace` | infomesh/credits/ledger.py:389-410 | After one page the tenth search begins grace, so the bound is sharp. |
| `CreditLedger.SumsAgree` | infomesh/credits/ledger.py:333-355 | The sums over the two tables are the balance and the credits of the history. |
| `CreditLedger.EntryColumns` | infomesh/credits/types.py:32-62 | The row of an activity has the activity's rate and as credits the rate times the quantity, half as much again for language-model work outside the peak hours and for nothing else. |
| `CreditLedger.CreditLedger.RecordAction` | infomesh/credits/ledger.py:182-265 | Rejects a quantity that is not positive without a change; otherwise stores weight times quantity times multiplier, and clears grace when the balance is positive. |
| `CreditLedger.CreditLedger.Spend` | infomesh/credits/ledger.py:269-330 | Rejects an amount that is not positive; otherwise always records it and starts grace when it uses the balance up. |
| `CreditLedger.CreditLedger.GetCreditState` | infomesh/credits/ledger.py:362-377 | Gives the state and changes nothing when grace_start is exact. |
| `CreditLedger.CreditLedger.ContributionScore` | infomesh/credits/ledger.py:433-467 | Computes the capped score of the history from the two tables. |
| `CreditLedger.CreditLedger.GetSearchAllowance` | infomesh/credits/ledger.py:379-410 | The price is the one that Ledger.PriceOfSearch gives for the history; time remains if and only if the state at the second reading of the clock is grace, and is what the third reading leaves of 72 hours; the debt is the negative part of the balance. |
| `CreditLedger.AllowanceReadings` | infomesh/credits/ledger.py:379-410 | If time remains the state is grace, at most 72 hours remain, and they end exactly 72 hours after grace_start. |
| `Politeness.PendingCounters` | infomesh/crawler/scheduler.py:62-88 | In every run with one consumer, which may cancel get_url at any wait, a domain's counter is the number of its URLs queued, waiting, held, handed out and not marked, or lost by a cancellation; it stays within the setting, and a domain with such a URL is never forgotten. |
| `Politeness.AcceptedIff` | infomesh/crawler/scheduler.py:62-88 | In every run a URL is turned away if and only if it is too deep or its domain has as many URLs active or lost as the setting allows. |
| `Queueing.HandedOutInOrder` | infomesh/crawler/scheduler.py:62-160 | Without an hourly limit, and while the queue has room and no get_url is cancelled, URLs are handed out in the order in which they were accepted. |
| `Queueing.QueueBounded` | infomesh/crawler/scheduler.py:44-88 | The queue never holds more than ten thousand URLs; one more that is accepted waits behind those that wait already. |
| `Queueing.MarkedAnyway` | infomesh/crawler/scheduler.py:162-179 | Marking any URL, also one never handed out, lowers the counter of its domain by one but not below zero, counts an error if it is one, and touches no other domain. |
| `Politeness.RequestsSpaced` | infomesh/crawler/scheduler.py:114-204 | Any two requests to a domain are at least as far apart as the delay that was logged for the later one, even if the domain was pruned in between, for settings of at most an hour; CrawlDelays.CrawlDelayKept and CrawlDelays.ConfiguredDelayInForce say which delay that is. |
| `CrawlDelays.CrawlDelayKept` | infomesh/crawler/scheduler.py:98-138 | Once a crawl delay of x seconds is set, and until another is set or the domain is forgotten, each of its URLs that is taken waits for min(x, 60) and comes at least that long after every earlier request to the domain. |
| `CrawlDelays.ConfiguredDelayInForce` | infomesh/crawler/scheduler.py:124-138 | From a step at which the scheduler does not know the domain or forgets it, and until a crawl delay is set, each of its URLs waits for the configured delay. |
| `CrawlDelays.ForgottenIff` | infomesh/crawler/scheduler.py:181-204 | A domain is forgotten exactly when a URL is added or marked while more than 40000 domains are known, or a new hour of the limit begins while more than 50000 are, and it has nothing pending and was not requested for an hour. |
| `CrawlDelays.ShortestPauses` | infomesh/crawler/scheduler.py:124-138 | In every run a pause ends at once or exactly its delay after an earlier request to the domain, where there was none after time 0. |
| `Politeness.HourlyLimit` | infomesh/crawler/scheduler.py:140-188 | Each counter window sees at most the limit of requests, and any 3600 seconds at most twice the limit. |
| `Queueing.HourWaitedOut` | infomesh/crawler/scheduler.py:140-160 | In every run, after the limit was reached the next URL is taken only when the hour is over. |
| `Queueing.HourWaitIsShort` | infomesh/crawler/scheduler.py:146-152 | That wait ends with the hour or a second later than the check, and the URL is queued again behind all others, or held while the queue is full. |
| `HourlyLimits.LimitDoubled` | infomesh/crawler/scheduler.py:140-188 | For every limit, every delay up to a minute and every cap, a run in which exactly twice the limit of requests goes out within an hour. |
| `HourlyLimits.HourlyBoundIff` | infomesh/crawler/scheduler.py:140-188 | A number bounds the requests of every hour of every run if and only if it is at least twice the limit. |
| `Politeness.WithinBoundsIff` | infomesh/config.py:289-302 | The configured politeness delay is between 0.1 and 60 seconds if and only if the setting is not a whole number below 1, of which the clamping makes 0. |
| `Politeness.ConfiguredDelayKept` | infomesh/services.py:488-493 | So under every setting the configuration lets through, requests to a domain keep the delay in force, which is at most a minute. |
| `PolitenessLimits.SpacedIffWithinHour` | infomesh/crawler/scheduler.py:114-204 | For a scheduler constructed with any delay and without an hourly limit, that delay is kept in every run if and only if it is at most an hour. |
| `PolitenessLimits.LongDelayBroken` | infomesh/crawler/scheduler.py:190-204 | With a longer delay, a run that tracks more than 40000 domains in which a pruned domain is requested again too soon. |
| `SchedulerRuns.EachAccountedFor` | infomesh/crawler/scheduler.py:62-160 | In every run each URL is queued, waiting, held, handed out or lost by a cancellation exactly as often as it was accepted, whatever the limit put back. |
| `SchedulerRuns.NothingLostIff` | infomesh/crawler/crawl_loop.py:375-379 | No URL is lost in a run if and only if no cancellation finds get_url holding one, in its politeness pause or while it puts the URL back. |
| `Cancellation.CountersExactIff` | infomesh/crawler/crawl_loop.py:375-379 | The pending counters are those of the URLs the scheduler and its consumer have if and only if no cancellation finds get_url holding a URL. |
| `Cancellation.RefusedForEver` | infomesh/crawler/scheduler.py:62-88 | A domain that has lost as many URLs as it may have pending is never forgotten again, and every further URL of it is refused. |
| `Cancellation.StarvedDomain` | infomesh/crawler/crawl_loop.py:375-379 | For every delay above five seconds, every hourly limit, every cap and every time of the beginning, a run of a consumer that gives get_url five seconds after which a domain is refused for ever though nothing of it is queued or handed out. |
| `Cancellation.PatienceIff` | infomesh/crawler/crawl_loop.py:375-379 | Such a consumer loses nothing in all runs if and only if the politeness delay is at most five seconds; in these runs no longer delay is set for a domain, and the queue has room for what is put back. |
| `Cancellation.ShortDelaysLoseNothing` | infomesh/crawler/scheduler.py:124-138 | For every configuration with such delays, in every such run no URL is lost. |
| `SchedulerRuns.PruneKeepsPending` | infomesh/crawler/scheduler.py:190-204 | Pruning forgets no domain that has URLs pending. |
| `SchedulerRuns.PendingKept` | infomesh/crawler/scheduler.py:62-204 | Every step keeps the counters exact and within the cap. |
| `Scheduler.Scheduler.PruneStaleDomains` | infomesh/crawler/scheduler.py:190-204 | The loop drops exactly the domains without pending URLs that were not requested for an hour, once too many are tracked. |
| `Scheduler.Scheduler.AddUrl` | infomesh/crawler/scheduler.py:62-88 | Refuses a URL too deep or of a full domain, and otherwise counts and queues it, or lets it wait for room. |
| `Scheduler.Scheduler.SetCrawlDelay` | infomesh/crawler/scheduler.py:98-112 | Stores the delay, capped at 60 seconds. |
| `Scheduler.Scheduler.BeginGetUrl` | infomesh/crawler/scheduler.py:124-138 | Takes the first URL and waits for the rest of its domain's delay, the one that CrawlDelays.CrawlDelayKept and CrawlDelays.ConfiguredDelayInForce name, and no longer (CrawlDelays.ShortestPauses). |
| `Scheduler.Scheduler.EndGetUrl` | infomesh/crawler/scheduler.py:140-160 | Hands the URL out and stamps its domain, or puts it back and waits for the hour to end when the limit is reached. |
| `Scheduler.Scheduler.CancelGetUrl` | infomesh/crawler/crawl_loop.py:375-379 | A cancelled get_url forgets the URL it holds. |
| `Scheduler.Scheduler.RefreshHour` | infomesh/crawler/scheduler.py:181-188 | Starts a new window after an hour. |
| `Scheduler.Scheduler.MarkDone` | infomesh/crawler/scheduler.py:162-170 | Lowers the counter of a known domain, not below zero. |
| `Scheduler.Scheduler.MarkError` | infomesh/crawler/scheduler.py:172-179 | Counts the error and marks the URL done. |
| `SimHash.Compute` | infomesh/crawler/simhash.py:65-96 | The two loops compute the majority-vote fingerprint of the shingles, 0 for a text without words. |
| `SimHash.CountVotes` | infomesh/crawler/simhash.py:79-88 | The vector holds, for every bit, the votes of all shingles. |
| `SimHash.ShinglesOfText` | infomesh/crawler/simhash.py:43-56 | The shingles of a text are every three words that follow one another, with blanks between them; a text of one or two words has one shingle, all its words, and an empty one none. |
| `SimHash.FingerprintBits` | infomesh/crawler/simhash.py:79-96 | A bit is set if and only if it is one of the 64, there are shingles, and at least half of their hashes have it. |
| `SimHash.DistanceCountsBits` | infomesh/crawler/simhash.py:99-109 | The population count of the exclusive or is the number of bits in which the fingerprints differ, at most the width. |
| `SimHash.DistanceIsMetric` | infomesh/crawler/simhash.py:99-109 | The distance is 0 only between equal fingerprints, symmetric, and satisfies the triangle inequality. |
| `SimHash.Stability` | infomesh/crawler/simhash.py:65-109 | Non-empty shingle lists that differ by k insertions and deletions have fingerprints that differ in at most as many bits as have a weight w with -k <= w < k. |
| `SimHash.OrderIrrelevant` | infomesh/crawler/simhash.py:65-96 | The fingerprint depends on the multiset of shingles only. |
| `SimHash.ReplacedWords` | infomesh/crawler/simhash.py:43-56 | Replacing a run of words changes at most the words taken out and put in plus four shingles. |
| `SimHash.EditedText` | infomesh/crawler/simhash.py:43-109 | So an edit of a run of words moves only bits of small weight: within 6 for one word. |
| `SimHash.UnmatchedIsEdits` | infomesh/crawler/simhash.py:65-96 | Striking out shared shingles one by one counts the insertions and deletions between two multisets. |
| `NearDuplicates.SimHashIndex.Add` | infomesh/crawler/simhash.py:158-170 | Evicts the oldest entries until there is room, even for a fingerprint that is there already, then adds the document; raises when there is no capacity at all. |
| `NearDuplicates.SimHashIndex.Remove` | infomesh/crawler/simhash.py:172-184 | Removes the first occurrence of the document, and the entry with its last document. |
| `NearDuplicates.SimHashIndex.FindNearDuplicates` | infomesh/crawler/simhash.py:186-205 | Collects the documents of all entries within the threshold, in entry order. |
| `NearDuplicates.MatchesComplete` | infomesh/crawler/simhash.py:186-205 | A document is found if and only if it is stored under a fingerprint within the threshold. |
| `NearDuplicates.AddKeeps` | infomesh/crawler/simhash.py:158-170 | The index never exceeds its capacity, always holds what was added last, and below capacity loses nothing. |
| `NearDuplicates.AddLosesIff` | infomesh/crawler/simhash.py:158-170 | Adding loses a stored fingerprint if and only if the index is full and its oldest fingerprint is not the one added, even where that one is stored already. |
| `NearDuplicates.RemoveIsExact` | infomesh/crawler/simhash.py:172-184 | Removing a stored document takes exactly one occurrence of it out of every search within the threshold of its fingerprint and changes no other search. |
| `NearDuplicates.RemoveUndoesAdd` | infomesh/crawler/simhash.py:158-184 | Below capacity, removing a new document gives the index back as it was. |
| `Dedup.SignedRoundTrip` | infomesh/crawler/dedup.py:25-34 | The two conversions are inverse to each other between the unsigned and the signed 64-bit range. |
| `Dedup.StoredIsFound` | infomesh/crawler/dedup.py:167-220 | While the index has room, every stored fingerprint makes anything near it a near-duplicate, across marks, flushes and restarts. |
| `Dedup.EditedPageIsFound` | infomesh/crawler/dedup.py:167-220 | After a page is marked, a text that differs from its text in one run of words is a near duplicate unless more than three bits of the old fingerprint have a weight within the words taken out and put in plus four. |
| `Dedup.MarkedRows` | infomesh/crawler/dedup.py:183-220 | Marking a page makes the row of its URL anew, with its content hash, and keeps the rows of all other URLs; only a committing mark is committed. |
| `Dedup.MarkedIsSeen` | infomesh/crawler/dedup.py:151-220 | After that the page's URL and content are seen; any other URL is seen as before, and any other content if the page of another URL has it. |
| `Dedup.FlushedSurvives` | infomesh/crawler/dedup.py:130-230 | A restart after a flush finds every row, and one without a flush exactly the committed ones. |
| `Dedup.RestartNeverAdds` | infomesh/crawler/dedup.py:130-149 | What is a near-duplicate after a restart was one before, whatever order the rows are read in. |
| `Dedup.RestartSameIff` | infomesh/crawler/dedup.py:130-149 | A restart changes no near-duplicate answer if and only if the index holds only fingerprints of committed rows. |
| `Dedup.MarkInStepIff` | infomesh/crawler/dedup.py:183-220 | Marking a URL keeps table and index in step if and only if no fingerprint disappears from the table by the replacement. |
| `Dedup.RestartInvisible` | infomesh/crawler/dedup.py:130-220 | In a run that marks no normalised URL twice and leaves nothing uncommitted, all near-duplicate answers are the same before and after a restart. |
| `Deduplicator.DeduplicatorDB.constructor` | infomesh/crawler/dedup.py:101-149 | Opening reloads the index from the rows. |
| `Deduplicator.DeduplicatorDB.MarkSeen` | infomesh/crawler/dedup.py:183-220 | Replaces the row of the URL and adds the fingerprint to the index; commits only if asked. |
| `Deduplicator.DeduplicatorDB.IsNearDuplicate` | infomesh/crawler/dedup.py:167-181 | True if and only if the index has something within the threshold of the text. |
| `Deduplicator.DeduplicatorDB.IsUrlSeen` | infomesh/crawler/dedup.py:151-158 | True if and only if a row has the hash of the normalised URL. |
| `CreditSync.EachCountedOnce` | infomesh/credits/sync.py:201-237 | In every run the limit of the query cuts nothing off: it returns the last accepted summary of every peer whose summary is fresh, once, and nothing else. |
| `CreditSync.CountedWereValid` | infomesh/credits/sync.py:381-457 | In every run whatever is counted was received from another node of the owner, dated at most five minutes ahead, with a good signature where it was signed and verification was on, and is less than 72 hours old. |
| `CreditSync.PurgeRemoves` | infomesh/credits/sync.py:239-254 | A purge removes the summaries of more than 72 hours ago and no other. |
| `CreditSync.ReceiveAtMostTwenty` | infomesh/credits/sync.py:381-457 | Receiving keeps the number of fresh summaries at twenty or less. |
| `CreditSync.InvKept` | infomesh/credits/sync.py:157-254 | Receiving and purging keep the rows equal to the last accepted summaries, at most twenty of them fresh. |
| `CreditSync.PurgeKeepsSelections` | infomesh/credits/sync.py:239-254 | A purge changes no result of the query, then or later. |
| `CreditSync.AcceptedIsShownIff` | infomesh/credits/sync.py:170-178 | An accepted fresh summary is shown if and only if its peer had no row or one of the same owner, since an update keeps the owner of the row. |
| `CreditSync.NodesAgree` | infomesh/credits/sync.py:342-491 | Up to 21 nodes with different ids whose ledgers are at rest, each last sent every other node's totals, all show the same: what all nodes earned, spent and scored, the balance of these sums, and the number of nodes. |
| `CreditSync.NodesCountedIff` | infomesh/credits/sync.py:407-457 | In a network of up to 21 ids, a node that has heard of all others counts the ids, and so counts every node if and only if no two nodes share an id. |
| `CreditSync.SharedIdShowsLocal` | infomesh/credits/sync.py:411-412 | Where every summary carries this node's own id, it never stores any, and shows its own totals as of one node, in every run. |
| `CreditSync.NetInvKept` | infomesh/credits/sync.py:436-445 | Among at most 21 ids no valid summary of another id is turned away. |
| `CreditSyncManager.CreditSyncManager.ReceiveSummary` | infomesh/credits/sync.py:381-457 | Accepts a summary exactly when all checks pass at the times they are made, and then stores it and notes the sync. |
| `CreditSyncManager.CreditSyncManager.GetPeerSummaries` | infomesh/credits/sync.py:201-237 | Returns the latest twenty fresh rows of the owner, newest first, each once. |
| `CreditSyncManager.CreditSyncManager.AggregatedStats` | infomesh/credits/sync.py:459-491 | The totals are the local ones plus those of the latest twenty fresh rows of the owner, and the local ones alone without an identity. |
| `CreditSyncManager.CreditSyncManager.PurgeStale` | infomesh/credits/sync.py:239-254 | Deletes exactly the rows older than 72 hours and says how many. |
| `UrlAssignment.DistanceSeparates` | infomesh/crawler/url_assigner.py:26-42 | Two hashes of full length at the same XOR distance from a URL are equal. |
| `UrlAssignment.ShortHashesCollide` | infomesh/crawler/url_assigner.py:39-42 | Padding is on the right: a hash and the same hash with a 0 appended are at distance 0. |
| `UrlAssignment.PadsAsNumbersIff` | infomesh/crawler/url_assigner.py:39-42 | The distance of hashes of different lengths is that of their values as numbers, as padding on the left would give, if and only if the shorter one is all zeros. |
| `UrlAssignment.PadRightScales` | infomesh/crawler/url_assigner.py:39-42 | Padding multiplies the value by 16 per missing digit. |
| `UrlAssignment.Agreement` | infomesh/crawler/url_assigner.py:87-106 | Nodes that know the same peers agree on the owner of every URL, whoever they are and in whatever order they learnt of them. |
| `UrlAssignment.Partition` | infomesh/crawler/url_assigner.py:140-152 | In a full mesh the filtered lists of all nodes together hold each URL exactly as often as the list does. |
| `UrlAssignment.Covered` | infomesh/crawler/url_assigner.py:87-121 | Under any partial views every URL is crawled by some node. |
| `UrlAssignment.CoveredOnce` | infomesh/crawler/url_assigner.py:108-121 | Two nodes with the same view do not both own a URL. |
| `UrlAssignment.AddMovesOnlyToNew` | infomesh/crawler/url_assigner.py:64-71 | Learning of a peer moves a URL only to that peer, and does so if and only if it is the nearest. |
| `UrlAssignment.RemoveMovesOnlyItsOwn` | infomesh/crawler/url_assigner.py:73-80 | Forgetting a peer leaves every URL it did not own where it was. |
| `UrlAssigner.UrlAssigner.ClosestPeer` | infomesh/crawler/url_assigner.py:87-106 | The loop returns a nearest known peer, and the node itself if and only if none is nearer. |
| `UrlAssigner.UrlAssigner.AddPeer` | infomesh/crawler/url_assigner.py:64-71 | Adds a peer once, behind the others. |
| `UrlAssigner.UrlAssigner.RemovePeer` | infomesh/crawler/url_assigner.py:73-80 | Removes a peer, never the node itself. |
| `UrlAssigner.UrlAssigner.FilterLocalUrls` | infomesh/crawler/url_assigner.py:140-152 | Keeps the URLs this node owns, in order. |
| `Utf8.TruncationIsLongestPrefix` | infomesh/services.py:54-62 | For text without surrogates and a limit of 0 or more, the result is the longest prefix whose encoding fits. |
| `Utf8.OneLongest` | infomesh/services.py:54-62 | There is only one such prefix. |
| `Utf8.RoundTrip` | infomesh/services.py:59-62 | Decoding an encoded text, with errors ignored, gives it back. |
| `Utf8.OnlyEncodings` | infomesh/services.py:62 | The decoder takes a run of bytes for a character only if it is that character's encoding. |
| `Utf8.CutCharacter` | infomesh/services.py:62 | A character that lost its last bytes is skipped whole. |
| `Utf8.NegativeLimit` | infomesh/services.py:62 | A negative limit drops that many bytes from the end instead. |
| `Recrawl.Conservation` | infomesh/crawler/freshness.py:104-206 | At any time each URL was accepted as often as it was delivered or dropped, plus once if it is queued; the counters add up. |
| `Recrawl.LeastLiveDelivered` | infomesh/crawler/freshness.py:161-174 | A dequeue delivers a least entry among those whose URL is queued, and nothing only if none is. |
| `Recrawl.TriggersServedInOrder` | infomesh/crawler/freshness.py:76-174 | While an entry is queued, no entry of a trigger that is served later is delivered (user requests first, then feed updates, content changes, peer announcements, the schedule), and of its own trigger none enqueued later. |
| `Recrawl.PeekTellsNext` | infomesh/crawler/freshness.py:161-187 | A dequeue after a peek delivers what the peek showed. |
| `Recrawl.LatestDeliveredIff` | infomesh/crawler/freshness.py:118-178 | At any step of any run, a dequeue that delivers a URL delivers its last accepted entry, or one with the same priority and time, if and only if no entry left behind by a discard comes before it; without a tie, the last accepted entry itself. |
| `Recrawl.OldEntryDelivered` | infomesh/crawler/freshness.py:118-178 | A run in which a URL requested, discarded and scheduled again is delivered as the old request. |
| `Recrawl.RefinesSortedList` | infomesh/crawler/freshness.py:118-174 | Without discards, emptying the queue delivers all its entries sorted by priority and age. |
| `Recrawl.EnqueueInserts` | infomesh/crawler/freshness.py:118-159 | Without discards, enqueuing inserts into the sorted list. |
| `RecrawlQueue.PriorityRecrawlQueue.Enqueue` | infomesh/crawler/freshness.py:118-159 | Refuses a queued URL and a full heap, where stale entries count; a given time of 0 counts as not given. |
| `RecrawlQueue.PriorityRecrawlQueue.Dequeue` | infomesh/crawler/freshness.py:161-174 | Pops stale entries until it meets a live one. |
| `RecrawlQueue.PriorityRecrawlQueue.Peek` | infomesh/crawler/freshness.py:180-187 | Pops stale entries and shows the head. |
| `DocumentStore.ConsistentAlways` | infomesh/index/local_store.py:105-142 | In every reachable state URLs and text hashes are unique, ids grow, and the maintained postings equal those rebuilt from the table. |
| `DocumentStore.DeleteIsExact` | infomesh/index/local_store.py:131-139 | What a trigger deletes from the index is in it and is all that was last indexed for the document. |
| `DocumentStore.LookupAgreesWithScan` | infomesh/index/local_store.py:253-352 | A term lookup finds a document if and only if a scan of titles and texts does. |
| `DocumentStore.UpdateKeeps` | infomesh/index/local_store.py:551-604 | An update keeps uniqueness and the index in step, also when it is rejected. |
| `DocumentStore.AddedIsFound` | infomesh/index/local_store.py:126-129 | A document added is found under exactly the terms of its title and text. |
| `DocumentStore.UpdatedIsFound` | infomesh/index/local_store.py:136-141 | A document updated is found under exactly the terms of what was written and what was kept. |
| `DocumentStore.UpdateWrites` | infomesh/index/local_store.py:551-604 | An update writes the fields given into the row of the URL, over those of the same name, and keeps all other columns and rows; it is an error that changes nothing if and only if another document has the text hash given. |
| `DocumentStore.UpdateOfNothing` | infomesh/index/local_store.py:551-604 | Without fields, or for a URL that is not stored, it changes nothing. |
| `DocumentStore.DeletesRow` | infomesh/index/local_store.py:405-422 | Deleting by id or URL removes the row with it and no other, and says whether there was one. |
| `DocumentStore.DeletedIsGone` | infomesh/index/local_store.py:131-134 | A document deleted is found under no term, and every other as before. |
| `LocalStore.LocalStore.AddDocument` | infomesh/index/local_store.py:198-251 | Adds the document under a new id, with its compressed text if compression is on, or nothing when its URL or text hash is there. |
| `LocalStore.LocalStore.GetDocument` | infomesh/index/local_store.py:379-394 | Finds the row by id and gives its compressed text, if there is one, instead of its text. |
| `LocalStore.LocalStore.GetDocumentByUrl` | infomesh/index/local_store.py:396-403 | The same by URL. |
| `StoredText.ReadsBackIff` | infomesh/index/local_store.py:379-403 | However a run goes on after a document was added, reading it gives the text the table, the index and every export hold if and only if compression is off or that is still the text it was added with; otherwise reading gives the first text. |
| `StoredText.UpdatedTextIsNotRead` | infomesh/index/local_store.py:551-604 | With compression on, a document whose text is updated is found by the terms of its new text and read with its old one. |
| `StoredText.RunTraced` | infomesh/index/local_store.py:551-604 | No operation changes the URL, language, crawl time or compressed text of a row, and no id is given twice. |
| `LocalStore.LocalStore.UpdateDocument` | infomesh/index/local_store.py:551-604 | Writes the given fields and re-indexes; a text hash of another document is an integrity error. |
| `LocalStore.LocalStore.DeleteDocument` | infomesh/index/local_store.py:405-422 | Deletes by id, from table and index. |
| `LocalStore.LocalStore.SoftDelete` | infomesh/index/local_store.py:606-617 | Deletes by URL, from table and index. |
| `LocalStore.RepublishLocalIndex` | infomesh/services.py:152-214 | The loop publishes all documents up to the limit in batches, whether publishing succeeds or not, and its total counts what the successful ones report. |
| `LocalStore.BatchesCover` | infomesh/services.py:168-181 | The batches are the documents in order, each once, none empty or larger than the batch size. |
| `LocalStore.RepublishedIs` | infomesh/services.py:152-190 | What is republished is all documents in order, or as many as the limit allows, in full batches of the size given, brought between 1 and 1000, and a last one. |
| `LocalStore.TotalIs` | infomesh/services.py:190-214 | The total is what the batches that were published report; those that failed add nothing. |
| `LocalStore.PageIs` | infomesh/index/local_store.py:500-522 | A page begins at the offset and has as many documents as asked for, at least one and at most ten thousand, as far as there are so many. |
| `SnapshotFile.ExportImport` | infomesh/index/snapshot.py:58-263 | Within the limits of ReadableIff, a snapshot of any reachable store imported into an empty one gives every row back in order and in every column that is exported, with new ids, the times of the import and the text packed again, none skipped; importing it again adds none. |
| `SnapshotFile.ReadableIff` | infomesh/index/snapshot.py:166-220 | A written snapshot can be read back, and then gives the documents written, if and only if file and header are within their limits, header and documents expand to at most 100 MiB, and the documents are within the unpacker's limits, at most 65536 of them. |
| `SnapshotFile.ReadRefuses` | infomesh/index/snapshot.py:176-220 | Of any file, a newer format version is refused, and otherwise exactly an announcement of more than 100000 documents as too many. |
| `SnapshotFile.ReadRefusesSizes` | infomesh/index/snapshot.py:150-176 | So is exactly a file above 1 GiB, one below four bytes, and one whose header is announced above 10 MiB. |
| `SnapshotFile.Pack32RoundTrip` | infomesh/index/snapshot.py:93-97 | The four length bytes give the length back. |
| `Snapshot.ImportCounts` | infomesh/index/snapshot.py:222-249 | Imported and skipped documents add up to all of them, and the rows that were there stay in front. |
| `Snapshot.FirstKept` | infomesh/index/snapshot.py:222-249 | A document is taken if and only if neither the store nor a document taken before has its URL or its text hash. |
| `Snapshot.ImportTwice` | infomesh/index/snapshot.py:222-249 | Importing the same documents again adds none, into any store. |
| `LocalStore.ImportSnapshot` | infomesh/index/snapshot.py:143-263 | The loop adds the documents one by one and counts; a file that cannot be read changes nothing. |
| `Keywords.ExtractsTop` | infomesh/index/distributed.py:133-159 | The keywords are different words of the text with at least two characters that are no stop words, the more frequent ahead and of equally frequent ones the one met first, as many as asked for, and every such word left out ranks behind all of them. |
| `Keywords.ExtractKeywords` | infomesh/index/distributed.py:133-159 | The counting loop and the stable sort compute those keywords. |
| `Distributed.QueryFindsAll` | infomesh/index/distributed.py:235-276 | After a batch, with no keyword beyond 100 documents and no stale pointer of this node, a query returns exactly one pointer of this node per document of the batch that has one of its keywords, with the document's id, URL and title and its score times the keywords it has, and all pointers best first. |
| `Distributed.MatchCountIsSize` | infomesh/index/distributed.py:133-159 | The keywords a document has are the words of the query among its fifty keywords; a document without id, URL or text has none. |
| `Distributed.RepublishedUnder` | infomesh/p2p/dht.py:383-400 | Whatever was stored under a keyword, a batch puts its own pointers first, each key once, and keeps the older ones of other keys behind them until there are a hundred; a keyword the batch does not have is left as it was. |
| `Distributed.StoredUnder` | infomesh/p2p/dht.py:383-400 | Under a keyword that at most 100 documents have, and without stale pointers, the pointers of this node are those of all of these documents, once each. |
| `DistributedIndex.DistributedIndex.PublishBatch` | infomesh/index/distributed.py:278-346 | Leaves under each keyword the first hundred documents that have it, before what was there, and returns the number of different keywords; Distributed.StoredUnder says what each pointer holds. |
| `DistributedIndex.PublishedDocuments` | infomesh/index/distributed.py:291-309 | A document counts as published if it has an id, a URL and a word that can be a keyword. |
| `DistributedIndex.DistributedIndex.RunQuery` | infomesh/index/distributed.py:235-276 | The two loops add up the scores per document and sort. |

## Left out

- Fetching, parsing, rendering, ranking by BM25, snippets, the dashboard, the HTTP API and the command-line output: no state machine of their own to prove something about.
- Floating point: scores and credits are reals, so the rounding of floats is not modelled, and neither is the order of float additions; nor is the time of update in the authority table.
- `infomesh update`, which writes the PID file without the lock, and the lock on systems without fcntl: not part of the startup model.
- `set_urls_per_hour`: the hourly limit is a constant of a run.
- Several concurrent consumers of `get_url`, repeated completions of one URL, and completions of URLs the scheduler never handed out: the scheduler's runs have one consumer and mark each URL handed out once.
- How long a consumer waits before it cancels `get_url`, except in the theorems about five seconds: elsewhere a run may cancel it at any wait.
- CreditLedger.CreditLedger.RecordAction: note, hash, signature and owner e-mail of an entry are not stored, because they do not enter the balance; entries written by older versions of the git contribution actions are not modelled either.
- Signatures of credit summaries: an abstract check. The entry count and tier of a summary are displayed only and left out, and `remove_peer` of the sync store has no caller.
- Hashes (SHA-256, MD5), URL normalisation, word splitting, the full-text tokenizer and the list of stop words are abstract functions; distinct peers are assumed to have distinct hashes where a theorem says so.
- zstd, JSON and msgpack are assumed to be lossless, zstd up to the 100 MiB at which its wrapper raises; nothing is assumed about them on other input.
- SQLite errors other than uniqueness violations.
- Deduplicator.DeduplicatorDB.MarkSeen: the time column of the row is left out, because nothing reads it.
- LocalStore.ImportSnapshot: indexing the imported documents in an optional vector store is left out.
- CreditSyncManager.CreditSyncManager.ReceiveSummary: the signature check is an abstract predicate of the summary.
- The recrawl columns of a document are one map: they are not indexed.
- The DHT of the distributed index is a map in which every put and get succeeds: rate limits, failures and malformed pointers are left out, and so are the conversions of untyped document fields.
- Distributed.QueryFindsAll: says nothing about pointers of other nodes, which this node does not control, and excludes stale pointers of its own, which would be found and scored as well.
- LocalStore.RepublishLocalIndex: the table does not change while it is being published; rows deleted meanwhile would shift the pages.
- heapq is modelled by what it promises: some least element is at the head.
- Freshness labels, conditional request headers, suggestions, statistics and the vector store: they would only add easy members.
