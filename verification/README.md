# Verified model of the SerpentSeek search chain

SerpentSeek answers a search request by running a user-drawn graph of blocks, the
*chain*. This project models, in Dafny 4.11, the parts of that system in which a mistake
would be hardest to see, and proves what they promise.

* **The validator** (`Chain`, `Graph`, `CycleSearch`, `Validate`, `Lawful`): three-colour cycle
  search with a witness, breadth-first reachability, and every error and warning of a chain.
  `ValidateChain` reports exactly the problems a declarative reading of the graph calls for;
  `AcceptsExactly` says of blocks and edges alone what it accepts.
* **The executors** (`Plan`, `Walk`, `FirstSuccess`, `FullChain`, `Scheduler`, `Legacy`): the
  fallback walker, the wave executor with its in-degree counters, the linear walker kept
  for old chains, and the attempt loop they share. Each is written as the code writes it
  and proved against a function or a step relation; what acceptance by the validator
  implies for them is proved about those.
* **What drivers decide** (`Attempts`, `Steering`, `Verdicts`, `Traces`, `Engine`): attempts, ways taken,
  status, error, answer and trace of whole runs, read off the drivers' results, the stored
  edges and the settings, without the executors' own intermediate verdicts.
* **Parallel branches** (`Branches`, `Budget`, `Confluence`, `Races`): the siblings of a wave
  as program counters over the atomic accesses they make, under every schedule.
* **What a request returns** (`Merge`, `Results`): the deduplicating merger, and the rows and
  statistics of whole runs in terms of the rows the blocks sent.
* **Compatibility** (`Migration`, `Saved`, `Refinement`, `Exactness`, `Examples`, `Warnings`,
  `Defaults`): what opening an old chain in the editor does to it, in both modes, and what the validator's
  warnings are worth.
* **The circuit breaker** (`Cooldown`), **the event hub** (`Hub`, `FanOut`, `Resume`), **calendar quotas and
  their retention** (`Calendar`, `Quotas`, `Dates`), **the rate limiter** (`RateLimit`) and **the log
  redactor** (`Redact`, `Masking`).

Drivers are an oracle from a block and an attempt number to a result; clock readings,
settings and link normalisation are parameters. All results hold for every choice of them
unless a hypothesis says otherwise.

## Where the code and its documentation part ways

* The documentation says of opening an old chain in the editor that "the result is
  unchanged" (`README.md:330-332`). In first-success mode that is so
  (`MigrationPreservesFirstSuccess`). In full-chain mode it is not: the linear walker
  follows one neutral edge per block, the wave executor follows them all, merges in plan
  order, and drops the sources of a block that gave an answer. `MigrationExact` proves the
  exact condition for every accepted chain, and it can be checked before the chain is
  opened: the walk meets every provider block neutral edges reach, in plan order, and its
  answer blocks have sources switched off. Should drivers attach answers to failed results,
  the walk may moreover meet one answer block at most (`MigrationExactAlways`).
  `ForkChanges` is the smallest chain that changes, `LineStays` one that does not.
* Closing the hub is not safe while requests still publish: sends happen after the lock is
  released (`internal/sse/hub.go:104-111`), closing takes the channels away under it
  (`internal/sse/hub.go:115-125`), a send to a closed channel panics, and the server closes
  the hub before it waits for requests to end (`internal/httpd/server.go:440-444`).
  `CloseKills` says exactly when a close can do that, `CloseRace` is the shortest run in
  which it does.
* The limiter is documented as a fixed window (`internal/auth/ratelimit.go:8`); the code keeps
  a sliding log, and it is the sliding property that is proved. The log is shared by calls
  with different windows, and then a short window makes a long one forget: two windows may
  be mixed only if they are equal (`WindowsMayMix`), while a single call is still judged
  right if no earlier one looked back less far (`DecisionIsExact`). The program itself uses
  one window per limiter.
* The hub promises late subscribers the full trace (`internal/sse/hub.go:20-21`); its buffers
  are bounded, and so are the channels, which a send that finds them full is lost to.
  `ReachesAll` says exactly when a subscriber gets everything meant for it; `LateSubscriber`
  is exact for one that names no id, `SlowReader` for one that reads nothing.
* The validator warns when a chain "may not finish" within the attempt budget
  (`internal/engine/validate.go:199-213`), so its silence should mean that no attempt is
  lost. It looks at positive settings only, while the engine runs a setting of zero or less,
  which the settings and configuration handlers store unchecked
  (`internal/httpd/handlers_settings.go:76`, `internal/httpd/handlers_config.go:203`), with ten
  attempts (`internal/engine/engine.go:422-425`). `SettingDecides` proves that in each of the three
  modes silence means no loss, for every accepted chain, if and only if the setting is
  positive; one block with ten retries is the chain that loses. Per chain it is enough that
  the setting is positive or the attempts fit the default (`SilentFits`). Nor does the
  warning count the further upstream calls of an attempt (`CallsAreNotCounted`).
* The redactor promises that registered secrets never reach the logs
  (`internal/logging/redact.go:8-10`). That holds for a secret exactly when the mask cannot
  take part in an occurrence of it (`SafeExactly`); every secret without a star qualifies.

## Model

| member | source | states |
|---|---|---|
| Graph.Search | internal/engine/validate.go:248-268 | the queue-driven search visits exactly the vertices some path from the start reaches |
| CycleSearch.Finder.Visit | internal/engine/validate.go:285-312 | a reported cycle is a closed walk along edges; otherwise the node and all it leads to are black, with ranks falling along every edge |
| CycleSearch.FindCycle | internal/engine/validate.go:271-321 | the answer is empty exactly when the edges between known nodes have no cycle, and any other answer is a closed walk along them |
| Chains.Adjacency | internal/engine/validate.go:249-255 | the table built edge by edge has exactly the arcs of the edges, or of the neutral ones |
| Validate.ValidateChain | internal/engine/validate.go:22-245 | the errors and the warnings are exactly those the graph calls for, and the verdict is the absence of errors |
| Validate.CheckNodes | internal/engine/validate.go:46-125 | node errors and stale-provider warnings, the index of usable nodes, and whether any block is a provider |
| Validate.CheckReach | internal/engine/validate.go:194-209 | unreachable blocks are exactly those no path from the entry meets; the potential is the sum of retries + 1 over the others' providers |
| Validate.AcceptedIsWellFormed | internal/engine/validate.go:49-199 | an accepted chain has distinct keys, 0 to 10 retries, known edge ends, no cycle, one entry that reaches every block, and Start blocks with a neutral way out |
| Lawful.AcceptsExactly | internal/engine/validate.go:22-199 | a chain is accepted if and only if, said of blocks and edges alone: the mode is known, keys differ, some block is a provider block; every block has a key, a known kind, mode and policies, a provider if it needs one, limits in range, and answers only where a driver can; every Start has a neutral way out and every Join a branch, in full-chain mode a neutral one; edges join known blocks on known conditions; there is no cycle; and one block is the entry and reaches all others |
| Lawful.IdentityErrorsExactly | internal/engine/validate.go:46-80 | a block with a blank key gets that error and no other; else which block is reported for a key used before, an unknown kind, a missing provider |
| Lawful.LimitErrorsExactly | internal/engine/validate.go:98-110 | which block is reported for its timeout, retries or delay |
| Lawful.EdgeErrorsExactly | internal/engine/validate.go:126-138 | an edge is reported exactly for an end that no block with a usable key has, and for a condition outside the vocabulary |
| Lawful.RemarksExactly | internal/engine/validate.go:232-243 | on an accepted chain the remarks about single blocks: a logical block that names a provider, and in first-success mode an entry with two neutral ways out and every Join |
| Lawful.UnclearEntrySilences | internal/engine/validate.go:152-244 | with no entry, or two, the chain is rejected and nothing is reported that hangs on the entry |
| Plans.BuildPlan | internal/engine/plan.go:24-60 | indexing one node and edge at a time gives the plan whose start is the first Start block, else the first flagged one |
| Plans.StartIsFirst | internal/engine/plan.go:41-59 | requests enter at the first block of the Start kind, without one at the first flagged block, and without either there is no plan |
| Plans.PlanOfWellFormed | internal/engine/plan.go:24-60 | an accepted chain has a plan, it starts at the sole entry, and its index and order are those of the nodes |
| Plans.NextTakesBest | internal/engine/plan.go:130-163 | a walk that neither stops nor insists takes the first of the best-suited edges: exact condition, then neutral, then any |
| Plans.NextInsists | internal/engine/plan.go:142-149 | under the edge policy the first admitting edge is taken, and without one the walk ends |
| Plans.NextFollowsEdge | internal/engine/plan.go:130-163 | whatever the policy and outcome, the next block is held and an edge of the chain leads to it |
| Plans.FullChainStepFollowsEdge | internal/engine/plan.go:172-183 | the linear walk moves along neutral edges only |
| Plans.FirstNeutralFollowsEdge | internal/engine/engine.go:850-855 | a logical block passes the walk on along a neutral edge |
| Steering.LinearStepTakesFirst | internal/engine/plan.go:172-183 | among the stored edges the linear walk takes the first neutral one that leaves the block, and ends where there is none |
| Merge.Merger.Add | internal/engine/dedupe.go:63-89 | the rows are folded in one by one, and the flag says exactly whether the merged rows changed |
| Merge.Merger.Contributing | internal/engine/dedupe.go:102-114 | the scan lists each source of all rows once, by where it first appears |
| Merge.MergeIsDigest | internal/engine/dedupe.go:49-89 | after any input the rows are the first occurrences of distinct keys in order, each with its contributors once, and the key index is the exact inverse |
| Merge.FirstsExact | internal/engine/dedupe.go:68-87 | the positions kept are, in order, exactly those whose key no earlier row has |
| Merge.ContributorsExact | internal/engine/dedupe.go:69-83 | a source list has every provider that sent the link, once each |
| Merge.ContributorsInOrder | internal/engine/dedupe.go:69-83 | a source list names its providers in the order in which they first sent the link |
| Merge.ProvidersInOrder | internal/engine/dedupe.go:100-114 | the providers of a result are named in the order in which its rows mention them |
| Merge.AddRowsIsFeed | internal/engine/dedupe.go:63-89 | adding a block's rows to a digest is the digest of the longer input |
| Merge.Accounting | internal/engine/dedupe.go:92-129 | rows returned and duplicates dropped never exceed the rows collected, and nothing is empty unless nothing came |
| Merge.ProvidersAreSenders | internal/engine/dedupe.go:102-114 | the providers named are exactly those that sent a row |
| Cooldown.ProviderCooldowns.IsBlocked | internal/engine/cooldown.go:23-39 | the answer and the state after it, an expired cooldown forgotten |
| Cooldown.ProviderCooldowns.Record | internal/engine/cooldown.go:43-64 | whether the failure tripped the breaker, and the counters after it |
| Cooldown.ProviderCooldowns.CountActive | internal/engine/cooldown.go:67-83 | counts the instances in cooldown and forgets exactly the expired ones |
| Cooldown.BreakerRefinesHistory | internal/engine/cooldown.go:22-83 | over any history of attempts, probes and counts about any instances, whatever threshold and pause each found in force, whose clock readings do not fall from call to call: a failure trips exactly when failures since the last success, trip or observed expiry reach the threshold, a probe is blocked exactly while the latest uncleared trip has not run out, and a count is the number of such instances |
| Cooldown.SlotReadsHistory | internal/engine/cooldown.go:12-16 | the stored counter and deadline of each instance are functions of such a history |
| Cooldown.OthersUntouched | internal/engine/cooldown.go:43-64 | a call about one instance leaves what is known of every other |
| Cooldown.ActiveProbesAll | internal/engine/cooldown.go:67-83 | counting treats every instance as a probe at that moment would |
| Cooldown.DisabledBreakerInert | internal/engine/cooldown.go:44-46 | attempts that find no positive threshold in force leave nothing behind |
| Cooldown.TripLasts | internal/engine/cooldown.go:43-64 | after a trip probes are turned away for exactly the pause in force then, a minute if it is not positive, unless an attempt succeeds or trips again |
| Walks.Run.TakeStep | internal/engine/engine.go:457-465 | a step is granted exactly while the budget lasts |
| Walks.Run.ResolveNode | internal/engine/engine.go:540-566 | whether the block is skipped, the breaker probed only when nothing else forbids it |
| Walks.Run.ExecNode | internal/engine/engine.go:579-764 | the attempt loop returns the run, and leaves the budget, dead list, breaker, answer and recorded attempts, of the recursive reading of it |
| Walks.WinsIffSuccess | internal/engine/engine.go:741-749 | the attempt loop counts a result as a win exactly when its edge outcome is success |
| Walks.LoserIsNotSuccess | internal/engine/engine.go:822-829 | a block that did not win hands on a result whose outcome is not success |
| Walks.ExecWithinCost | internal/engine/engine.go:594-740 | a block spends at most its attempts plus the further stage calls they report |
| Walks.ExecUnrefused | internal/engine/engine.go:596-599 | a budget that covers the block's cost plays no part in its run |
| Attempts.AttemptsExactly | internal/engine/engine.go:579-764 | a block makes, in order, the one number of attempts after which a result satisfies it, fails for good, or retries or budget are used up; each is recorded with its number, status and rows, charged with its calls and reported to the breaker; the block ends with the last result, and with rows only if that satisfied it, by its own settings before the general ones |
| FirstSuccess.RunFirstSuccess | internal/engine/engine.go:774-847 | on an acyclic plan the loop ends and returns the output of the iterated step, within one more iteration than there are blocks |
| FirstSuccess.StepFollowsEdge | internal/engine/engine.go:784-830 | every iteration that goes on moves along an edge of the chain |
| FirstSuccess.NeverRevisits | internal/engine/engine.go:784-830 | no block is visited at two iterations |
| FirstSuccess.AcceptedWalkEnds | internal/engine/engine.go:784-846 | on every accepted chain, for every driver and budget, the walk visits no block twice and ends within as many iterations as there are blocks, the concluding one aside |
| Steering.WalkIsSteered | internal/engine/engine.go:784-830 | the next iteration stands at the target of the edge the policy picks for "success" exactly if the last result satisfied the block, for "empty" exactly if the driver had succeeded all the same, for "fail" exactly if it had not or the block was skipped; a logical block passes on along its first neutral edge; the walk ends at a block exactly if it is satisfied and not told to go on |
| Steering.SkipSteers | internal/engine/engine.go:789-796 | a block whose provider is not set up, given up, unknown or in cooldown is recorded as skipped, costs nothing, and leads on as a failed one |
| Steering.GivenUpExactly | internal/engine/engine.go:750-751 | a provider is given up exactly when one of its blocks has ended with a permanent failure earlier in the request |
| Steering.FallbackVerdict | internal/engine/engine.go:800-846 | the status and error a fallback run ends with: well at a satisfied block, else by the rows collected and the result heard last |
| Traces.FallbackIsNumbered | internal/engine/engine.go:776-829 | in a fallback run it is the place among the provider blocks the walk stood at, from the start of the plan on |
| FullChain.NeverStalls | internal/engine/engine.go:1066-1075 | while a reachable block is unfinished some block is ready, because the graph is acyclic |
| FullChain.LayersOrder | internal/engine/engine.go:996-1107 | waves are disjoint, and no block comes before its reachable neutral predecessors are done |
| FullChain.WavesAreTopological | internal/engine/engine.go:969-1107 | on every accepted chain the waves hold each reachable block exactly once, after all its reachable neutral predecessors |
| FullChain.LayersGreedy | internal/engine/engine.go:1066-1106 | a block not in the first wave waited for a neutral predecessor in the wave before its own, and within a wave blocks stand in plan order |
| Scheduler.InDegrees | internal/engine/engine.go:996-1007 | each counter is the number of neutral edges still to come from reachable blocks |
| Scheduler.CollectReady | internal/engine/engine.go:1067-1075 | zero counters pick exactly the blocks whose predecessors are done, in plan order |
| Scheduler.MarkDone | internal/engine/engine.go:1099-1106 | the counters after a wave count the edges still to come |
| Scheduler.ExecuteWave | internal/engine/engine.go:1076-1098 | a wave run in plan order gives each provider block the next trace index |
| Scheduler.MergePass | internal/engine/engine.go:1109-1145 | merge, last status, last error and answer are picked in plan order |
| Scheduler.RunFullChain | internal/engine/engine.go:954-1176 | the queue, counters and merge loop return the output the declarative waves define |
| Verdicts.FullChainIsJudged | internal/engine/engine.go:1109-1176 | that output, read off the last results of the processed blocks in plan order, each of them the driver's: ok exactly if rows are returned, or the last block answered, or it came back with nothing and the request holds an answer; empty exactly if it came back with nothing and there is neither; else failed with the last error named; rows, names, statistics and answer likewise |
| Verdicts.WavesAreJudged | internal/engine/engine.go:1066-1176 | the same under every interleaving of every wave |
| Traces.WavesAreNumbered | internal/engine/engine.go:1076-1083 | under every interleaving the index of a recorded attempt is the place of its block among the provider blocks of the waves, wave by wave and in plan order |
| Branches.SoloIsProcess | internal/engine/engine.go:1024-1063 | a branch that runs alone is the sequential block |
| Branches.SequentialRun | internal/engine/engine.go:1066-1107 | running each wave in plan order is one of the schedules |
| Branches.CanComplete | internal/engine/engine.go:1086-1098 | from any configuration every branch can still finish |
| Branches.LoneRun | internal/engine/engine.go:1084-1098 | waves with one provider block at most end alike under every interleaving, for any budget and drivers |
| Budget.RunAccounting | internal/engine/engine.go:441-487 | under every schedule the attempts started never exceed the budget, and the step counter is those attempts plus the further stage calls |
| Budget.NoAttemptRefused | internal/engine/engine.go:455-465 | while the budget covers a wave no branch is refused an attempt, at any point of any schedule |
| Budget.AcceptedRunCovers | internal/engine/engine.go:1066-1107 | on an accepted chain a covering budget processes every reachable provider block and refuses no attempt, whatever the interleaving |
| Budget.SilentFits | internal/engine/validate.go:199-213 | an accepted chain is spared the budget warning if and only if the setting is not positive or the attempts of its reachable blocks fit it; with a setting that is not positive they fit if and only if they fit the default of ten |
| Budget.FittingCost | internal/engine/engine.go:422-425 | when they fit the budget the setting gives, single-call drivers stay within it in a full-chain run |
| Confluence.FuturesHold | internal/engine/engine.go:1019-1063 | on one clock, what every branch will end with does not change when another branch moves |
| Confluence.UntimedFuture | internal/engine/engine.go:540-764 | a branch whose instance is in no cooldown ends with the same block and steps whatever its clock reads |
| Confluence.PendingReadsClock | internal/engine/engine.go:559-561 | with a cooldown pending the clock does decide: the block is attempted exactly when looked up at or after the deadline |
| Confluence.ParallelIsConfluent | internal/engine/engine.go:1021-1176 | any two interleavings give the same rows, statistics, providers, answer, status, error and step count, on one clock, or on clocks of their own if no instance starts in a cooldown and no two waves share one (or the breaker is off) |
| Confluence.ParallelIsSequential | internal/engine/engine.go:1086-1145 | every interleaving gives what running each wave in plan order gives, the clocks as before |
| Races.LastAttemptRaces | internal/engine/engine.go:1043-1049 | with one attempt left, which of two siblings is left out depends on the schedule |
| Races.SharedInstanceRaces | internal/engine/engine.go:750-753 | siblings that share an instance race if one of them fails for good: the other runs or is skipped |
| Races.FailedAnswersRace | internal/engine/engine.go:636-640 | siblings that attach answers to failures race for the request's answer: the last to write decides |
| Results.FullChainReturnsDigest | internal/engine/engine.go:1109-1155 | the rows are the digest of what the successful blocks sent, in plan order, cut to the count; the statistics count rows sent, rows returned, and all duplicates |
| Results.FirstSuccessReturnsWinners | internal/engine/engine.go:797-836 | a fallback run returns the digest of its winners' rows, a single winner's rows as they are |
| Results.LegacyReturnsFirstWinner | internal/engine/engine.go:799-811 | a chain without a Start block returns the first winner's rows, or none if no block wins |
| Legacy.RunFullChainLegacy | internal/engine/engine.go:863-949 | the linear loop returns the output of the recursive walk |
| Verdicts.LinearIsJudged | internal/engine/engine.go:863-945 | that output, status and error included, read off what the visited blocks heard in walk order |
| Traces.LinearIsNumbered | internal/engine/engine.go:872-917 | the index of a recorded attempt is the place of its block among the provider blocks of the path |
| Engine.Request | internal/engine/engine.go:411-439 | a request runs the executor its plan calls for, under the setting's budget or ten attempts, and returns the output proved of it |
| Engine.AnswersWellShaped | internal/engine/engine.go:1196-1222 | in every mode a request ends as ok, empty or failed, names an error only if it failed, returns rows only if it is ok and no more than asked for, and is never empty beside an answer |
| Legacy.VisitBlock | internal/engine/engine.go:872-917 | one visited block: the state, tally and index after it |
| Legacy.LegacyPathShape | internal/engine/engine.go:872-918 | on an acyclic plan the walk is a path of neutral edges from the start, repeats no block, and ends where no neutral edge leads on |
| Migration.MigrationPlans | web/src/lib/components/FlowEditor.svelte:224-263 | the migrated chain's plan starts at the new block and is otherwise the old plan with pinned blocks |
| Migration.StepSame | web/src/lib/components/FlowEditor.svelte:259-262 | one step of the migrated fallback walk is the step of the original |
| Migration.MigrationPreservesFirstSuccess | README.md:330-332 | opening an accepted first-success chain changes no state of any run but for one iteration at the Start block: same blocks, indices, rows and output |
| Saved.OpenedIsAccepted | web/src/lib/components/FlowEditor.svelte:224-262 | an accepted chain without a Start block is accepted again once the editor has given it one, whatever its key and place |
| Engine.OpenedAnswersAlike | README.md:330-332 | a first-success request on an accepted old chain returns the same before and after opening, for every driver, setting, row count and breaker |
| Refinement.ReachIsOld | internal/engine/engine.go:980-992 | the migrated executor reaches the Start block and exactly what neutral edges reached from the old entry |
| Refinement.WavesFollowWalk | internal/engine/engine.go:1066-1107 | each wave holds one provider block at most, and the waves hold the walk's provider blocks in the order of the walk |
| Refinement.LayersAreList | internal/engine/engine.go:1024-1107 | such waves run as the list of their provider blocks: logical blocks change nothing |
| Refinement.WalkIsList | internal/engine/engine.go:872-917 | so does the linear walk, with its merge and answer |
| Refinement.VisitIsProcess | internal/engine/engine.go:891-917 | the walker's visit to a block is the executor's block and its merge |
| Refinement.WavesRefineWalker | internal/engine/engine.go:863-1176 | on an accepted chain whose walk covers the provider blocks neutral edges reach in plan order, the wave executor after migration gives the walker's output and recorded attempts, for every budget, driver and interleaving, as long as answer blocks add no sources and those after the first attach no answer to a failure |
| Exactness.CoverageNeeded | internal/engine/engine.go:980-992 | a reachable provider block off the walk's path makes the outputs differ for some driver |
| Exactness.OutOfOrder | internal/engine/engine.go:1109-1114 | so do two provider blocks met out of plan order |
| Exactness.SourcesOffNeeded | internal/engine/engine.go:1051-1057 | so does an answer block that may add its sources |
| Exactness.OneAnswerNeeded | internal/engine/engine.go:636-640 | so do two answer blocks, for a driver that attaches an answer to a failure |
| Exactness.MigrationExact | README.md:330-332 | for every accepted full-chain chain migration leaves every output alone, for all drivers that return answers only with success, all budgets, row caps, breakers and interleavings, if and only if none of the first three occurs |
| Exactness.MigrationExactAlways | README.md:330-332 | for all drivers whatever, if and only if none of the four occurs |
| Examples.ForkChanges | README.md:330-332 | a fork of three search blocks is accepted, and opening it changes its results for some driver |
| Examples.LineStays | README.md:330-332 | a line of two is accepted, and opening it changes none |
| Examples.PlansExist | internal/engine/plan.go:24-60 | both have plans before and after, whatever the key and place of the Start block |
| Warnings.WarnedIsSkipped | internal/engine/validate.go:215-229 | a block of an accepted full-chain chain has the "not reachable via next edges" warning exactly when the executor leaves it out |
| Warnings.LegacyLosesNothing | internal/engine/validate.go:201-213 | when the attempts fit the budget of the setting a linear run ends as under any larger budget |
| Warnings.FirstSuccessLosesNothing | internal/engine/validate.go:201-213 | then a fallback run returns what it would under any larger budget |
| Warnings.FullChainLosesNothing | internal/engine/validate.go:201-213 | then a wave run processes every reachable provider block and refuses no attempt, whatever the interleaving |
| Defaults.WavesKeepExactly | internal/engine/engine.go:1066-1107 | on an accepted chain the wave executor loses nothing to a budget, for all single-call drivers and interleavings, if and only if the attempts of the blocks it reaches fit |
| Defaults.LegacyKeepsExactly | internal/engine/engine.go:872-918 | the linear walker loses nothing if and only if the attempts of the blocks on its path fit |
| Defaults.SettingDecides | internal/engine/validate.go:201-213 | in each mode the warning's absence means no loss on any accepted chain, for single-call drivers, if and only if the setting is positive |
| Defaults.CallsAreNotCounted | internal/engine/engine.go:737-739 | with two upstream calls an attempt a chain without the warning still loses attempts |
| Hub.Hub.Subscribe | internal/sse/hub.go:47-72 | registers the subscriber and returns the buffered events newer than the id |
| Hub.Hub.Unsubscribe | internal/sse/hub.go:62-71 | removes the subscriber, and its topic with the last one |
| Hub.Hub.Publish | internal/sse/hub.go:76-104 | the locked part: next id, bounded buffer, eviction, and the audience fixed |
| Hub.Hub.Close | internal/sse/hub.go:115-125 | closes the hub and exactly the channels in place, and drops all subscriptions |
| Hub.AppendTracks | internal/sse/hub.go:86-99 | every event keeps the bookkeeping: topics are those admitted last, in order, each buffer the longest allowed suffix of what followed its admission |
| Hub.BufferLimits | internal/sse/hub.go:90-99 | at most 256 topics and 500 events each, never an empty buffer, ids rising |
| Hub.ReplayExact | internal/sse/hub.go:55-60 | a replay is, in order and once each, the events of the topic that are newer than the id, not evicted, and among its last 500 |
| FanOut.RunSound | internal/sse/hub.go:47-125 | the invariant of every interleaving of publishing, subscribing, sending, receiving and closing, closing while sends are under way included |
| FanOut.ExactlyOnce | internal/sse/hub.go:74-112 | an event published during a subscription is sent to it exactly once or still to be sent, unless its publisher died of a close, and never twice; any other never; the replay holds exactly the replayable newer events from before, so none is both |
| FanOut.OtherTopicsNever | internal/sse/hub.go:100-112 | events of other topics reach a subscription neither way |
| FanOut.ChannelsConserve | internal/sse/hub.go:106-111 | what a consumer read and what waits in its channel are, in order, the sends that found room |
| FanOut.BuffersTrack | internal/sse/hub.go:86-99 | in every reachable state the buffers are the longest allowed suffixes of what followed each topic's admission |
| FanOut.CloseKills | internal/sse/hub.go:104-125 | a close can be followed by a send to a closed channel if and only if a send is under way to a subscription still in place, or to one whose channel an earlier close has taken |
| FanOut.CloseRace | internal/sse/hub.go:104-125 | subscribing, publishing, closing and then sending ends the publisher |
| FanOut.OpenIsSafe | internal/sse/hub.go:104-112 | without a close no publisher ever dies of a send |
| Resume.ReplayComplete | internal/sse/hub.go:55-60 | a replay lacks nothing that followed the id if and only if nothing did, or at most 500 events of the topic did and the topic, not evicted, was admitted before the first of them |
| Resume.ReachesAll | internal/sse/hub.go:20-31 | in every interleaving everything meant for a subscriber is replayed, was sent and found room, or is still to be sent, if and only if the replay lacked nothing and no send to it met a full channel |
| Resume.FewAreAllTaken | internal/sse/hub.go:106-111 | in any run, if no more events were due to a subscriber than its channel holds, none was refused |
| Resume.SlowReader | internal/sse/hub.go:104-111 | to a subscriber that reads nothing exactly the first 256 events get through |
| Resume.LateSubscriber | internal/sse/hub.go:20-21 | a subscriber that joins after n events of one topic and names no id gets them all if and only if n is at most 500 |
| Calendar.YearFormula | internal/httpd/quotas.go:94-98 | adding up month lengths gives the closed Gregorian formula |
| Calendar.DateOrder | internal/store/sqlstore/sqlstore.go:361-365 | written dates of the years 0 to 9999 compare as texts as their days do |
| Dates.MonthsAreCivil | internal/httpd/quotas.go:94-98 | adding up month lengths gives the closed formula for the first day of every month |
| Dates.DateReadsBack | internal/httpd/quotas.go:94-100 | read digit by digit, a written date is a year, a month from 1 to 12 and a day of that month that are the day written |
| Dates.KeyNamesPeriod | internal/httpd/quotas.go:86-126 | a period key reads as a date and the kind of quota; the date is the first day of the period that holds the moment at the quota's offset, a Monday, a first of the month or the day itself, and the reset is the midnight after the last |
| Quotas.PeriodIsInterval | internal/httpd/quotas.go:86-126 | a moment belongs to the current period exactly when it lies between its start and the reset moment, and then has the same reset moment |
| Quotas.KeyChangesAtReset | internal/httpd/quotas.go:86-126 | the reset lies ahead, key and reset moment do not change before it, and the key changes at it, for every offset |
| Quotas.UsageStore.IncrementUsage | internal/store/sqlstore/sqlstore.go:322-330 | one counter grows by one, from nothing if absent, and is returned |
| Quotas.UsageStore.GetUsage | internal/store/sqlstore/sqlstore.go:333-340 | the counter, or zero |
| Quotas.UsageStore.DeleteOldUsage | internal/store/sqlstore/sqlstore.go:366-372 | exactly the counters whose date prefix is earlier go, and their number is returned |
| Quotas.UsageStore.Cleanup | internal/jobs/cleanup.go:57-64 | prunes by the UTC day the retention goes back to, or not at all |
| Quotas.UsageStore.RecordHit | internal/httpd/quotas.go:152-158 | counts one hit under the key in force |
| Quotas.RetentionExact | internal/jobs/cleanup.go:53-64 | a retention spares every open counter of a period kind at every offset exactly when it is at least 31 days for monthly, 7 for weekly and 1 for other quotas |
| Quotas.UsageIsHits | internal/httpd/quotas.go:143-158 | after any run of hits and sufficient cleanups the counter read is the number of hits recorded under the key in force |
| Quotas.UsageSincePeriodBegan | internal/httpd/quotas.go:143-158 | with one quota throughout it is the number of hits between the start of the period and the announced reset |
| RateLimit.Compact | internal/auth/ratelimit.go:48-53 | the slice is compacted in place to its later times, in order |
| RateLimit.RateLimiter.Sweep | internal/auth/ratelimit.go:61-75 | every log keeps its later times, emptied ones are dropped |
| RateLimit.RateLimiter.AllowLimit | internal/auth/ratelimit.go:30-58 | the decision, and all logs after it, of the declarative limiter |
| RateLimit.RateLimiter.Allow | internal/auth/ratelimit.go:22-25 | the same with the limit and window the limiter was made with |
| RateLimit.DecisionIsExact | internal/auth/ratelimit.go:30-58 | whatever windows the calls named, one that no earlier limited call looked back less far than is rejected exactly when its limit is positive and that many admissions really lie in its window |
| RateLimit.OneWindowCovers | internal/auth/ratelimit.go:22-25 | with one window throughout that is every call |
| RateLimit.WindowNeverOverflows | internal/auth/ratelimit.go:27-58 | if all calls are such, no half-open interval as long as the shortest window of a key holds more admissions than the largest limit named |
| RateLimit.SweepInvisible | internal/auth/ratelimit.go:41-47 | then a limiter that never sweeps answers the same calls alike |
| RateLimit.SweepForgets | internal/auth/ratelimit.go:41-75 | a call a window or more after the last sweep keeps of every other key exactly the hits inside its window and drops keys without any; a sooner one leaves other keys alone |
| RateLimit.WindowsMayMix | internal/auth/ratelimit.go:27-47 | a limiter used with two windows always judges by the true history if and only if they are the same length |
| Redact.Redactor.Add | internal/logging/redact.go:24-43 | trimmed values of four characters or more are registered, unless known |
| Redact.Redactor.String | internal/logging/redact.go:46-59 | every registered secret is masked in turn |
| Redact.RegisteredExactly | internal/logging/redact.go:24-43 | a text is registered exactly when it was, or is long enough and some value trims to it |
| Redact.RegistryKept | internal/logging/redact.go:30-41 | no secret is registered twice, none is short, none is forgotten |
| Masking.UntouchedExactly | internal/logging/redact.go:46-59 | a text comes back as it is exactly when no registered secret occurs in it, and any other shorter |
| Masking.MaskedInParts | internal/logging/redact.go:53-57 | the text is cut at the occurrences of a secret found from the left, none overlapping, and comes back as the same parts with the mask between them |
| Redact.NoSafeSecretSurvives | internal/logging/redact.go:46-59 | a registered secret the mask is safe for never occurs in the output, whatever else is registered and however secrets overlap |
| Redact.AddedIsMasked | internal/logging/redact.go:24-59 | a value that was added and is long enough and safe once trimmed shows in no output, neither trimmed nor as given |
| Redact.SafeExactly | internal/logging/redact.go:46-59 | a secret never survives masking if and only if it is not empty, neither starts nor ends with a star, and has no three stars in a row |
| Redact.StarFreeIsSafe | internal/logging/redact.go:45-59 | every secret without a star is safe |

## Left out

* Provider drivers, HTTP, proxies, OAuth, parsing of results: an oracle from block and attempt to result.
* The wall clock beyond what decides results, cancellation, chain timeout, per-call timeout, delays and backoff, and the concurrency limiter: assumed not to cut a run short.
* Persisting stage sub-steps, events, metrics, costs and logs: side effects; the recorded attempts are modelled.
* The fallback that fills an empty error of a failed request from its stored steps (`internal/engine/engine.go:1211-1215`).
* `prepare`, including the row count a Join with `ignore_count` lifts: the count is a parameter.
* `normalizeLink`: URL parsing is library code; every merge result holds for any key function.
* Texts of errors and warnings, and their order: problems are data; the warning about unknown provider instances depends on a list outside the chain and is not modelled.
* `Snapshot`, `Mode` and the other accessors of a plan: they copy the chain for history, or read one field of it.
* Parameter maps, labels, positions and identifiers of chains and blocks: nothing modelled reads them.
* The editor's choice of an entry for an old chain that has none: a chain the validator accepts has one.
* The order in which the store hands back the edges of a saved chain: it is assumed to be the order they were written in, which the query does not ask for (`internal/store/sqlstore/sqlstore.go:837`).
* Cooldown.BreakerRefinesHistory: the clock is read before the lock is taken, so concurrent calls may reach the breaker with readings slightly out of order; the history is assumed to have them in order.
* Exactness.MigrationExact: both executors are compared on the same clock readings for each block.
* Recovery from a panic, which is up to the caller of a publisher: here a publisher that sends to a closed channel makes no more sends.
* Overflow of the 64-bit event counter and of time arithmetic.
* Rolling-window quotas: their hits are compared as timestamp texts, which do not sort within a second.
* Concurrent check-then-increment of quotas: it is not atomic, so no hard cap is claimed.
* `quotaCache`: reuses a quota read from the store for up to five seconds, so a change made elsewhere takes effect that much later; the model reads the quota itself.
* Dates outside the years 0 to 9999, which the date layout does not keep sortable.
* White space beyond Latin-1 when trimming; strings are sequences of single-byte characters.
* Confluence.ParallelIsConfluent: assumes that answer blocks return answers only with successful results (failed ones would race for the request's answer), that siblings use different provider instances, and that the budget covers the run; two waves that share an instance whose breaker is on are covered on equal clock readings only; the trace and the order of recorded attempts are not claimed.
