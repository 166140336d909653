# Verification of the gateway's core

A Dafny 4.11 model of the gateway that fronts many MCP upstreams behind one
endpoint per namespace. It states, and proves for every input, every run or
every reachable state, what the gateway's concurrent parts keep and what its
pure and streaming parts compute. `dafny verify dfyconfig.toml` checks all of it.

## How the model is built

Each goroutine, mutex-protected block or channel operation that others can
observe is one step of a step system, and runs are arbitrary interleavings of
such steps. What the code does inside one step is written twice: as a class
whose methods update the same fields as the source, and as a function on values
that those methods are proved to compute. The theorems about runs are about the
functions.

| file | what it models |
|---|---|
| `Prelude.dfy` | options, powers, and a few facts about sequences |
| `Naming.dfy` | prefixed tool names, the cut at the first separator, upstream IDs |
| `ToolTable.dfy` | the tool table of one namespace and its incremental sync |
| `Upstream.dfy` | an upstream's fields, the failure counter, the backoff, the restart loop |
| `Lifecycle.dfy` | an upstream's whole life as a step machine, with its process groups |
| `Liveness.dfy` | what that machine can always still do: come to serve, come to its end |
| `RestartLoop.dfy` | that the step machine between runs is the restart loop of `Upstream.dfy` |
| `Agreement.dfy` | many upstreams, their handlers and the syncs, interleaved |
| `Settling.dfy` | that every run of that system can be brought to rest |
| `Breaker.dfy` | the circuit breaker and its history |
| `Dispatch.dfy` | calls going through breaker, three semaphores and deadlines |
| `OAuth.dfy` | logins towards upstreams, re-authorizations, ready channels, callbacks and waiters |
| `Search.dfy` | keyword search over the tools of a namespace |
| `MetaTools.dfy` | search_tools, describe_tools, call_tool and the connector tools |
| `Json.dfy`, `JsonText.dfy`, `JsonRoundTrip.dfy` | JSON values and text (RFC 8259): a parser, a printer, and that the first inverts the second |
| `JsonGrammar.dfy` | the grammar of JSON texts as trees, and that the parser reads exactly what has a tree |
| `JsonNumbers.dfy`, `JsonFloat.dfy` | which texts the decoder refuses for a number that 64-bit floats cannot hold |
| `JsonCut.dfy` | that a text cut and marked with an ellipsis is not JSON |
| `Utf8.dfy` | the bytes of a text (RFC 3629) |
| `Redact.dfy` | redaction through JSON nested in strings |
| `Stderr.dfy`, `StderrCuts.dfy` | the splitter that turns a child's stderr into log records, and which streams it logs alike however they are cut |
| `AuditStore.dfy`, `AuditSink.dfy`, `AuditFollow.dfy` | the audit table, the bounded buffer in front of it, `audit tail -f` |
| `Config.dfy`, `ConfigProblems.dfy` | validation of limits, namespaces and servers, what each problem it reports says, and what the other models get from it |

Some facts about the world outside are parameters or hypotheses, stated where
they are used: how a case mapping treats a blank (`Search.SaneText`), what a
regular-expression scrub does to a string (`scrub` in `Redact`), which lines
count as blank (`blank` in `Stderr`, `space` in `StderrCuts`), which URLs are
absolute and which commands can be found and executed (`Config.Host`), which URLs
make a request (`requestable` in `Config`), that login states are random and never
drawn twice (`OAuth.Next`), and that an upstream names no tool twice
(`Agreement.DistinctNames`).

## Where code and documentation disagree

The model follows the code.

- `docs/design.md:121` says prefixing makes name collisions impossible. Server
  names may hold `__` or end in `_`, and then they are not:
  `Naming.CollisionIff`, `Naming.AmbiguousNamesCollide`,
  `MetaTools.DescribeAndCallCanDisagree`. The sound condition is
  `Naming.Unambiguous`.
- The comment at `internal/supervisor/supervisor.go:190-192` counts a failed
  first start as settled. The startup callback fires on Ready, on parking for a
  login, or when the run loop ends, and on nothing else: `Lifecycle.FiredIff`; a
  failed first start is at `Lifecycle.FailedFirstStartDoesNotSettle`.
- `internal/gateway/discovery.go:58` promises that a connector's `call` takes a
  name "as returned by list_tools", but `list_tools` returns prefixed names and
  `call` takes bare ones: `MetaTools.ListedNameIsRefused`.
- `internal/gateway/limits.go:97-98` lets one trial call through. Two exits of
  dispatch leave the trial slot taken, and if no other admitted call can report,
  the upstream is shut out for good: `Dispatch.ShutOutIffWedged`,
  `Dispatch.WedgeIsReachable`.
- A callback is matched under the lock but its code is sent after it, so a code
  can reach a later login of the same upstream: `OAuth.StaleCodeCanArrive`.
- The comment at `internal/upstreamauth/manager.go:153-155` describes handlers
  built from stored credentials. A handler that a login installed keeps that login's
  own code fetcher (`:338-354`): when its server demands a new authorization it
  replaces the entry's pending state without claiming the login, and then reads
  whatever code channel the entry has. A login in progress can lose its state that
  way, exactly when is `OAuth.OwnStateLostIff` and an input is at
  `OAuth.OwnStateCanBeLost`; it can be sent the code of the re-authorization:
  `OAuth.ReauthorizedCodeCanArrive`; and its own code can go to the re-authorization:
  `OAuth.OwnCodeCanBeTaken`. When exactly a delivered code carries the state
  its login asked for is `OAuth.CodesReachTheirUpstream`.
- A login whose probe request cannot be built never clears its claim, and that is
  the only way for one to get stuck: `OAuth.LoginCanJamIff`, `OAuth.JamIsReachable`.
  The shipped gateway meets the input only where a URL that validation calls
  absolute makes no request: `Config.AcceptedLoginsNeverJam`.
- A payload with a number that 64-bit floats cannot hold is not decoded, and its
  keys are not looked at: it is scrubbed as one string (`internal/redact/redact.go:26-28`
  and `:66-74`). When exactly is `Redact.SecretBlankedIff`; an input is at
  `Redact.HugeNumberKeepsPassword`.
- Validation accepts a server listed twice in a namespace, which gives two
  supervised loops one upstream: `Config.IdsUniqueIff`, `Config.AcceptedYetUnsafe`.
- Two tools of one upstream under one name make a repeated sync put the wrong
  one back: `ToolTable.DuplicateToolsBreakRepeatSync`; exactly when a sync
  differs from a rebuild is `ToolTable.SyncEqualsRebuildIff`.
- The backoff is a 64-bit shift that can wrap. Every pause is the intended one if
  and only if the largest shift the loop can get to fits: `Upstream.DelayIsIdealIff`.
  With the default minimum it takes more than 56 permitted failures to wrap to
  nothing (`Upstream.ShiftCanOverflow`), while the shipped gateway leaves the
  maximum at its default of 5 (`cmd/gateway/main.go:136-139`).
- Audit ids are reused once the newest row is pruned, and the follower starts
  after id 1 even on an empty table: `AuditFollow.InsertShownIff`,
  `AuditFollow.PruneMakesFollowMiss`.
- `audit tail -n` beyond 1000 prints 100 rows, as a store limit out of range falls
  back to the default: the limit in `AuditFollow.TailShows`.
- The wait for a login happens inside the run whose length decides whether it
  was stable (`internal/supervisor/supervisor.go:322-331`), so time spent parked
  counts towards `StableAfter`. Whether a run was stable is an input here.

## Model

| member | source | states |
|---|---|---|
| Naming.CutInvertsPrefix | internal/gateway/discovery.go:136-143 | cutting a prefixed name gives back server and tool if and only if the server name holds no separator and does not end in an underscore |
| Naming.CutIff | internal/gateway/discovery.go:136-143 | a name is cut into two parts if and only if they are what stands before and after its first `__` |
| Naming.CollisionIff | internal/gateway/gateway.go:178 | two servers can publish one name if and only if one name with its separator is a prefix of the other |
| Naming.PrefixInjective | internal/gateway/gateway.go:178 | among unambiguous servers a published name determines server and tool |
| Naming.AmbiguousNamesCollide | internal/config/config.go:155-158 | every server name the name rule accepts but that is ambiguous collides with another accepted name |
| Naming.PrefixingDoesNotRuleOutCollisions | docs/design.md:121 | a concrete collision between two accepted names |
| Naming.UpstreamIdInjective | internal/gateway/gateway.go:139-140 | an upstream ID determines namespace and server |
| ToolTable.NsServer.constructor | internal/gateway/discovery.go:40-122 | a namespace starts with its meta-tools alone, none in full mode, three in search and hybrid mode, two per server in connector mode, and with nothing registered; table and record agree |
| ToolTable.NsServer.PublishTool | internal/gateway/gateway.go:178-192 | one tool is added unless it is registered as it stands, and recorded either way |
| ToolTable.NsServer.PublishServer | internal/gateway/gateway.go:177-193 | one server's pin-filtered tools are published on top of those before it |
| ToolTable.NsServer.SyncLocked | internal/gateway/gateway.go:165-206 | new table, new record, tools added and names removed are those of the sync function; nothing happens in search and connector mode |
| ToolTable.SyncRefinesRebuild | internal/gateway/gateway.go:165-206 | with unique names a sync leaves the full rebuild, restores agreement, adds exactly the changed tools and removes exactly the vanished ones |
| ToolTable.SyncEqualsRebuildIff | internal/gateway/gateway.go:186-204 | a sync equals the rebuild if and only if no name's last tool was skipped as registered after an earlier, different one of that name was added |
| ToolTable.SyncAt | internal/gateway/gateway.go:186-204 | what a sync leaves under one name against what the rebuild puts there |
| ToolTable.SyncKeepsMeta | internal/gateway/gateway.go:195-203 | a sync never touches a meta-tool |
| ToolTable.RepeatSyncIsIdle | internal/gateway/gateway.go:187-190 | a second sync of the same catalog adds nothing, removes nothing and keeps the table |
| ToolTable.RebuildAgrees | internal/gateway/gateway.go:165-206 | a rebuilt table and the new record describe the same native tools |
| ToolTable.DuplicateToolsBreakRepeatSync | internal/gateway/gateway.go:186-204 | two tools under one name: the first sync is right, the second identical one is not |
| ToolTable.PublishedDeterminesItem | internal/gateway/gateway.go:182-187 | the encoded tool that is compared determines whose tool it is |
| ToolTable.MetaNamesHaveNoSeparator | internal/gateway/discovery.go:61-120 | no meta-tool of a native mode can be taken for a published name |
| Upstream.StreakCountsFromLastStable | internal/supervisor/supervisor.go:328-335 | the counter is the number of runs since and including the last stable one, or of all runs if none was |
| Upstream.DelayIsIdealIff | internal/supervisor/supervisor.go:342 | every pause the loop can take is the intended one if and only if min·2^(maxFailures-2) fits 63 bits |
| Upstream.DelaysWithinBudget | internal/supervisor/supervisor.go:342 | within range every delay is min(min·2^(f-1), max), positive, and no shorter than the one before |
| Upstream.StreakPause | internal/supervisor/supervisor.go:337-351 | in every run of the loop the pauses over a streak of unstable runs add up to at most min·(2^(maxFailures-1) - 1) and at most (maxFailures-1)·max |
| Upstream.ShiftCanOverflow | internal/supervisor/supervisor.go:342 | outside that range: with a one-second minimum the 56th failure in a row, where so many are permitted, is retried at once |
| Upstream.Upstream.Run | internal/supervisor/supervisor.go:321-352 | the restart loop computes states written, pauses and counters as the loop function says, for every script of run results |
| Upstream.Upstream.AfterRun | internal/supervisor/supervisor.go:324-350 | after one run: stop, give up at the maximum, or restart after the delay of the new count |
| Upstream.Upstream.CountRun | internal/supervisor/supervisor.go:328-335 | a stable run resets the counter before it is counted |
| Upstream.Upstream.SetState | internal/supervisor/supervisor.go:302-307 | writes the state, touches nothing else, and is followed by one notification |
| Upstream.Upstream.StoreTools | internal/supervisor/supervisor.go:536-543 | stores the list and notifies exactly when Ready; without a notification nothing a reader sees has changed |
| Upstream.Upstream.TearDown | internal/supervisor/supervisor.go:407-412 | session, pid and tools are gone, silently |
| Upstream.Upstream.Tools | internal/supervisor/supervisor.go:263-271 | readers see the cached tools while Ready and none otherwise |
| Upstream.SuperviseKeeps | internal/supervisor/supervisor.go:321-352 | over any script: never past the maximum before the last run, Failed exactly when it is reached, one pause and one restart per other run |
| Upstream.ScriptConsumed | internal/supervisor/supervisor.go:321-352 | every counted run is one run result, in order, none skipped, and Stopped comes only from a cancellation |
| Upstream.UnstableStreakBounded | internal/supervisor/supervisor.go:328-341 | no unbroken stretch of unstable runs is longer than the maximum |
| Lifecycle.OneProcessGroup | internal/supervisor/supervisor.go:356-471 | at most one live process group, none for remote upstreams, and none left on any return path of runOnce |
| Lifecycle.StartupSignalledOnce | internal/supervisor/supervisor.go:193-205 | the startup callback fires at most once, has fired before serving or parking, exactly once at the end, where `done` is closed exactly once |
| Lifecycle.FiredIff | internal/supervisor/supervisor.go:313-319 | in every run the startup callback has fired if and only if the loop has parked, become ready or ended |
| Lifecycle.RestartBudget | internal/supervisor/supervisor.go:321-351 | the counter is the streak of counted runs, stayed below the maximum after every earlier run, and Failed means a streak that reached it |
| Lifecycle.OnlyCountingSpendsBudget | internal/supervisor/supervisor.go:490-514 | no other step, waiting for a login included, touches the counters |
| Lifecycle.StateMoves | internal/supervisor/supervisor.go:302-307 | Ready never goes straight to NeedsLogin, NeedsLogin never to Ready, Failed nowhere |
| Lifecycle.FinalStatesAbsorb | internal/supervisor/supervisor.go:324-349 | Failed and Stopped are final over every continuation |
| Lifecycle.FailedFirstStartDoesNotSettle | internal/supervisor/supervisor.go:190-192 | a reachable state after a failed first start in which the startup callback has not fired |
| Lifecycle.ToolsAreLastStored | internal/supervisor/supervisor.go:407-418 | in every run an upstream's tools are those of its last first listing or list-changed handler, and none once the session has been cleaned up since |
| Lifecycle.ServingHasList | internal/supervisor/supervisor.go:413-418 | while an upstream serves, its tools have been stored and not been cleaned up since |
| Liveness.CanServe | internal/supervisor/supervisor.go:321-424 | from every moment of every run that is neither cancelled nor at its verdict, the upstream can come to serve, through login, clean-up and pause |
| Liveness.CanEnd | internal/supervisor/supervisor.go:321-471 | a cancelled run loop can be brought to its end from wherever it stands, with the startup signalled, `done` closed once and no process group left |
| Liveness.PingBrokenIff | internal/supervisor/supervisor.go:425-460 | pings are given up if and only if one was answered as not supported, for the rest of the upstream's life |
| Liveness.NoPingOnceBroken | internal/supervisor/supervisor.go:425-460 | once given up, a serving upstream is not pinged |
| Liveness.LoginsOnlyWhereNeeded | internal/supervisor/supervisor.go:356-380 | only upstreams that log in ask for a token handler, wait for a login or are ever in need of one |
| Liveness.HandlerComesFirst | internal/supervisor/supervisor.go:356-380 | an upstream that logs in connects only after it was given a handler |
| RestartLoop.MachineFollowsLoop | internal/supervisor/supervisor.go:321-352 | in every run of an upstream's step machine the restart loop, fed the reports of that run, has counted the same runs and stands where the machine stands |
| RestartLoop.LifeIsLoop | internal/supervisor/supervisor.go:321-352 | so counters and final verdict of every life are those of the loop, and what is proved of the loop holds there |
| Agreement.TableAgreesOrNotificationOutstanding | internal/supervisor/supervisor.go:302-307 | in every run with crashes, restarts, notifications and syncs interleaved: either the table's rows for a server are exactly those of the tools its upstream has while Ready, under `server__tool`, with a title that begins with the server and a handler for that tool, pinned ones only in hybrid mode, or a notification is outstanding |
| Agreement.QuiescentTableIsRebuild | internal/gateway/gateway.go:142-206 | once nothing is outstanding the table holds the meta-tools it started with, a row for every listed tool of every Ready upstream, and no other; it is what a rebuild makes |
| Agreement.SysInvStep | internal/supervisor/supervisor.go:407-418 | every step of every party keeps the invariant behind both, the silent teardown and the server-by-server reads of a sync included |
| Agreement.MoveOwesOrKeeps | internal/supervisor/supervisor.go:516-543 | a step of an upstream leaves what readers see alone or leaves a notification owing |
| Agreement.CatalogIsGood | internal/gateway/gateway.go:170-185 | distinct unambiguous servers with distinct tool names publish every name at most once |
| Settling.EveryRunCanSettle | internal/supervisor/supervisor.go:302-307 | every run can be carried on, by syncs and the loops' own bookkeeping alone, to where no notification is outstanding |
| Settling.TableCanSettle | internal/gateway/gateway.go:142-206 | so every run can be carried on by the gateway alone to where the table holds the meta-tools, a row for every listed tool of every Ready upstream, and no other |
| Breaker.CircuitBreaker.Allow | internal/gateway/limits.go:99-113 | lets a call through and takes the trial slot exactly as the breaker function says |
| Breaker.CircuitBreaker.Success | internal/gateway/limits.go:115-122 | closes the circuit and clears counter and trial, unless disabled |
| Breaker.CircuitBreaker.Failure | internal/gateway/limits.go:124-135 | counts, frees the trial slot, and opens or reopens at the threshold |
| Breaker.CircuitBreaker.State | internal/gateway/limits.go:137-151 | closed exactly when a call would be let through at every clock reading, half-open exactly when at none; and for every history that leads here, the label that history earns |
| Breaker.LabelFollowsHistory | internal/gateway/limits.go:137-151 | after any history: closed while the failures since the last success are below the threshold, half-open while a call let through when open is unreported, open otherwise, when calls pass from one cooldown after the last failure on |
| Breaker.BreakerRefinesHistory | internal/gateway/limits.go:99-135 | open if and only if the failures since the last success reach the threshold, since the last of them; a trial is out if and only if an ask since the last report was let through while open |
| Breaker.DisabledNeverMoves | internal/gateway/limits.go:99-135 | without a threshold a breaker lets every call through, whatever is reported |
| Breaker.OneTrialBetweenReports | internal/gateway/limits.go:97-113 | while open, two admitted calls are separated by a report |
| Breaker.OpeningDrift | internal/gateway/limits.go:99-135 | after m admissions without a success the opening time has moved at least m cooldowns, or m - 1 with the trial still out |
| Breaker.OpenCircuitRateBound | internal/gateway/limits.go:99-135 | with a clock that never goes back the m-th call let through after an opening comes at least m cooldowns after it, whatever straggling failures arrive |
| Breaker.RejectsForeverIff | internal/gateway/limits.go:108-110 | with no report to come a breaker turns all calls away if and only if it is open with its trial out |
| Dispatch.PermitsConserved | internal/gateway/gateway.go:251-257 | in every reachable state each bounded semaphore's fill is the number of calls holding it, within its limit, bounds the calls in flight, and is zero when all calls are done |
| Dispatch.ServerPermits | internal/gateway/limits.go:31-36 | in every reachable state an upstream with a positive limit of its own has at most that many calls in flight, its permits are those of the calls past all three waits, and a call waits only while they are all taken; without one the common limit counts; with neither there is no wait and no permit |
| Dispatch.NamespacePermits | internal/gateway/limits.go:24-29 | the same of a namespace and the second wait |
| Dispatch.GlobalPermits | internal/gateway/gateway.go:251-256 | the same of the whole gateway and the first wait |
| Dispatch.OutcomesAreExplained | internal/gateway/gateway.go:241-267 | in every run a call comes to what the upstream returned for it, to a timeout if its context ended while it waited, or to an open circuit if it was not let through, and to nothing else |
| Dispatch.NoDeadlock | internal/gateway/gateway.go:243-267 | while a call is unfinished, some call can take its own next step without a deadline firing |
| Dispatch.StepUsesWork | internal/gateway/gateway.go:241-267 | every step of a call, timeouts included, lowers the work left over all calls |
| Dispatch.RunsAreShort | internal/gateway/gateway.go:241-267 | a run takes at most ten steps per call that arrives |
| Dispatch.TenStepsPerCall | internal/gateway/gateway.go:241-267 | from an empty gate a run has at most ten steps of its own for every call that arrives |
| Dispatch.FinishAll | internal/gateway/gateway.go:241-267 | every state can be run to the end of all calls with no timeout |
| Dispatch.TrialCanLeak | internal/gateway/gateway.go:252-262 | a trial that times out waiting or finds its upstream not ready wedges the breaker when no other call is pending |
| Dispatch.WedgedForever | internal/gateway/gateway.go:243-262 | a wedged upstream stays wedged over every continuation |
| Dispatch.ShutOutIffWedged | internal/gateway/gateway.go:243-266 | some continuation lets a new call through if and only if the breaker is not wedged |
| Dispatch.WedgeIsReachable | internal/gateway/gateway.go:257-262 | for every enabled breaker, every target and all limits there is a run into the wedge, by a trial that finds its upstream not ready |
| Dispatch.WedgeByTimeout | internal/gateway/gateway.go:251-254 | and one by a trial whose deadline ends its wait, at each of the three permits that is limited |
| Dispatch.TimeoutWedgeIff | internal/gateway/gateway.go:251-254 | the capacity-timeout exit leads into the wedge if and only if the breaker is enabled and some limit applies to the target |
| Dispatch.BreakerFollowsItsUses | internal/gateway/gateway.go:243-265 | in every run each breaker is what its own uses make of it, with clock readings in order, so the history theorems apply |
| Dispatch.Semaphore.Acquire | internal/gateway/limits.go:55-65 | takes a permit if one is free, always succeeds when unlimited, and changes nothing on a timeout |
| Dispatch.Semaphore.Release | internal/gateway/limits.go:67-71 | gives back exactly one permit |
| Dispatch.Permits.AcquireAll | internal/gateway/gateway.go:251-256 | acquires global, namespace, server in that order and stops at the first that does not come in time |
| Dispatch.Permits.ReleaseAll | internal/gateway/gateway.go:255 | the deferred releases restore every semaphore |
| Dispatch.Dispatch | internal/gateway/gateway.go:241-267 | one call: result and breaker as the exit path says, and every semaphore as before on all of them |
| OAuth.Manager.constructor | internal/upstreamauth/manager.go:98-120 | one entry per upstream ID, repeated ones overwritten, with a closed ready channel exactly where credentials were stored |
| OAuth.Manager.Handler | internal/upstreamauth/manager.go:122-134 | the entry's handler, or the login-required error |
| OAuth.Manager.Invalidate | internal/upstreamauth/manager.go:176-191 | drops the handler and hands out a fresh channel, once |
| OAuth.Manager.BeginLogin | internal/upstreamauth/manager.go:300-313 | claims the entry unless it is unknown or a login is in progress |
| OAuth.Manager.Publish | internal/upstreamauth/manager.go:343-346 | records state and URL of the login and nothing else |
| OAuth.Manager.PendingLogin | internal/upstreamauth/manager.go:87-96 | the URL of a login in progress, or nothing |
| OAuth.Manager.Complete | internal/upstreamauth/manager.go:395-401 | sets the handler whether or not there was one, touches nothing else of the entry and no other entry, and closes the channel only if there was none |
| OAuth.Manager.ClearLogin | internal/upstreamauth/manager.go:420-424 | ends the login and nothing else |
| OAuth.Manager.Lookup | internal/upstreamauth/manager.go:427-443 | finds an entry whose pending state matches, if there is one |
| OAuth.WaitersAreWoken | internal/upstreamauth/manager.go:136-151 | with re-authorizations and rejections interleaved: handler present if and only if the current channel is closed, none closed twice, every superseded channel closed, so every waiter can wake once credentials exist |
| OAuth.HandlerIsLastInstalled | internal/upstreamauth/manager.go:176-191 | in every run an upstream's handler is the one its last completed login installed, none once its credentials have been rejected since, and the stored one before either |
| OAuth.ShownIsLastPublished | internal/upstreamauth/manager.go:338-346 | in every run an entry shows the state and URL of its last login or re-authorization, and nothing once a login has been cleared since |
| OAuth.WaitAndWake | internal/upstreamauth/manager.go:136-151 | a wait is on the current channel, can go on at once while credentials exist, and leaves nothing behind |
| OAuth.OneLoginAtATime | internal/upstreamauth/manager.go:300-331 | a login is in progress if and only if exactly the flow the entry names is active, and a second start is refused |
| OAuth.OnlyOwnerClears | internal/upstreamauth/manager.go:383-424 | only the owning flow ends a login |
| OAuth.OneEntryMatches | internal/upstreamauth/manager.go:431-438 | a callback's state matches at most one entry, so the map order in which entries are tried does not matter |
| OAuth.MalformedLoginStuck | internal/upstreamauth/manager.go:315-319 | a login left claimed by a flow that has ended refuses every later start, for ever |
| OAuth.LoginCanJamIff | internal/upstreamauth/manager.go:303-331 | from any state some continuation leaves the login claimed for good if and only if the upstream's URL does not make a probe request |
| OAuth.JamIsReachable | internal/upstreamauth/manager.go:315-319 | a fresh manager with such a URL reaches that state |
| OAuth.CodesReachTheirUpstream | internal/upstreamauth/manager.go:427-455 | a delivered code belongs to the upstream its state was drawn for, and carries the state its login asked for if and only if that login drew it: the callback found this login and its pending state was a login's, not a re-authorization's |
| OAuth.ReauthorizationsTakeOwnCodes | internal/upstreamauth/manager.go:343-354 | a re-authorization that gets a code takes one of its own upstream, from a login of that upstream |
| OAuth.OwnStateLostIff | internal/upstreamauth/manager.go:338-354 | in every run a login in progress that has shown its URL has lost its state if and only if a handler of its upstream has re-authorized since |
| OAuth.OwnStateCanBeLost | internal/upstreamauth/manager.go:338-354 | a reachable state in which no callback can match the URL a login in progress has shown |
| OAuth.ReauthorizedCodeCanArrive | internal/upstreamauth/manager.go:343-354 | a reachable state in which that login holds the code of the re-authorization |
| OAuth.OwnCodeCanBeTaken | internal/upstreamauth/manager.go:347-351 | a reachable state in which a re-authorization takes the code that has arrived for the login in progress, which is left waiting |
| OAuth.StaleCodeCanArrive | internal/upstreamauth/manager.go:439-451 | a reachable state in which a new flow holds an old flow's code |
| Search.ToolInfos | internal/gateway/discovery.go:189-204 | the tools of all servers, or of one, in server and catalog order |
| Search.FindTools | internal/gateway/discovery.go:208-254 | the answer is the ranked, cut list of positive scores |
| Search.ScoreOf | internal/gateway/discovery.go:219-235 | the score adds up the best field each query word hits |
| Search.FieldsInvertJoin | internal/gateway/discovery.go:209 | splitting a query undoes joining words with blanks |
| Search.FieldsKeepText | internal/gateway/discovery.go:209 | splitting a query loses nothing but white space |
| Search.FoundIsTopK | internal/gateway/discovery.go:217-254 | the answer is ordered by score, highest first, then by name; holds only matches; leaves a match out only when full; and what is left out has no higher score than anything kept, nor a smaller name at an equal score |
| Search.SearchIgnoresCatalogOrder | internal/gateway/discovery.go:240-248 | with unique names the answer does not depend on the order of the catalog |
| Search.SearchIgnoresMapOrder | internal/gateway/discovery.go:256-275 | the compact answer does not depend on the order in which schema maps are visited |
| Search.WordInJoin | internal/gateway/discovery.go:274 | a word without white space occurs in the joined text if and only if it occurs in one of the parts |
| Search.RankedOrdered | internal/gateway/discovery.go:240-245 | ranking permutes the hits into order of score, highest first, and of name where scores are equal |
| Search.WordScoreIs | internal/gateway/discovery.go:219-235 | a word earns three points in the name, underscores counting as blanks, else two in the title or in a parameter's name or description, else one in the description |
| Search.ScoreAdds | internal/gateway/discovery.go:218-235 | the words of a query add up |
| Json.LessIff | internal/gateway/discovery.go:244 | names are ordered by their first different character, a proper front part first |
| MetaTools.MetaCall | internal/gateway/discovery.go:127-173 | resolves a name to a server's tool by its first separator, or to the first error that applies; the request carries namespace, upstream ID, tool, the caller's arguments or `{}` where they are empty, and the caller's input responses and state |
| MetaTools.Describe | internal/gateway/discovery.go:90-114 | describes all names in order, or blames the first unknown one; refuses none and more than fifty |
| MetaTools.SearchTools | internal/gateway/discovery.go:67-84 | normalises the limit and drops the schemas of the search answer, nothing else |
| MetaTools.CatalogIsReach | internal/gateway/discovery.go:189-204 | the catalog holds exactly the tools of the namespace's live servers |
| MetaTools.CallReachesToolIff | internal/gateway/discovery.go:136-171 | calling a published name sends that tool, to that server, with the caller's arguments, `{}` where they are empty, if and only if the server name holds no separator and does not end in an underscore |
| MetaTools.CallableIsDescribed | internal/gateway/discovery.go:100-113 | whatever call_tool accepts, describe_tools describes, and the call goes to a tool published under that name |
| MetaTools.DescribeAndCallAgreeIff | internal/gateway/discovery.go:90-171 | for every name: unpublished, it is neither described nor called; published, it is described as the tool of the last server to publish it, and called as that tool if and only if that server is the part before its first separator |
| MetaTools.SearchDescribeCallAgree | internal/gateway/discovery.go:90-173 | every name search returns is described as the tool found and called as that tool with the caller's arguments |
| MetaTools.NativeAndMetaCallsAgree | internal/gateway/discovery.go:164-171 | after any sync a natively listed name sends the same request through call_tool as through its own handler |
| MetaTools.DescribeAndCallCanDisagree | internal/gateway/discovery.go:102-104 | with ambiguous servers one name describes one tool and calls another |
| MetaTools.ConnectorCallIff | internal/gateway/discovery.go:54-59 | a server's own call accepts a name if and only if it is the bare name of one of its live tools |
| MetaTools.ListedNameIsRefused | internal/gateway/discovery.go:51-58 | every server with tools lists one under a name its own call refuses |
| JsonRoundTrip.ParseInvertsPrint | internal/redact/redact.go:24-39 | parsing printed text gives back the tree, strings with escapes and nested text included, for every notion of numbers that fit |
| JsonRoundTrip.ParsedIsGood | internal/redact/redact.go:24-28 | whatever parses is within the depth limit, holds only numbers that fit and has sorted, distinct keys, so it survives printing |
| JsonGrammar.ParseIff | internal/redact/redact.go:24-28 | a text decodes to a value if and only if the grammar has a tree that spells the text and stands for the value: white space, escapes, surrogate pairs, numbers, nesting to the limit, repeated members |
| JsonGrammar.LastMemberWins | internal/redact/redact.go:24-28 | a decoded object holds, under increasing keys, exactly what the last member of each name says |
| JsonGrammar.NumberIff | internal/redact/redact.go:24-28 | a number token is a sign, digits without a leading zero, a fraction and an exponent, each as the grammar has it |
| JsonFloat.Float64Iff | internal/redact/redact.go:26-28 | a token fits if and only if its digits, at the power of ten its fraction and exponent give, stay below 2^1024 - 2^970 |
| JsonNumbers.DecodedIff | internal/redact/redact.go:24-28 | a text is decoded if and only if its grammar is right and every number in it, overwritten ones included, fits; the value is then the same |
| JsonNumbers.FloatLimitIs | internal/redact/redact.go:26-28 | the bound on what fits is 2^1024 - 2^970, half a unit above the largest finite 64-bit float |
| JsonNumbers.HugeNumberDoesNotFit | internal/redact/redact.go:26-28 | the token 1e400 does not round to a finite 64-bit float |
| JsonNumbers.ShortIntegerFits | internal/redact/redact.go:26-28 | every integer of up to three hundred digits does |
| JsonCut.MarkedIsNotJson | internal/redact/redact.go:35-37 | no text that ends in an ellipsis decodes |
| Redact.WalkKeepsShape | internal/redact/redact.go:41-61 | redaction keeps every key set and array length, at every parsed level |
| Redact.SecretKeyIff | internal/redact/redact.go:12-19 | a key is taken for secret if and only if one of the seven words, spelled out, stands somewhere in it in any mixture of cases |
| Redact.WalkCleanIff | internal/redact/redact.go:41-75 | after redaction every secret-looking key holds only the placeholder, at every level of JSON in strings, if and only if no scrubbed leaf turns into JSON that shows one |
| Redact.AlwaysCleanIff | internal/redact/redact.go:41-75 | every redaction is deep if and only if the scrub never turns a string that is not JSON into JSON that shows a secret |
| Redact.WalkIdempotentIff | internal/redact/redact.go:41-75 | redacting again changes nothing if and only if no leaf is one the scrub is unsteady on |
| Redact.AlwaysIdempotentIff | internal/redact/redact.go:41-75 | every redaction is idempotent if and only if redacting a scrubbed string that was not JSON changes nothing |
| Redact.CarefulScrubSuffices | internal/redact/redact.go:41-75 | a scrub that leaves its own results alone and never makes JSON of other text gives redactions that are deep and idempotent |
| Redact.RedactedIsJson | internal/redact/redact.go:24-39 | the untruncated result is JSON again, of the payload's shape, clean under the same condition |
| Redact.NestedIff | internal/redact/redact.go:65-74 | a string is looked into if and only if it is enclosed, of right grammar, and all its numbers fit |
| Redact.SecretBlankedIff | internal/redact/redact.go:24-50 | an object payload with a key that holds one of the seven words, in any mixture of cases, is stored with that key blanked if and only if every number in it fits |
| Redact.OtherMembersKept | internal/redact/redact.go:41-61 | under any other key numbers, truth values and null are stored as they are and plain text as the scrub leaves it |
| Redact.UndecodedIsScrubbed | internal/redact/redact.go:26-29 | otherwise the whole payload is stored as one scrubbed string |
| Redact.HugeNumberKeepsPassword | internal/redact/redact.go:26-29 | one payload with 1e400 and a password that is stored so |
| Redact.RawNewlineUnmasks | internal/redact/redact.go:65-75 | a scrub that removes a raw newline after `bearer` can uncover a secret key |
| Redact.BrokenStringIsNotJson | internal/redact/redact.go:66-73 | text whose first string literal is broken is left to the scrub alone |
| Stderr.StderrLogger.Write | internal/supervisor/supervisor.go:579-595 | one write logs the complete lines of buffer and chunk, keeps the rest, and flushes a rest over the limit |
| Stderr.StderrLogger.Emit | internal/supervisor/supervisor.go:597-606 | one line becomes no record or one, trimmed and cut to the limit |
| Stderr.SplitIsLossless | internal/supervisor/supervisor.go:581-588 | lines with their separators and the rest are the stream |
| Stderr.SplitConcat | internal/supervisor/supervisor.go:579-588 | splitting a stream in two places the cut anywhere: the first part's rest is carried over |
| Stderr.ChunksDoNotMatter | internal/supervisor/supervisor.go:579-606 | where no line exceeds the limit every partition into writes logs and buffers what one write does |
| Stderr.NeverFlushesIff | internal/supervisor/supervisor.go:589-593 | no partition flushes an unfinished line if and only if no line exceeds the limit |
| Stderr.LongLinesDependOnChunks | internal/supervisor/supervisor.go:589-605 | a line of more than 4097 bytes with text on both sides of byte 4097 is one record in one write and two when cut there |
| StderrCuts.CutsDoNotShowIff | internal/supervisor/supervisor.go:579-606 | every partition into writes logs and buffers what one write does if and only if the unfinished line has at most 4097 bytes and every complete line is short, blank, or has text among its first 4097 bytes and none after them, with the carriage returns they end in trimmed alike |
| AuditStore.Store.Insert | internal/audit/store.go:56-63 | appends a row under the id after the largest present, or leaves the table alone on failure |
| AuditStore.Store.Prune | internal/audit/store.go:133-146 | deletes exactly the rows older than the bound and counts them |
| AuditStore.Store.Query | internal/audit/store.go:77-131 | the query built condition by condition answers what the filter asks for |
| AuditStore.SelectIsWindow | internal/audit/store.go:96-109 | rows the filter asks for only, newest first, or oldest first after an id, and a row is left out only when the answer is full, at the limit or at a hundred where it is not between 1 and 1000, of rows that come sooner |
| AuditStore.StoreStaysOrdered | internal/audit/store.go:56-63 | inserts and prunes keep ids strictly increasing |
| AuditSink.Sink.Observe | internal/audit/sink.go:61-71 | queues the row, or counts it as dropped when the buffer is full |
| AuditSink.Sink.Take | internal/audit/sink.go:54 | the writer receives the oldest row queued |
| AuditSink.Sink.WriteOne | internal/audit/sink.go:52-59 | the row the writer holds is inserted, or lost to a failed insert |
| AuditSink.Sink.Close | internal/audit/sink.go:75-81 | the first close writes the row in hand and everything queued, in order; later ones do nothing |
| AuditSink.RowTells | internal/audit/sink.go:83-109 | the status names what went wrong first, the error is the call's own, the rest is copied |
| AuditSink.EveryCallCountedOnce | internal/audit/sink.go:52-81 | over any run: stored, failed, in the writer's hand, queued and dropped add up to the calls observed; accepted rows leave in the order they entered; the buffer never overflows |
| AuditSink.ObservableIff | internal/audit/sink.go:61-81 | a call can be observed at any moment before the close, buffer full or not, and at none after |
| AuditSink.BurstFills | internal/audit/sink.go:61-71 | of a burst of calls the first that fit the buffer are queued, the rest counted as dropped |
| AuditSink.SinkCanDrain | internal/audit/sink.go:52-81 | at any moment, closed or not, the writer alone can deal with everything accepted, in order |
| AuditSink.DrainedSinkStoredEverything | internal/audit/sink.go:75-81 | a drained sink has appended exactly the accepted rows whose insert worked, in acceptance order, under consecutive ids |
| AuditSink.StoredArgumentsAreRedacted | internal/audit/sink.go:83-109 | arguments are stored as JSON, that of the redacted tree, if and only if the bytes of their redacted text are within the limit; the tree is that of the arguments if they decode and their text as one string if not |
| AuditSink.SizeTellsWhetherWhole | internal/audit/sink.go:101-107 | the recorded size tells the stored length of a result, and whether it is whole: it is JSON if and only if the size is within the limit |
| AuditSink.CutIsNotJson | internal/redact/redact.go:34-38 | whatever is cut to the limit is not the text of any JSON value, wherever in a character the cut falls |
| AuditFollow.Follower.Tail | cmd/gateway/audit.go:51-62 | prints the newest matching rows oldest first and puts the cursor on the highest id |
| AuditFollow.Follower.Poll | cmd/gateway/audit.go:66-79 | one round prints the next matching rows after the cursor and moves it to the last |
| AuditFollow.TailShows | cmd/gateway/audit.go:51-62 | the tail is the newest matching rows in increasing id order; a row is left out only when the tail is full of newer ones |
| AuditFollow.FollowPrintsOnce | cmd/gateway/audit.go:58-79 | while pruning spares the newest row: ids printed strictly increase, and every surviving matching row from the start to the cursor is printed |
| AuditFollow.PollCatchesUp | cmd/gateway/audit.go:66-79 | a round that does not fill its limit leaves nothing pending |
| AuditFollow.PollsReach | cmd/gateway/audit.go:66-79 | polls alone get to every matching row past the cursor, however long the backlog |
| AuditFollow.InsertShownIff | cmd/gateway/audit.go:68-78 | whatever the backlog, the next row is printed in some continuation if and only if the newest id in the table has not fallen below the cursor or below 1 |
| AuditFollow.PruneMakesFollowMiss | internal/audit/store.go:133-135 | pruning the newest row makes the follower miss the next one for good |
| Config.Validate | internal/config/config.go:289-398 | reports exactly the problems of limits, breaker, namespaces and servers, none if and only if these are acceptable, and pins the commands it found |
| Config.CheckNamespace | internal/config/config.go:299-346 | the problems of one namespace, in order |
| Config.CheckPin | internal/config/config.go:317-336 | a pin must cut into a server of the namespace and a non-empty tool, once |
| Config.CheckServer | internal/config/config.go:347-397 | the problems of one server, remote or local, and its pinned command |
| ConfigProblems.ReportedIff | internal/config/config.go:289-398 | each kind of problem is reported if and only if the configuration has it, the name rule, modes, levels, pins and transports spelled out |
| Config.IdsUniqueIff | internal/config/config.go:341-345 | an accepted configuration has unique upstream IDs if and only if no namespace lists a server twice |
| Config.ModeOf | cmd/gateway/main.go:92-94 | which discovery mode each accepted setting stands for |
| Config.GoodNamespaceIff | internal/config/config.go:299-350 | an accepted native namespace meets the table theorems' hypotheses if and only if its servers are distinct and unambiguous |
| Config.PinnableIff | internal/config/config.go:317-331 | an unambiguous server's tool can be pinned if and only if its name is not empty |
| Config.AmbiguousPinIff | internal/config/config.go:317-331 | a tool of a server whose name holds a separator can be pinned if and only if the part before it is a server of the namespace too |
| Config.AcceptedYetUnsafe | internal/config/config.go:341-348 | accepted configurations with a repeated upstream ID, and with colliding names |
| Config.AcceptedServersAreUsable | internal/config/config.go:354-397 | in an accepted configuration every URL is absolute, OAuth servers have one, and local servers have a command that can be executed |
| Config.StartLogins | cmd/gateway/main.go:118-131 | the login manager of an accepted configuration has an entry for exactly the upstreams that need a login, and knows which of their URLs make a request |
| Config.LoginsJamIff | internal/upstreamauth/manager.go:315-319 | in every run of that manager a login can get stuck for good exactly where an upstream's URL makes no request |
| Config.AcceptedLoginsNeverJam | internal/config/config.go:361-364 | where every absolute URL makes a request, no login of an accepted configuration can get stuck, in any run |

## Left out

- HTTP routing, streaming, the MCP SDK's framing, templates and the dashboard: plumbing and presentation.
- Inbound authentication, session cookies and Cloudflare assertions: thin policy around library cryptography.
- Credential store agreement: a stale token source may save after an invalidation or invalidate a newer login, so store and handler do not agree under every interleaving, and no such claim is made.
- OnInvalidate and OnLogin reconnects: a reconnect only ends a session, which the lifecycle covers as an exit at any time.
- Several namespaces at once: Refresh and RefreshAll run the sync of each namespace under one lock, and the agreement theorems are about one namespace in the presence of that lock.
- Tool-list changes are over-approximated: a handler may store a list and owe its notification at any time, in flight from an old session too.
- Dispatch.Dispatch: the method runs one call with the waits resolved by its inputs; what concurrent calls do to each other is in the step system of the same module.
- The per-upstream call timeout: a deadline may end any wait for a permit at any time, whatever its length.
- Dispatch.RunsAreShort: counts steps, not time; that an upstream call returns is the environment's part.
- Int64 overflow of counters and ids, and of the clock: counters are unbounded except where the backoff shift wraps.
- Redact.WalkKeepsShape: redaction is modelled on values, so that the source overwrites maps and slices in place, and could be observed doing so, is not captured.
- Redact.RedactedIsJson: says nothing of the payload cut to its byte limit, which is in `AuditSink.StoredArgumentsAreRedacted`; numbers keep their text instead of being reformatted, invalid UTF-8 is not modelled, and marshalling cannot fail here.
- JsonNumbers.DecodedIff: number tokens are judged by their exact value; the source's decoder caps the exponent it reads, which only shows in tokens ten thousand digits long.
- Redact.RawNewlineUnmasks: the regular expression engine is a parameter, so what it does to the one string is a hypothesis.
- Search.SearchIgnoresMapOrder: strings are sequences of characters with a case mapping per character; mappings that change a string's length are not modelled.
- Stderr.StderrLogger.Write: works on bytes, with blank lines recognised by a parameter.
- StderrCuts.CutsDoNotShowIff: for white space of single bytes; white space that takes several bytes in UTF-8, which a cut can split, is not covered.
- OAuth.Next: a second re-authorization of one handler blocks on the URL channel, whose one place the first has filled (`internal/upstreamauth/manager.go:333`, `:347`), after it has replaced the pending state; here it may go on to read a code, so what is proved of every run covers both.
- AuditSink.StoredArgumentsAreRedacted: session and client IDs are one field, and an error is classified by two flags.
- AuditFollow.FollowPrintsOnce: the endless loop is any number of rounds; query errors, which end it, are not steps.
- AuditStore.Store.Query: the SQL engine is a filter, an order and a limit over rows in id order; scan errors are left out.
- Config.Validate: the checks of the public URL, authentication and Cloudflare settings (`internal/config/config.go:270-288`) are left out, as no other model depends on them; what the host says of URLs, paths and executables is a parameter.
- The dashboard view of a namespace's tools (`internal/gateway/discovery.go:175-187`): the same catalog and search behind another entry.
- Logging, metrics, WAL checkpoints and retention timers: no invariant beyond the prune condition above.
