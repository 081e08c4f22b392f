# HA Switchboard: verified model

HA Switchboard is two processes. A Core integration inside Home Assistant owns entity ids, the map from opaque capability ids
to targets, and every service call. An App gateway owns the sanitized profile and decides what a request means, with the help
of a decision model and of fallback providers. This project models both in Dafny and proves what ties them together:

* **freshness** - which scan a service call's targets come from, over every interleaving of events, reconciliations, App
  compiles, decisions and writes (`Monitor`, `Coordinator`, `CoreRuns`, `Protocol`, `ManualScan`);
* **groups** - the memoised, bounded depth-first resolution of nested groups against the nestings they stand for (`Groups`,
  `GroupCompiler`, `NestedHouse`), and the batches built on it (`Batch`);
* **routing** - circuit breakers, the breadth-first failover chain over a possibly cyclic graph, and the handoff that walks it
  (`Routes`, `Handoff`);
* **decisions** - the gateway's funnel against arbitrary provider answers, exactly when it executes, asks or answers, and its
  replay cache (`Decisions`, `Answers`, `Gateway`, `Replay`);
* **execution** - preflight, the stop-on-failure write loop, what a verified report means, receipts, and the three parameter
  validators (`Execution`, `ReadBack`, `Parameters`);
* **agreement** - one scan seen by both processes, and the gateway's gates composed with Core's (`Adapter`, `Gates`);
* **bounded stores** - the continuation store with the conversation turns that use it, what the gateway makes of a yes, and the
  rate limiter (`Context`, `Turns`, `Confirmations`, `RateLimiter`).

Objects that the program updates in place are classes; each of their methods is tied to a function on values, and the theorems
about whole runs are lemmas about those functions. Code between two suspension points is one step. The decision model, the
fallback providers and the Home Assistant executor are arbitrary: function-valued parameters say what each call does. Digests
are injective, clocks are inputs that do not run backwards, numbers are reals, and what a regular expression matches is an
input.

## Where a promise does not hold as one would read it

These are proved, each with the exact condition or a concrete run.

* A compile that an event overtakes is answered with the older revision and with pending sections. Core does not look at the
  pending sections and publishes its new scan under the older revision. The guard it leaves out is exactly what is needed: a
  write goes to the scan its decision was taken on if and only if the answer published last, or for a batch the one published
  when it began, listed no pending sections (`Protocol.WritesUseTheDecidedScanExactly`), and an answer names its own snapshot
  exactly then (`Protocol.AnswersMatchExactlyWithoutPendingSections`). In `Protocol.PublishingPendingAnswersIsUnsafe` a single
  write decided on one scan goes to a target of the next, and a batch goes on although an event has arrived since.
* Whether a group compiles can depend on the order of the declarations once a nesting chain that meets what it contains has
  more than 32 groups (`Groups.OrderMattersBeyondTheBound`); within the bound it cannot (`Groups.OrderDoesNotMatter`).
* A group within that bound is valid exactly when it has a nesting of at most 32 entities (`GroupCompiler.CompiledGroupsMean`).
  One whose nesting has more is not simply invalid. The order of the members decides: the group becomes invalid if the walk
  meets a direct entity of it, or of a group in it, with 32 already collected for that one, for instance as its last member;
  otherwise the whole compile raises, for instance if its own entities come first and no group in it is as large
  (`GroupCompiler.MemberOrderDecides`, `GroupCompiler.CompileRaisesExactly`). It raises for two groups of twenty lamps and a group of the two
  (`NestedHouse.NestedGroupsStopTheCompile`).
* A freshness check that raises in the middle of a batch is reported as zero verified targets although writes were made
  (`Execution.WrapperMiscountsExactly`). The check of the executor that ships only reads attributes and cannot raise, so its
  reports are right (`Execution.ChecksThatDoNotRaiseHideNothing`); the wrapper's handler is there for executors whose check
  does, and for one of those a write is hidden (`Execution.ARaisingCheckHidesAWrite`).
* A fallback's empty parameters are replaced by the model's own (`Decisions.ParametersPassPolicyExactly`). The model's client
  has normalised those against the capability that the model chose, so they pass whenever the fallback named the same one
  (`Decisions.SameChoiceKeepsPolicy`); if it named another, the result may turn a plug on with a brightness
  (`Decisions.ParametersOfAnotherChoice`). Core, which is stricter, refuses what policy would have refused
  (`Parameters.PolicyIsTheWidest`).
* Core's validator refuses values that the gateway lets through (`Parameters.CoreIsStricterExactly`,
  `Parameters.BlankTextStopsAtCore`).
* A named group with a media player is let through by the gateway and refused by Core (`Gates.BatchesPassByDomain`,
  `Gates.MediaPlayerGroupsAreRefused`); a batch for a spoken domain never is.
* The gateway's profile lists scripts and scenes, but Core keeps no target for them and never sends one as a candidate, so none
  can be executed (`Adapter.RoutinesHaveNoTarget`, `Gates.OnlyParametersCanFail`).
* A reply to a confirmation that is neither yes nor no takes the place of the request it was asked about, unless its words
  exceed the store's bound and the turn raises (`Turns.UnclearReplyTakesTheRequestsPlace`).
* A yes is sent under the request id of its question, so the gateway answers it from its cache with the question itself, as
  long as the question is among its last 1,024 results (`Confirmations.AYesGetsItsQuestionBack`).

## Model

| member | source | states |
|---|---|---|
| Monitor.EventSections | app/ha_switchboard/change_monitor.py:16-28 | every event kind, known or not, invalidates some section |
| Monitor.SectionsBecomeStale | app/ha_switchboard/change_monitor.py:16-28 | for each section, exactly the kinds that make it stale; a kind that is not listed makes all of them stale |
| Monitor.Lifecycle.constructor | app/ha_switchboard/gateway.py:112-137 | a restored profile is stale in every section and sections are pending; without a usable one there is none |
| Monitor.Lifecycle.Ingest | app/ha_switchboard/change_monitor.py:47-56 | an event adds its sections to the pending ones and advances the generation; nothing else changes |
| Monitor.Lifecycle.Invalidate | app/ha_switchboard/gateway.py:181-198 | an invalidation is ingested and marks the active profile stale in both places that refer to it |
| Monitor.Lifecycle.FinishReconcile | app/ha_switchboard/change_monitor.py:76-94 | the candidate is activated and nothing is pending, unless the generation moved: then all sections are pending and the old profile, if any, is the answer |
| Monitor.LifetimeInvariantHolds | app/ha_switchboard/change_monitor.py:47-94 | over every lifetime with overlapping reconciliations: a profile without pending sections was compiled by a reconciliation with no event since it began |
| Monitor.DecisionsFollowAReconciliation | app/ha_switchboard/gateway.py:112-198 | from any persisted state, the freshness gates pass only after a reconciliation of this lifetime, with no event ingested since it recorded its generation |
| Monitor.EventsOvertake | app/ha_switchboard/change_monitor.py:76-86 | over every run, the generation that a running compile recorded is behind exactly if an event was ingested since it began |
| Monitor.EventDuringCompileWins | app/ha_switchboard/change_monitor.py:79-94 | over every run, a compile that ends after an event since its begin leaves every section pending, keeps the old profile and closes the gates; without one its candidate is activated and nothing is pending; the reply's pending sections are empty exactly then |
| Coordinator.CapabilityMap.Replace | custom_components/ha_switchboard/capabilities.py:108-112 | revision and targets are replaced together |
| Coordinator.EventsMean | custom_components/ha_switchboard/coordinator.py:227-372 | an event without a kind or a state change changes nothing; any other makes Core stale and advances the generation, so no write is allowed, and leaves build, map and revisions |
| Coordinator.WritesNeed | custom_components/ha_switchboard/coordinator.py:289-296 | a write needs a started Core that is not stale, with a revision that profile and map share and that is the one expected |
| Coordinator.ProfileCoordinator.OnEvent | custom_components/ha_switchboard/coordinator.py:356-372 | for no kind and for "state_changed" nothing changes; any other kind makes Core stale, advances the generation, is pending and has a live flush task, and nothing else changes |
| Coordinator.ProfileCoordinator.HandleEvent | custom_components/ha_switchboard/coordinator.py:227-232 | a direct event makes Core stale and advances the generation; without a kind and for "state_changed" nothing changes |
| Coordinator.ProfileCoordinator.DrainEvents | custom_components/ha_switchboard/coordinator.py:379-383 | the flush task takes all pending events and ends when there are none |
| Coordinator.ProfileCoordinator.HandOver | custom_components/ha_switchboard/coordinator.py:398-400 | after its last batch the flush has a successor exactly when events are pending |
| Coordinator.ProfileCoordinator.FinishReconcile | custom_components/ha_switchboard/coordinator.py:194-225 | map, build and revision are published together, exactly when the generation is the one recorded before the scan and the answer has a revision |
| CoreRuns.InvariantHolds | custom_components/ha_switchboard/coordinator.py:191-225 | over every run: not stale means that the published build began at the current generation and that map and profile revision agree |
| CoreRuns.WritesFollowTheLastEvent | custom_components/ha_switchboard/execution.py:270-309 | every write, single or in a batch, happens with a published build whose scan began after every event delivered so far, at the decision's revision |
| CoreRuns.NothingOwed | custom_components/ha_switchboard/coordinator.py:356-372 | a run that owes no scan has begun one after its last event |
| CoreRuns.StateChangesChangeNothing | custom_components/ha_switchboard/coordinator.py:356-372 | in every run a state change leaves the whole state of Core and the count of events alone, and every other event forbids all writes |
| CoreRuns.NoEventIsLost | custom_components/ha_switchboard/coordinator.py:374-400 | at every step pending events have a live flush task, also across the hand-over after eight batches; each bus event has been followed by the start of a scan or a live flush task still has one to start; each direct event has been followed by one, its handler still has one to start, or the App did not take it |
| CoreRuns.EffortIsBounded | custom_components/ha_switchboard/coordinator.py:130-400 | in every run a reconciliation is at most at its third attempt and a flush task at most at its eighth batch |
| CoreRuns.NothingGivesUpEarly | custom_components/ha_switchboard/coordinator.py:194-400 | a superseded answer to the first or second attempt is followed by another one, and a flush with pending events notifies up to its eighth batch and then hands over |
| ManualScan.OneScanAtATime | custom_components/ha_switchboard/coordinator.py:149-189 | in every run at most one manual scan is in flight |
| ManualScan.RequestsJoin | custom_components/ha_switchboard/coordinator.py:156-162 | requests with no end of a scan between them wait for the same scan |
| ManualScan.JoinersShareTheOutcome | custom_components/ha_switchboard/coordinator.py:162-189 | all requests that joined a scan get the same outcome |
| ManualScan.ScanDesk.Request | custom_components/ha_switchboard/coordinator.py:156-161 | a request joins the scan that is running and starts none; if none is running it starts one |
| Protocol.CoreRunsAlone | custom_components/ha_switchboard/coordinator.py:191-225 | every run of the two processes is, on Core's side, a run against an arbitrary App |
| Protocol.SystemInvariantHolds | app/ha_switchboard/gateway.py:164-198 | over every joint run, whatever profile, decisions and revisions an earlier Core left in the App: revisions stand for one snapshot; the published build is the scan behind its revision exactly if the answer published last had no pending sections, and each batch's exactly if that was so when it began |
| Protocol.EarlierProfilesAreAllowed | app/ha_switchboard/gateway.py:112-137 | the App may hold any profile of an earlier Core, with decisions already taken on it |
| Protocol.EveryCoreStartsEarlier | custom_components/ha_switchboard/coordinator.py:73-90 | over any number of Cores, each started after the one before stopped at any step, the App is in a state from which the other results hold |
| Protocol.WritesUseTheDecidedScanExactly | custom_components/ha_switchboard/coordinator.py:191-225 | in every reachable state a write goes to the scan its decision was taken on if and only if the answer published last (for a batch: when it began) listed no pending sections; while the last one is clean no event has arrived since that scan began |
| Protocol.AnswersMatchExactlyWithoutPendingSections | app/ha_switchboard/change_monitor.py:79-94 | an answer's revision stands for the snapshot that was sent if and only if the answer has no pending sections |
| Protocol.PublishingPendingAnswersIsUnsafe | custom_components/ha_switchboard/coordinator.py:194-215 | a run in which Core publishes an answer with pending sections; a single write may then go to another scan than its decision's, and a batch begun before goes on after an event |
| Groups.NestingIsUnique | app/ha_switchboard/profile.py:156-193 | a group has at most one complete nesting |
| Groups.NestingMeans | app/ha_switchboard/profile.py:173-184 | a nesting is an expansion of the memberships whose leaves are exposed, available, routine entities with an operation |
| Groups.SmallNestingsUnfold | app/ha_switchboard/profile.py:164-187 | the walk gets through every nesting of at most 32 entities, whatever the order of the members |
| Groups.CyclesDoNotNest | app/ha_switchboard/profile.py:160-161 | a group that contains itself, however indirectly, has no nesting |
| Groups.ResolveHolds | app/ha_switchboard/profile.py:156-193 | the memoised resolution answers, and memoises, the entities of a nesting that the walk gets through; for a group within the nesting bound it memoises a failure only if there is none, so never wrongly for one still on the stack |
| Groups.RowsHold | app/ha_switchboard/profile.py:195-201 | whatever was memoised before, each row has the entities of such a nesting, and that of a group within the bound is empty exactly when there is none |
| Groups.OrderDoesNotMatter | app/ha_switchboard/profile.py:195-202 | two declaration orders give a group the same row if no chain of more than 32 groups meets what it contains, or if the walk cannot get through it at all |
| Groups.FewGroupsFit | app/ha_switchboard/profile.py:160-161 | of at most 32 declared groups each is within the bound |
| Groups.OrderMattersBeyondTheBound | app/ha_switchboard/profile.py:160-161 | a chain of 33 safe groups compiles differently in two orders |
| GroupCompiler.DeclarationsAre | app/ha_switchboard/profile.py:119-140 | a declaration has a reference, a name and a list; its shape is right with at most 32 members, none empty, dotted or repeated |
| GroupCompiler.Collect | app/ha_switchboard/profile.py:119-140 | every well-formed declaration once, in order of first declaration, invalid if repeated or malformed in shape |
| GroupCompiler.CollectedIsDetermined | app/ha_switchboard/profile.py:119-140 | the list decides the groups and their order |
| GroupCompiler.CollectedShapesHold | app/ha_switchboard/profile.py:134-140 | a group that is still valid after the first loop has at most 32 distinct, non-empty, undotted members |
| GroupCompiler.MapEntities | app/ha_switchboard/profile.py:142-148 | a reference stands for the first row that has it |
| GroupCompiler.Resolver.Resolve | app/ha_switchboard/profile.py:156-193 | the recursive loop with its memo and visiting set computes the resolution, and leaves the visiting set as it was |
| GroupCompiler.CompileRows | app/ha_switchboard/profile.py:195-202 | all rows in order, or the first row that the group type refuses |
| GroupCompiler.CompileGroups | app/ha_switchboard/profile.py:105-202 | the compile's result is that of the groups and entities which the lists declare, in order of first declaration, a group whose reference is also an entity's being invalid |
| GroupCompiler.CompileIsDetermined | app/ha_switchboard/profile.py:105-202 | that leaves one result: the same lists give the same rows in the same order, or the same refused row |
| GroupCompiler.CompiledGroupsMean | app/ha_switchboard/profile.py:173-201 | a compiled group is valid exactly when it has members, then they are the one to 32 distinct leaves of its expansion, left to right, each exposed, available, of routine risk and with an operation; one within the bound is valid if and only if it has an expansion with at most 32 leaves that are all so |
| GroupCompiler.ExpansionDecides | app/ha_switchboard/profile.py:173-201 | a group within the bound that has an expansion is valid if and only if it has at most 32 leaves, all of them such entities |
| GroupCompiler.ValidMembersAreRows | app/ha_switchboard/profile.py:142-201 | the members of a valid group of a snapshot are references of its rows, whose first row is exposed, available, routine and operable |
| GroupCompiler.CompileRaisesExactly | app/ha_switchboard/protocol.py:363-370 | the row that raises has an over-long reference or name, a dotted reference, or more than 32 entities; with every group within the bound the compile raises if and only if there is such a group |
| GroupCompiler.MemberOrderDecides | app/ha_switchboard/profile.py:164-202 | a group within the bound whose nesting has more than 32 entities becomes invalid if the walk stops at a direct entity, as at its last member, and makes the compile raise if not, as with its own entities first and no group in it as large |
| NestedHouse.NestedGroupsStopTheCompile | app/ha_switchboard/profile.py:164-202 | a snapshot with three safe groups, two of twenty lamps each and one of the two, that does not compile |
| Batch.SortIsAPermutation | app/ha_switchboard/batch.py:81-88 | sorting by capability id keeps exactly the selected capabilities |
| Batch.TargetsCoverExactly | app/ha_switchboard/batch.py:90-93 | as many targets as members with distinct references means one target for each member, by counting |
| Batch.LeqMeans | app/ha_switchboard/batch.py:81-88 | ids are compared by code points: a prefix comes first, and else the first difference decides |
| Batch.TargetsAre | app/ha_switchboard/batch.py:81-160 | what a scope and a group select, in the fields of a capability |
| Batch.NamesAreSpoken | app/ha_switchboard/batch.py:120-150 | an area, floor or label counts exactly if it is not empty, was spoken, and is that of a capability of the domain |
| Batch.NamedGroupExactly | app/ha_switchboard/batch.py:68-112 | the one named group becomes a batch if and only if it is valid, an action was spoken and each member has exactly one exposed, available, routine capability for it |
| Batch.NamedGroupRefused | app/ha_switchboard/batch.py:68-112 | no group, several groups, an invalid group and a missing action are refused, each under its own code |
| Batch.ScopedBatchesSelectExactly | app/ha_switchboard/batch.py:117-174 | a batch selects exactly the exposed capabilities of the one spoken domain and operation within exactly the area, floor or label that was spoken; without one only if everything was asked for, so a spoken name never falls back to the whole home |
| Batch.ScopedGroupExactly | app/ha_switchboard/batch.py:117-174 | such a batch is made if and only if one domain, a verb and an action but no negation were spoken, at most one area, floor or label, one of these or everything, and what that selects is one to 32 available, routine targets with distinct references |
| Batch.ScopedGroupRefused | app/ha_switchboard/batch.py:117-174 | words that name no domain or have no verb make no batch; several domains or scopes, a negation or a missing action are refused as ambiguous |
| Batch.NamedBatchesSelectExactly | app/ha_switchboard/batch.py:68-112 | a named batch selects one capability for each member of the only group that was named, and nothing else |
| Batch.NamedBatchesAreLeafSets | app/ha_switchboard/batch.py:79-93 | over a compiled profile the targets of a named batch are the leaves of the nesting the group stands for |
| Routes.OpenExactlyAfterTwoFailures | app/ha_switchboard/route_policy.py:22-42 | a circuit is open exactly when the last two records or more are failures without a success between them and the cooldown of the latest has not passed |
| Routes.RouteRegistry.CircuitAllows | app/ha_switchboard/route_policy.py:128-138 | reading a circuit changes what no later read can tell |
| Routes.RouteRegistry.Note | app/ha_switchboard/route_policy.py:131-135 | a record changes the circuit of its route only, and every circuit is the replay of its own records |
| Routes.RouteRegistry.OrderedRoutes | app/ha_switchboard/route_policy.py:186-241 | the queue loop terminates on cyclic graphs and computes the chain of the breadth-first listing |
| Routes.WalkIsBreadthFirst | app/ha_switchboard/route_policy.py:209-240 | the listing visits each reached route once, in the order in which it is first named by the routes before it, and expands every one |
| Routes.ChainIsTheFirstEight | app/ha_switchboard/route_policy.py:211-241 | the chain is the first at most eight eligible routes of that listing, without repetition; one is left out only when eight come before it |
| Routes.PathsAreListed | app/ha_switchboard/route_policy.py:237-240 | whatever a path of declared failovers leads to is listed |
| Routes.ListedHavePaths | app/ha_switchboard/route_policy.py:237-240 | whatever is listed is led to by such a path |
| Routes.ShortChainsMissNothing | app/ha_switchboard/route_policy.py:209-241 | fewer than eight routes means that the chain has exactly the reachable ones that are ready or degraded, answer in an asked kind, fit privacy, complexity, latency and cost, and have a closed circuit |
| Routes.EligibleMeans | app/ha_switchboard/route_policy.py:147-183 | a route is eligible exactly when it answers in an asked kind, is ready or degraded, has the privacy mode, covers the complexity, has a closed circuit and stays within latency and cost |
| Routes.RouteRegistry.SelectRoute | app/ha_switchboard/route_policy.py:141-183 | the first route in registry order that is so, or none if there is none |
| Handoff.ValidResponse | app/ha_switchboard/handoff.py:141-212 | an accepted answer is of an allowed kind, for this handoff, without raw tool calls, and a proposal names one capability with parameters inside its offered schema |
| Handoff.ResponsesAreValidExactly | app/ha_switchboard/handoff.py:141-212 | an answer is accepted if and only if it is for this handoff, route and depth, without raw calls and sensitive data, of an allowed kind, and either prose of one to 4,000 characters that is not blank and comes alone, or one clean proposal within bounds and within the schema of the first fact about its capability |
| Handoff.HandoffBroker.TryOne | app/ha_switchboard/handoff.py:237-249 | one call leaves one success, one failure, or, for an error the broker does not catch, no record |
| Handoff.HandoffBroker.TryEach | app/ha_switchboard/handoff.py:235-252 | attempts stop at the first one that does not fail; the answer and the records are those of that point |
| Handoff.HandoffBroker.Dispatch | app/ha_switchboard/handoff.py:220-252 | a dispatch walks the chain of the requested route, or answers nothing for a wrong depth or an unknown route |
| Handoff.ChainFitsRequest | app/ha_switchboard/handoff.py:226-234 | every route of the chain is ready or degraded, answers in an allowed kind, fits the request's privacy mode and complexity and the latency limit, and had a closed circuit when the chain was built |
| Handoff.DispatchFollowsTheChain | app/ha_switchboard/handoff.py:220-252 | the answer is that of the first route whose payload validates; each route before it got exactly one failure, it one success, every other route no record |
| Parameters.AcceptsExactly | custom_components/ha_switchboard/execution.py:79-117 | each validator accepts exactly at most eight parameters, none missing or unknown, each a number in its closed range or a text of at most 128 characters among its choices; what each of the three makes of blank and empty texts, NaN, infinities and empty choices |
| Parameters.Validate | custom_components/ha_switchboard/execution.py:79-117 | each validator returns the parameters unchanged when all checks hold and refuses otherwise, so it is idempotent |
| Parameters.PolicyIsTheWidest | app/ha_switchboard/policy.py:101-138 | what Core or the typed-answer normaliser accepts, the gateway's policy accepts with the same values |
| Parameters.CoreIsStricterExactly | custom_components/ha_switchboard/execution.py:97-114 | of what policy accepts Core refuses exactly what has a blank text or a number that is not finite |
| Parameters.NormaliserIsStricterExactly | app/ha_switchboard/protocol.py:202-284 | of what policy accepts for a schema in the typed language the normaliser refuses exactly an empty text, a NaN, or an empty list of choices |
| Parameters.CoreValuesAreInSchema | custom_components/ha_switchboard/execution.py:92-117 | only finite numbers within their bounds and non-blank listed choices reach the executor |
| Parameters.BlankTextStopsAtCore | custom_components/ha_switchboard/execution.py:107-109 | a blank text that passes the gateway and stops at Core |
| Execution.PreflightPassesExactly | custom_components/ha_switchboard/execution.py:270-296 | a batch passes its preflight exactly when its shape, the revision, the freshness check, every target, every reading, the distinct entities and the one operation are as required |
| Execution.BatchCountsWhatItVerified | custom_components/ha_switchboard/execution.py:305-349 | the writes are a prefix of the targets; the report counts the verified ones, in order, is positive exactly when that is all of them, and at most one more was written |
| Execution.NoWriteWithoutPreflight | custom_components/ha_switchboard/execution.py:279-303 | any write means that every target passed the preflight first |
| Execution.WrapperMiscountsExactly | custom_components/ha_switchboard/execution.py:216-253 | the wrapper's report of zero verified targets hides writes exactly when a freshness check raised after the first write, all hidden ones having been verified |
| Execution.ChecksThatDoNotRaiseHideNothing | custom_components/ha_switchboard/execution.py:467-468 | with a freshness check that does not raise, as the one that ships, no report for a call that raised hides a write |
| Execution.ARaisingCheckHidesAWrite | custom_components/ha_switchboard/execution.py:216-253 | with another executor's raising check a batch of two lamps turns the first one on and is reported as nothing verified |
| Execution.ExecutionBoundary.PrepareBatch | custom_components/ha_switchboard/execution.py:270-296 | the loop over the targets computes the preflight before any write |
| Execution.ExecutionBoundary.WriteBatch | custom_components/ha_switchboard/execution.py:305-349 | the loop computes ending and writes, and leaves a receipt for every end but an exception |
| Execution.ExecutionBoundary.ExecuteBatch | custom_components/ha_switchboard/execution.py:216-303 | preflight, receipt, writes and the wrapper's report together, with the new receipts |
| Execution.SingleWritesExactly | custom_components/ha_switchboard/execution.py:394-430 | a single proposal calls one service exactly when it is current, resolved, executable, within its schema, not blocked, confirmed if it must be, not done before and readable |
| ReadBack.SingleRefusedBecause | custom_components/ha_switchboard/execution.py:394-430 | a call that reaches no service is answered by the first gate that stops it, or by its receipt |
| ReadBack.BatchRefusedBecause | custom_components/ha_switchboard/execution.py:270-296 | which code a batch that fails its preflight is refused with |
| ReadBack.VerifiedMeans | custom_components/ha_switchboard/execution.py:128-180 | a write is verified exactly when the call was ok and the reading after it is the one its operation promises: the state of a table, a changed state for a toggle, a number within its tolerance, the mode asked for |
| ReadBack.SingleVerdictExactly | custom_components/ha_switchboard/execution.py:430-456 | a single call that reaches its service reports success, and stores it, if and only if the service returned ok and the entity reads back so |
| ReadBack.NoSuccessWithoutService | custom_components/ha_switchboard/execution.py:412-417 | any other success is the stored receipt of the same call |
| ReadBack.BatchVerdictMeans | custom_components/ha_switchboard/execution.py:305-349 | what a batch counts as verified was called successfully and reads back "on" or "playing", or "off", as it was to be turned; it counts up to the first target that was not, and a positive report means all |
| Execution.ExecutionBoundary.WriteSingle | custom_components/ha_switchboard/execution.py:418-456 | the write of a single proposal, its verdict and its receipt |
| Execution.ExecutionBoundary.ExecuteSingle | custom_components/ha_switchboard/execution.py:351-456 | all gates in order and the wrapper's report, with the new receipts |
| Execution.PerformStoresOnce | custom_components/ha_switchboard/execution.py:298-303 | one call answers from the receipt of its key, or adds its own report under a free key exactly when its writes were not cut short |
| Execution.RunsAreLogs | custom_components/ha_switchboard/execution.py:183-189 | every sequence of calls on a new boundary is a log of such entries |
| Execution.ReceiptsAreFinal | custom_components/ha_switchboard/execution.py:298-349 | a receipt is never changed or dropped |
| Execution.RepeatsAreHarmless | custom_components/ha_switchboard/execution.py:412-417 | a later call that looks up a stored key answers with that receipt and writes nothing |
| Execution.OneWritePassPerKey | custom_components/ha_switchboard/execution.py:298-349 | two calls of a run write under one key only if an exception cut the earlier one short |
| Execution.ReceiptsAreReports | custom_components/ha_switchboard/execution.py:452-456 | every receipt is the report of one earlier call that found none |
| Decisions.AllowedMeans | app/ha_switchboard/policy.py:62-98 | policy allows exactly an active profile, valid and sufficient confidence and ambiguity, and a capability that is exposed, available, allow-listed, not blocked, and confirmed if its risk or domain is high |
| Decisions.SingleIsSafe | app/ha_switchboard/gateway.py:433-477 | an execution of the model's own decision names an offered capability that passes every gate, with validated parameters |
| Answers.GatesAre | app/ha_switchboard/policy.py:62-98 | each verdict of policy, if and only if, in the fields of the profile, the capability and the policy |
| Answers.DirectAnswersExactly | app/ha_switchboard/gateway.py:433-477 | the model's own decision is executed if and only if it names an offered capability of the profile that is exposed, available, allowed and not blocked, is sure enough, its parameters pass policy, and a high risk is confirmed; likewise when a confirmation is asked for, when a clarification, and when the parameters are refused; the result carries the decision |
| Answers.GroupAnswersExactly | app/ha_switchboard/gateway.py:479-506 | a group is executed as a whole if and only if it was chosen without parameters and every member passes without a confirmation |
| Answers.GroupStopsBecause | app/ha_switchboard/gateway.py:479-506 | a group that is not executed was not chosen as such, or is answered for its first member that does not pass |
| Answers.ProposalAnswersExactly | app/ha_switchboard/gateway.py:566-604 | a fallback's proposal is executed, or asked about, if and only if its operation and device were spoken and the gates say so |
| Answers.FallbackAnswersExactly | app/ha_switchboard/gateway.py:508-604 | what a handoff comes to: an execution or a confirmation if and only if a proposal or the spoken group passes, and prose if and only if a fallback answered in prose |
| Answers.HandoffsFailAs | app/ha_switchboard/gateway.py:508-604 | the code under which each handoff that comes to nothing is refused |
| Answers.PlansExactly | app/ha_switchboard/gateway.py:386-431 | which answers of the model are handed on, and what the others come to |
| Answers.OutcomesExactly | app/ha_switchboard/gateway.py:386-565 | for every answer of the model and of the fallbacks: executions, confirmations and prose answers, if and only if |
| Answers.AskedExactly | app/ha_switchboard/gateway.py:356-385 | the model is asked if and only if the request is for the active, current profile, no hosted model would see it in local mode, and its words are not a refused group |
| Answers.RefusedBecause | app/ha_switchboard/gateway.py:356-385 | the code under which a request is refused before the model is asked: the first gate that stops it |
| Answers.NeedsExactly | app/ha_switchboard/gateway.py:386-431 | a handoff is made if and only if the model was asked and its answer is one that is handed on |
| Answers.DecidedRequestsExactly | app/ha_switchboard/gateway.py:352-477 | for such a request about one device: what passes every gate is executed or asked about, and if nothing is handed on nothing else is |
| Decisions.BatchIsSafe | app/ha_switchboard/gateway.py:479-506 | a batch execution lists exactly the members of the selected group, each passing every gate without a confirmation |
| Decisions.ProposalIsSafe | app/ha_switchboard/gateway.py:566-604 | an execution of a fallback's proposal passes the same gates, and its operation and device were spoken |
| Decisions.ExecutionsAreSafe | app/ha_switchboard/gateway.py:386-431 | for every answer of the model and of the fallbacks, only what passes every gate is executed |
| Decisions.ParametersPassPolicyExactly | app/ha_switchboard/gateway.py:604-677 | executed parameters passed policy, except that a fallback's empty ones stand for the model's own, which then pass or not |
| Decisions.SameChoiceKeepsPolicy | app/ha_switchboard/jev_client.py:202-222 | they pass if the model chose no parameters, or the fallback named the capability that the model chose, for which its client normalised them |
| Decisions.ParametersOfAnotherChoice | app/ha_switchboard/gateway.py:566-677 | an unsure decision about a dimmer and a fallback that names a plug without parameters: the plug is turned on with the dimmer's brightness, which policy does not accept for it |
| Decisions.ConfirmationsAskOnlyForTheYes | app/ha_switchboard/gateway.py:462-604 | a confirmation is asked only for an offered capability that every gate but the confirmation passes, and never for a batch |
| Replay.Remember | app/ha_switchboard/gateway.py:691-695 | a result keeps its key's place or is appended, and then the oldest goes |
| Replay.CacheIsTheLastResults | app/ha_switchboard/gateway.py:691-695 | after any run without repeated ids the cache is the last 1,024 results in the order they were decided |
| Replay.CacheIsTheLastInsertions | app/ha_switchboard/gateway.py:691-695 | after any run, with repeated ids as well, the cache has the last 1,024 ids that took a place, in that order, each with the newest result under it |
| Replay.RepeatsAreAnswered | app/ha_switchboard/gateway.py:352-355 | an id is cached exactly when it is among those, with the very result it got |
| Gateway.HandoffCandidates | app/ha_switchboard/gateway.py:606-623 | at most sixteen candidates, the spoken ones first, each part in source order |
| Gateway.SpokenDevicesAreOffered | app/ha_switchboard/gateway.py:606-623 | a spoken device is left out only for sixteen other spoken ones before it |
| Gateway.RouteForMeans | app/ha_switchboard/gateway.py:508-545 | a handoff goes to the first route that suits for a proposal, and only if none does to the first that suits for prose |
| Gateway.HandoffsAre | app/ha_switchboard/gateway.py:546-562 | a handoff carries the decision's complexity, the request's privacy, one level of depth and both response kinds |
| Gateway.AttemptsRespectPrivacy | app/ha_switchboard/gateway.py:546-562 | every route a dispatch of the gateway calls allows the effective privacy and the decision's complexity and had a closed circuit |
| Gateway.Gateway.Handoff | app/ha_switchboard/gateway.py:508-565 | at most one dispatch, to a route that fits privacy and complexity, with the request's privacy; its records are those of the chain |
| Gateway.Gateway.Decide | app/ha_switchboard/gateway.py:356-431 | the model is asked exactly when every earlier gate passed, and a handoff is made exactly when the funnel says so |
| Gateway.Gateway.Process | app/ha_switchboard/gateway.py:352-431 | a cached id returns the identical result, asks nobody and changes nothing; any other is decided and remembered, with at most one handoff, whose records are those of one walk of its chain |
| Gateway.FreshExecutionsAreSafe | app/ha_switchboard/gateway.py:352-506 | for every provider behaviour a fresh execution is for the current active profile and is a safe single one, or lists exactly the spoken group |
| Gateway.PrivacyIsTheStricter | app/ha_switchboard/gateway.py:359-369 | the effective privacy is the stricter of the requested and the configured one, and a hosted model is never asked in local mode |
| Gateway.AskingFollowsAReconciliation | app/ha_switchboard/gateway.py:373-380 | in every App lifetime the model is asked only after a reconciliation of that lifetime with no event since |
| Gateway.FreshResultsFollowAReconciliation | app/ha_switchboard/gateway.py:352-431 | every fresh execution, confirmation or answer follows a reconciliation of this lifetime with no event since |
| Gateway.RememberedUnderItsId | app/ha_switchboard/gateway.py:353-355 | a request with an id of its own is remembered under the id it is looked up by |
| Context.ConversationContextStore.PutItem | custom_components/ha_switchboard/conversation_context.py:78-91 | a put replaces the conversation's own item after expired ones went; only a new conversation in a full store evicts, and then the first of the oldest |
| Context.VisibleMeans | custom_components/ha_switchboard/conversation_context.py:93-99 | a user sees exactly the conversation's current item, if it is their own and has not expired |
| Context.ConversationContextStore.Peek | custom_components/ha_switchboard/conversation_context.py:93-99 | exactly the latest put of the conversation, if it is by this user, unexpired and not removed since |
| Context.ConversationContextStore.Consume | custom_components/ha_switchboard/conversation_context.py:101-105 | the same, and the item is gone; another user's attempt leaves it |
| Context.ConversationContextStore.Clear | custom_components/ha_switchboard/conversation_context.py:107-108 | the conversation's item goes, whoever put it |
| Context.CurrentIsTheLatestPut | custom_components/ha_switchboard/conversation_context.py:78-108 | what is current in the log is one put with no later operation about its conversation |
| Context.ConsumedOnce | custom_components/ha_switchboard/conversation_context.py:101-105 | no put is consumed twice |
| Turns.OpeningsAre | custom_components/ha_switchboard/conversation.py:443-538 | for every item and reply, how the turn opens and what settles the item: a listed yes or no, the selection of one candidate, any value |
| Turns.ConversationEntity.BeginTurn | custom_components/ha_switchboard/conversation.py:428-538 | a turn looks at its own conversation's pending item; one that its reply settles is no longer in the store, any other stays |
| Turns.ConversationEntity.FinishTurn | custom_components/ha_switchboard/conversation.py:576-585 | a turn that ends with a question stores its request without state, or raises for one too long |
| Turns.ConfirmedCallsWereAccepted | custom_components/ha_switchboard/conversation.py:443-469 | over every interleaving of turns the boundary gets the confirmation flag only in a turn that consumed an unexpired confirmation of the same conversation and user by a yes |
| Turns.AcceptedOnce | custom_components/ha_switchboard/conversation.py:454-456 | no two turns accept the same entry |
| Turns.SettledIsNotSeen | custom_components/ha_switchboard/conversation.py:446-538 | no later turn of a run sees what a turn settled |
| Turns.ANoTakesItAway | custom_components/ha_switchboard/conversation.py:446-447 | in every run, after a no the confirmation is gone for good, and no confirmed call of the run rests on it |
| Turns.OneCallPerTurn | custom_components/ha_switchboard/conversation.py:300-379 | a turn calls the boundary at most once |
| Turns.EachEntryAuthorisesOneCall | custom_components/ha_switchboard/conversation.py:352-366 | no two flagged calls of a run rest on the same entry |
| Turns.FlagIsNotStored | custom_components/ha_switchboard/conversation.py:119-148 | a stored request never carries the flag; taking it up sets the flag exactly for a yes to a confirmation |
| Turns.CompactKeeps | custom_components/ha_switchboard/conversation.py:119-148 | a stored request keeps its texts and ids, no state, and of its first 64 candidates those with an id |
| Turns.FilledKeeps | custom_components/ha_switchboard/conversation.py:255-290 | what is sent has the coordinator's revision, candidates and state only where the request has none of its own |
| Turns.QuestionsAre | custom_components/ha_switchboard/conversation.py:570-585 | which answers leave a question, of which kind, and the 2,000 characters a stored text may have |
| Turns.UnclearReplyTakesTheRequestsPlace | custom_components/ha_switchboard/conversation.py:470-476 | in every run a confirmation is pending after an unclear reply to one; it is still the one that was asked if and only if the reply's own words exceed the store's bound, so that the turn raises, and else it is for those words |
| Turns.ConfirmedCallsKeepTheirId | custom_components/ha_switchboard/conversation.py:461-468 | in every run a confirmed call has the request id of the turn that asked for the confirmation |
| Confirmations.AYesGetsItsQuestionBack | app/ha_switchboard/gateway.py:352-355 | that id is answered from the gateway's cache if and only if one of the last 1,024 results was remembered under it, with that very result |
| RateLimiter.RateLimiter.Expire | app/ha_switchboard/http_security.py:178-179 | what is left of a queue is as many as the admissions of the whole history inside the window |
| RateLimiter.RateLimiter.Allow | app/ha_switchboard/http_security.py:175-183 | the limiter answers as one that keeps the whole history, and other keys are not affected |
| RateLimiter.NoSpanExceedsTheLimit | app/ha_switchboard/http_security.py:175-183 | no half-open span of one window holds more than the limit of admissions of a key |
| RateLimiter.DenialsAreExact | app/ha_switchboard/http_security.py:180-181 | never more than the limit lie inside the last window, so a denial means exactly the limit |
| Adapter.TableIsExecutable | custom_components/ha_switchboard/capabilities.py:41-68 | the operation table and the boundary's executable pairs are the same set, and the table's risk is the domain's |
| Adapter.TemperaturesAreBounded | custom_components/ha_switchboard/profile_adapter.py:140-155 | whatever the attributes say, accepted temperatures lie between 5 and 35 and the admitted range is not empty |
| Adapter.TemperatureRangeIs | custom_components/ha_switchboard/profile_adapter.py:140-155 | the range that a thermostat admits, for every pair of bounds it declares |
| Adapter.ModesAre | custom_components/ha_switchboard/profile_adapter.py:156-165 | the first 32 modes of a thermostat that are not empty, or the usual ones if it has none |
| Adapter.Scan | custom_components/ha_switchboard/profile_adapter.py:250-344 | the loops over states and operations build rows, routines and targets of the scan |
| Adapter.CompileActions | app/ha_switchboard/profile.py:233-286 | the compile's loops over rows and operations make the gateway's entity actions |
| Adapter.CapabilityIdsDiffer | custom_components/ha_switchboard/opaque.py:8-22 | different entities or operations have different capability ids |
| Adapter.TargetsExactly | custom_components/ha_switchboard/profile_adapter.py:308-340 | Core's targets are exactly the executable operations, with a service that is there, of the enabled and exposed entities; each target is for that entity, that operation's service and the domain's risk |
| Adapter.RowsExactly | custom_components/ha_switchboard/profile_adapter.py:250-344 | the rows are those of the entities of supported domains, scripts, scenes and groups apart |
| Adapter.RoutinesExactly | custom_components/ha_switchboard/profile_adapter.py:290-306 | the routines are exactly the enabled and exposed scripts and scenes |
| Adapter.RowSays | custom_components/ha_switchboard/profile_adapter.py:308-340 | a row is exposed exactly if its entity is enabled and exposed, and lists exactly the executable operations whose service is there |
| Adapter.ActionSays | app/ha_switchboard/profile.py:255-286 | an entity action of the gateway carries its row's reference, domain, places, availability, schema and risk |
| Adapter.BothSidesAgree | custom_components/ha_switchboard/profile_adapter.py:250-346 | for states with distinct ids the gateway's action ids are exactly Core's target ids, and both sides agree on reference, domain, operation, schema and risk of each |
| Adapter.RoutinesHaveNoTarget | custom_components/ha_switchboard/profile_adapter.py:299-306 | no script or scene id is in Core's map |
| Gates.ResolvedAlike | custom_components/ha_switchboard/execution.py:470-471 | Core resolves an id exactly when the gateway finds an entity action under it, and both see the same |
| Gates.OnlyParametersCanFail | custom_components/ha_switchboard/execution.py:400-411 | for candidates sent by Core, whatever the gateway executes Core resolves, and of Core's checks only the one on parameters can still fail |
| Gates.BatchesPassByDomain | custom_components/ha_switchboard/execution.py:281-288 | Core resolves every member of a batch that the gateway built and executes, and takes it exactly when it is a light, a switch or a fan, which it always is when a domain was spoken |
| Gates.BatchesPassPreflightExactly | custom_components/ha_switchboard/execution.py:270-296 | such a batch passes the whole preflight if and only if the profile is current, every target is readable and every member is a light, a switch or a fan; shape, distinct entities and the one operation never fail |
| Gates.MediaPlayerGroupsAreRefused | custom_components/ha_switchboard/execution.py:281-288 | for a scan with one media player: the group that contains it is made into a batch, passes every gate of the gateway, and is refused in Core's preflight |

## Left out

- HTTP servers and clients, discovery, provider wire formats, persistence files, the dashboard, the config flow, diagnostics and the options refresh.
- Provider health counters, warnings, timestamps, the `connected` flag, the Core state cache, display texts and read-only answers: nothing proved here depends on them.
- Task cancellation and shutdown: the transition systems have no shutdown step, and a flush task or a scan always gets to its next step.
- The recovery watch and the periodic refresh are callers of a reconciliation like any other; when they run is not modelled, and neither is that recovery skips when the App is active at the same revision.
- Groups.OrderDoesNotMatter: only for a group that no chain of more than 32 groups meets, in it or in what it contains; others may still resolve alike in two orders because a member was resolved earlier.
- Groups.RowsHold: emptiness of a row is exact within that bound only, for the same reason; so is validity in GroupCompiler.CompiledGroupsMean.
- CoreRuns.NoEventIsLost: a direct event whose invalidation call fails is not followed by a scan of its own in the code either; such a handler owes nothing more.
- Protocol.WritesUseTheDecidedScanExactly: that the App's status call may supply a missing revision is not modelled, because the App of this model always answers with one.
- Execution.RunsAreLogs: calls come one after the other. Two overlapping calls with one request id can both pass the receipt lookup.
- Turns.ConversationEntity.BeginTurn: peek and consume read the clock once; an item that expires between the two readings is gone either way. The native fast path and read-only answers end a turn without a call and without a question, which a step that finishes a turn covers.
- Turns.ConversationEntity.FinishTurn: of the store's shape checks on a request only the bounds on its own texts are modelled; compacted candidates are within the others.
- Gateway.Gateway.Process: two requests never overlap. A request id that is a falsy value other than missing is looked up under a new id and remembered under its text, so repeating it is not answered from the cache.
- Gateway.Gateway.Handoff: bounds on the handoff's own texts, and candidates that are not objects, are not modelled.
- Handoff.HandoffBroker.Dispatch: time is read once for each route id while a chain is built.
- Batch: words are matched by inputs, not by regular expressions; the group's label for the model's candidate list is not modelled.
- Adapter.BothSidesAgree: says nothing about a compile that raises for over-long texts, and takes a digest of twenty hexadecimal digits to be injective. Names, aliases and service shapes are not modelled.
- Parameters.Validate: numbers are reals, NaN or infinite; conversion of integers to floats is the identity.
- `verify_operation` compares reals with its tolerances exactly; rounding is not modelled.
- `CircuitBreaker`, `RetryPolicy` and `resolve_batch_targets`: nothing in the modelled paths calls them.
