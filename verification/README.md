# Verified model of the deploy chat's state handling

A Dafny model of the algorithms and state machines behind the chat front end, with proofs about them. Chain and provider
calls, hashing, JSON, Unicode tables and browser storage are parameters of the model or steps of its environment;
everything else follows the source's own branches, limits and error cases.

| Part of the system | Modules |
|---|---|
| Batch deploy planning | `AppNames`, `SkuTiers`, `BatchPlan`, `BatchStages`, `BatchSiblings`, `BatchReplan`, `BatchMeaning`, `BatchConsent`, `BatchPlanner` |
| Relay client | `RelayCompaction`, `EventStream`, `ChatStream` |
| Maintenance confirmations | `MaintenanceCompletion`, `MaintenanceSafety`, `MaintenanceTable`, `MaintenanceOutcome` |
| Deploy diagnostics | `DiagnosticBudget`, `DiagnosticAllocation`, `DeployDiagnostic` |
| Batch execution | `SigningMutex`, `BatchRunner` |
| App registry | `AppStatus`, `RegistryImport`, `AppRegistry`, `RegistryWriters`, `RegistryStorage`, `RegistryAccess` |
| Wallet context and transcripts | `WalletIdentity`, `WalletContext`, `WalletNotices`, `WalletSafety`, `WalletStore` |
| Polling and pagination | `VisibilityPolling`, `LeasePagination` |
| Helpers | `Options`, `Text` |

Code that changes state in the source is a class or a method with loops here, proved against a specification function of
the same state; the properties are then proved of that function over all inputs or all runs. `dafny verify dfyconfig.toml`
checks the whole project.

## Where the code does less than it seems to promise

The model keeps the code as it is. Each of these has a lemma with an input that shows the gap, and a lemma that says
exactly when the promise holds.

- Planning an accepted plan again does not always give the same plan. A custom domain that is still not normal after one
  normalisation (`"."`, `"a.b.."`) drifts (`BatchReplan.PlansDrift`), and so do tier names that differ only in case
  (`BatchReplan.CaseDrifts`).
  `BatchReplan.ReplanExactly` gives the exact condition on the plan's entries; `BatchReplan.ReplanUnchanged` one on the
  drafts and the catalogue.
- The budget allocator can cut an entry although every demand fits the budget, but only one that is shown zero times
  (`DiagnosticAllocation.UnshownEntryCut`); no caller in the repository passes such an entry, since copies are 1 in
  src/ai/toolExecutor/deployDiagnostic.ts:133 and 1 or 2 in the batch summary. Shown entries get their full size exactly
  when the total demand fits (`DiagnosticAllocation.FullExactlyWhenFits`), and all entries exactly when, besides, those
  behind the last shown one are no larger than what is left over (`DiagnosticAllocation.AllFullExactly`).
- An app entry without a provider observation can forget an old failure, so that the order of chain observations matters
  (`AppStatus.LegacyFailureForgotten`). The last observation alone decides exactly when there is no old failure, when it
  sees the lease, or when the lease was absent throughout (`AppStatus.LegacyLastTickDecides`).
- A storage event for another tab's older write, followed by a read that fails, loses the list this tab saved last,
  exactly when that list had reached storage (`RegistryStorage.LateEvent`).
- Adding an app after a failed read, without a copy in memory, overwrites the stored list
  (`RegistryAccess.FailedReadOverwrites`). The entries of the other leases are kept exactly when the read worked, when
  the list was unsaved, or when memory holds them all (`RegistryAccess.AddKeepsExactly`). Discovering apps on the chain
  after such a read stores freshly imported entries alone, without the names and verdicts the list had
  (`RegistryAccess.FailedReadReimports`); `RegistryAccess.DiscoverKeepsExactly` says exactly when they are kept.
- A transaction authorization does not notice a wallet address that changed and changed back
  (`WalletSafety.AddressMayReturn`); `WalletSafety.AuthorizationPins` says exactly what it does notice, and the
  authorization epoch notices every change (`WalletSafety.EpochPins`).
- Polling delays exceed interval times the cap, before any failure, exactly when the cap is below one
  (`VisibilityPolling.CapHolds`).

One assumption is on the environment and not on the code: browsers announce a change of visibility, and nothing else,
when it happens. `VisibilityPolling.KeepsPaceExactly` says exactly which other announcements and silent changes polling
would tolerate; a repeated announcement of a visible document would leave two timers running
(`VisibilityPolling.RepeatedEventDoubles`).

## Model

| member | source | states |
|---|---|---|
| `AppNames.SuffixedInjective` | src/ai/toolExecutor/batchDeployPlan.ts:241-263 | Different numeric suffixes give different names, however much of the base was cut to fit |
| `AppNames.SuffixedShape` | src/registry/appRegistry.ts:425-431 | A suffixed name is cut to at most 32 characters and still matches the accepted pattern |
| `AppNames.ShapeTells` | src/registry/appRegistry.ts:131-132 | The accepted names are those of the regular expression: one name character, or two with at most 30 characters in between |
| `AppNames.SuffixedTells` | src/registry/appRegistry.ts:425-431 | The numeric suffix follows the base, which is cut only as far as 32 characters require |
| `AppNames.TakenBound` | src/registry/appRegistry.ts:425-431 | Taken numbers are bounded by the number of taken names, so the search for a free one ends |
| `AppNames.FreshIndex` | src/registry/appRegistry.ts:425-431 | The search finds the least free number from 2 on |
| `AppNames.FreshNameShape` | src/registry/appRegistry.ts:425-431 | The name found is valid for any registry an array can hold |
| `Text.TrimIdempotent` | src/utils/walletIdentity.ts:7-20 | Trimming twice is trimming once |
| `Text.TrimCuts` | src/utils/walletIdentity.ts:7-20 | Trimming cuts white space off both ends and stops at something visible |
| `Text.SpacesAre` | src/utils/walletIdentity.ts:7-20 | White space is the ECMAScript set, by code point |
| `SkuTiers.GetCheapestTier` | src/api/skuTiers.ts:89-100 | The scan returns the first tier among those of least price |
| `SkuTiers.SubstitutionRepeats` | src/api/skuTiers.ts:119-141 | An unavailable size hint resolves again to the same substitute with the same notice |
| `SkuTiers.ResolutionMeans` | src/api/skuTiers.ts:59-141 | Every size hint gets the tier that the rule on the catalogue gives: by whole name, by the name with docker- in front, by the end of the name, or else the first cheapest with a notice of the hint |
| `SkuTiers.OwnNameResolves` | src/api/skuTiers.ts:59-87 | Under distinct names a tier's own name resolves to that tier |
| `SkuTiers.ResolutionRepeats` | src/api/skuTiers.ts:59-141 | What a hint resolved to is resolved again from what the plan keeps of it |
| `SkuTiers.CaseCollisionDrifts` | src/api/skuTiers.ts:59-87 | Of two tier names differing only in case the second resolves to the first tier |
| `SkuTiers.GroupByName` | src/api/skuTiers.ts:185-282 | The loop groups exactly the priced SKUs under each name, in chain order |
| `SkuTiers.ChooseOffer` | src/api/skuTiers.ts:185-282 | Each named tier gets the first cheapest of its offers |
| `SkuTiers.ResolveTier` | src/api/skuTiers.ts:208-261 | A configured name gets the tier of its first cheapest priced offer, or none |
| `SkuTiers.ResolveSkuTiers` | src/api/skuTiers.ts:185-282 | The loops compute the resolved catalogue, in the order of the specifications, and the symbol of the first tier that has one |
| `SkuTiers.RefreshRepeats` | src/ai/toolExecutor/batchDeployPlan.ts:195-219 | Resolving the resolved catalogue again on the same chain SKUs changes nothing |
| `SkuTiers.CatalogueTells` | src/api/skuTiers.ts:185-282 | The catalogue lists exactly the configured names that have a priced SKU, in their order and with their specifications |
| `SkuTiers.TiersAreCheapest` | src/api/skuTiers.ts:160-282 | Every tier charges by the hour what a priced SKU of its name charges, by the day or by the hour, and no other priced SKU of that name charges less |
| `BatchPlan.AvailableName` | src/ai/toolExecutor/batchDeployPlan.ts:241-263 | A returned name is valid, not live and unused; a usable request is returned as it is |
| `BatchPlan.NameIsNext` | src/ai/toolExecutor/batchDeployPlan.ts:241-263 | The name is the requested one if it is free, else that with the least number from 2 to 99; the search fails only when none is free, and the error tells how the last one failed |
| `BatchPlanner.NextAvailableName` | src/ai/toolExecutor/batchDeployPlan.ts:241-263 | The suffix loop computes that name or that error |
| `BatchPlanner.PrepareDrafts` | src/ai/toolExecutor/batchDeployPlan.ts:455-595 | The entry-local loop computes the first phase, identities and rejections included |
| `BatchPlanner.AdmitPrepared` | src/ai/toolExecutor/batchDeployPlan.ts:605-714 | Domain checks and the reservation loop compute the second phase, marking names and domains of survivors only |
| `BatchPlanner.PlanBatchDeploy` | src/ai/toolExecutor/batchDeployPlan.ts:409-796 | The whole planner computes the planning specification in atomic and partial mode |
| `BatchStages.PartialStages` | src/ai/toolExecutor/batchDeployPlan.ts:455-714 | In partial mode only a bad identity stops planning, and the two phases accept exactly what judging the drafts one by one accepts |
| `BatchStages.AtomicStages` | src/ai/toolExecutor/batchDeployPlan.ts:455-714 | Atomic planning succeeds exactly when every draft's own outcome, next to the entries before it, is its entry |
| `BatchSiblings.AtomicAccepted` | src/ai/toolExecutor/batchDeployPlan.ts:455-714 | An atomic plan is also the partial plan of the same drafts |
| `BatchSiblings.PlannedIsAccepted` | src/ai/toolExecutor/batchDeployPlan.ts:455-796 | A plan's entries are the drafts accepted one by one, in either mode |
| `BatchSiblings.PlanReserves` | src/ai/toolExecutor/batchDeployPlan.ts:663-714 | Names and attached domains of a plan are pairwise distinct, and every name is valid and not live |
| `BatchSiblings.PlanPartitionsDrafts` | src/ai/toolExecutor/batchDeployPlan.ts:459-714 | Accepted and rejected identities together are the drafts' identities, each exactly once |
| `BatchSiblings.SurvivorsAlone` | src/ai/toolExecutor/batchDeployPlan.ts:455-714 | Keeping only the accepted identities, the atomic phases give the same entries |
| `BatchSiblings.RejectedLeaveNoTrace` | src/ai/toolExecutor/batchDeployPlan.ts:455-796 | A partial plan equals the atomic plan of its survivors: a rejected draft changes no name, price, total or hash |
| `BatchReplan.EntryReplans` | src/ai/toolExecutor/batchDeployPlan.ts:385-407 | One entry turned back into a draft is planned unchanged exactly when its tier and its domain are settled |
| `BatchReplan.ReplanExactly` | src/ai/toolExecutor/batchDeployPlan.ts:385-796 | Planning the drafts of an accepted plan again gives exactly the same plan if and only if all its entries are settled |
| `BatchReplan.ReplanUnchanged` | src/ai/toolExecutor/batchDeployPlan.ts:385-796 | With distinct trimmed tier names and normal domains it always does: suffixes, substitutions, totals and hash stay |
| `BatchReplan.DotDrifts` | src/ai/toolExecutor/batchDeployPlan.ts:552-575 | The domain `"."` loses its service name when planned again |
| `BatchReplan.DoubleDotDrifts` | src/ai/toolExecutor/batchDeployPlan.ts:552-575 | A domain with two trailing dots loses one at each planning |
| `BatchReplan.PlansDrift` | src/ai/toolExecutor/batchDeployPlan.ts:385-796 | In a concrete environment a draft with either domain is planned, and planning that plan again does not give it back |
| `BatchReplan.CaseDrifts` | src/ai/toolExecutor/batchDeployPlan.ts:385-796 | With tier names that differ only in case a draft without a size is planned, and planning that plan again does not give it back |
| `BatchMeaning.MadeTells` | src/ai/toolExecutor/batchDeployPlan.ts:455-714 | Whatever an entry shows is true of its draft: name, manifest, services, size and hash, tier and price for all services, provider, domain, service and warning |
| `BatchMeaning.PlanTells` | src/ai/toolExecutor/batchDeployPlan.ts:409-796 | Every entry of a plan is true of a draft of its own, and entries stand in the order of the drafts |
| `BatchMeaning.PlanAddsUp` | src/ai/toolExecutor/batchDeployPlan.ts:716-780 | Service count and price of a plan are the sums over its entries, which share one denomination; the balance covers the price and the plan carries the hash of its content |
| `BatchMeaning.OutcomeFault` | src/ai/toolExecutor/batchDeployPlan.ts:455-714 | A draft that is refused is at fault in the way its error says |
| `BatchMeaning.PhasesReject` | src/ai/toolExecutor/batchDeployPlan.ts:459-714 | In partial mode the rejected drafts are exactly those that fail next to the entries accepted before them; in atomic mode there are none |
| `BatchMeaning.RefusalsAreTrue` | src/ai/toolExecutor/batchDeployPlan.ts:409-796 | A refused batch has the cause its error names, and every draft set aside is at fault |
| `BatchConsent.GateExactly` | src/ai/toolExecutor/compositeTransactions.ts:861-878 | Whatever changed since approval, planning the approved plan again gives it back if and only if every entry's name, tier, price, provider and domain stand and the balance covers the total; unless the hash collides on the two plans, the hash comparison lets through exactly that |
| `BatchConsent.EntryStandsExactly` | src/ai/toolExecutor/batchDeployPlan.ts:385-714 | One approved entry is planned again unchanged in the new environment exactly when its name is usable, its size picks the same tier at the same price, its provider is at the same address and accepts the manifest, and its domain is settled, valid and free |
| `BatchConsent.PlanStands` | src/ai/toolExecutor/batchDeployPlan.ts:385-714 | All approved entries come back from the two phases exactly when each of them stands |
| `RelayCompaction.FindProtected` | src/api/morpheus.ts:104-170 | The backward scan finds where the part that is never dropped for budget begins |
| `RelayCompaction.DropOne` | src/api/morpheus.ts:104-170 | Dropping a message takes exactly its characters, its bytes and one comma off the two totals |
| `RelayCompaction.CompactMessagesForRelay` | src/api/morpheus.ts:104-170 | The loops keep exact running counters and return the system message and the suffix from the least admissible start |
| `RelayCompaction.CompactionUnique` | src/api/morpheus.ts:104-170 | That start is unique, so the result is determined |
| `RelayCompaction.ProtectedSurvives` | src/api/morpheus.ts:104-170 | A matching final exchange survives whole, and so does a newest message that is no tool reply |
| `RelayCompaction.RepliesKeepPredecessor` | src/api/morpheus.ts:104-170 | Every retained tool reply still follows the non-tool message it followed originally |
| `RelayCompaction.OverBudgetOnlyProtected` | src/api/morpheus.ts:104-170 | The result is over budget only when nothing but the protected part is left |
| `RelayCompaction.SystemSurvives` | src/api/morpheus.ts:104-170 | A system message in front is always kept, and the rest that is kept is one run of messages up to the newest |
| `RelayCompaction.BytesTell` | src/api/morpheus.ts:104-170 | The request's size is everything around the messages, each message, and a comma between any two |
| `RelayCompaction.FittingIsKept` | src/api/morpheus.ts:104-170 | A conversation within both budgets is sent as it is |
| `RelayCompaction.WithinBudgets` | src/api/morpheus.ts:104-170 | What is sent is within 100,000 characters and 320 KiB, or nothing but the newest message or the final exchange is left |
| `RelayCompaction.ExchangeSurvives` | src/api/morpheus.ts:104-170 | An assistant message at the end with replies to its calls survives whole |
| `RelayCompaction.UnmatchedGoes` | src/api/morpheus.ts:104-170 | A final run of replies that does not match goes when nothing larger than its last message fits |
| `EventStream.SeparatorMeansNothing` | src/api/morpheus.ts:183-236 | A blank separator between two texts adds no event |
| `EventStream.CuttingKeepsMeaning` | src/api/morpheus.ts:183-236 | Cutting the buffer at blank separators and keeping the rest loses no event, whatever text follows |
| `EventStream.BlankMeansNothing` | src/api/morpheus.ts:183-236 | Ignoring a blank remainder loses no event |
| `EventStream.LineTells` | src/api/morpheus.ts:183-236 | A line carries a payload exactly when, trimmed, it is the field name followed by the payload, and ends the stream exactly when that payload is the end marker |
| `EventStream.LinesGlued` | src/api/morpheus.ts:183-236 | Splitting into lines loses nothing and leaves no line break in a line |
| `EventStream.FramesRead` | src/api/morpheus.ts:183-236 | Of payloads sent each on a data line with a blank line after it exactly the parsed ones before the end marker are yielded |
| `EventStream.ReadLines` | src/api/morpheus.ts:183-236 | One pass over lines yields their events up to the end marker |
| `EventStream.ReadParts` | src/api/morpheus.ts:183-236 | One pass over complete parts yields their events up to the end marker |
| `EventStream.ParseSse` | src/api/morpheus.ts:183-236 | For every way of cutting the text into chunks the events are those of scanning the whole text line by line up to the first end marker |
| `ChatStream.Accumulate` | src/api/morpheus.ts:271-400 | After any deltas the partial-call map holds, per index, the first id and the joined names and arguments |
| `ChatStream.AbsorbDelta` | src/api/morpheus.ts:271-400 | One more delta keeps that |
| `ChatStream.SortedAccumulated` | src/api/morpheus.ts:404-433 | Sorting the map by index gives the assembled calls in ascending index order |
| `ChatStream.EmitToolCalls` | src/api/morpheus.ts:404-433 | One call is emitted per index, in ascending order, leaving out calls without a name |
| `ChatStream.StreamChat` | src/api/morpheus.ts:271-433 | Content in order, then every assembled call once, then the end; an error chunk ends the stream at once |
| `ChatStream.EmittedOnce` | src/api/morpheus.ts:271-433 | What is emitted is determined by the chunks: no two different emissions meet the previous row |
| `ChatStream.StreamText` | src/api/morpheus.ts:183-433 | Reading the text in whatever pieces and streaming its events emits what the whole text determines |
| `ChatStream.CuttingChangesNothing` | src/api/morpheus.ts:183-433 | Pieces that join to the same text make the chat emit the same |
| `ChatStream.OneFragment` | src/api/morpheus.ts:271-433 | A call in one fragment is emitted with its name, id and parsed arguments, or the empty ones; without a name it is not emitted |
| `ChatStream.SplittingKeepsCalls` | src/api/morpheus.ts:271-433 | Cutting a fragment in two changes no call |
| `ChatStream.SwappingKeepsCalls` | src/api/morpheus.ts:271-433 | Interleaving the fragments of different calls otherwise changes no call |
| `ChatStream.SameCallsEmitted` | src/api/morpheus.ts:404-433 | Fragments that assemble to the same calls are emitted the same |
| `ChatStream.TextIsKept` | src/api/morpheus.ts:271-433 | The emitted text is the text that came, in pieces that are not empty |
| `ChatStream.NothingAfterEnd` | src/api/morpheus.ts:271-433 | An error, a stop or a request for tools ends the stream, whatever comes after it |
| `MaintenanceTable.AdmitBatch` | src/ai/toolExecutor/maintenanceCompletion.ts:77-104 | The loops reserve new work first and then join every key, or refuse and keep nothing |
| `MaintenanceTable.DropLease` | src/ai/toolExecutor/maintenanceCompletion.ts:128-135 | Exactly the slots of the closed lease are deleted |
| `MaintenanceTable.CompletionTable.CaptureEpoch` | src/ai/toolExecutor/maintenanceCompletion.ts:47-55 | Gives the current epoch of the scope, opening a session when there is none |
| `MaintenanceTable.CompletionTable.ReserveCompletions` | src/ai/toolExecutor/maintenanceCompletion.ts:77-104 | Updates the table as specified; a refused reservation changes nothing |
| `MaintenanceTable.CompletionTable.ReleaseReservation` | src/ai/toolExecutor/maintenanceCompletion.ts:107-120 | Gives up an owner's slots, keeping dispatched ones, in the session it came from only |
| `MaintenanceTable.CompletionTable.ReleaseSettled` | src/ai/toolExecutor/maintenanceCompletion.ts:123-125 | Frees the slot of a command settled elsewhere |
| `MaintenanceTable.CompletionTable.ReleaseAbsent` | src/ai/toolExecutor/maintenanceCompletion.ts:128-135 | Frees the slots of a closed lease |
| `MaintenanceTable.CompletionTable.RememberCompletion` | src/ai/toolExecutor/maintenanceCompletion.ts:137-153 | Records a result in the current session once, and answers a repetition by its payload hash |
| `MaintenanceTable.CompletionTable.ClearCompleted` | src/ai/toolExecutor/maintenanceCompletion.ts:156-158 | Closes the session |
| `MaintenanceSafety.Admission` | src/ai/toolExecutor/maintenanceCompletion.ts:77-104 | An admitted batch changes no result, stays within 128 keys, and joins exactly the keys it says |
| `MaintenanceSafety.AdmitExact` | src/ai/toolExecutor/maintenanceCompletion.ts:77-104 | A batch is admitted exactly when the keys that need a slot of their own fit with those in use into 128 |
| `MaintenanceSafety.RecoversExact` | src/ai/toolExecutor/maintenanceCompletion.ts:77-104 | A key is recovered exactly when the last command that mentions it says so |
| `MaintenanceSafety.ReserveThenRelease` | src/ai/toolExecutor/maintenanceCompletion.ts:77-120 | Releasing what was just reserved gives back exactly the session before |
| `MaintenanceSafety.ApplyKeepsValid` | src/ai/toolExecutor/maintenanceCompletion.ts:47-158 | Every operation keeps the table's invariant |
| `MaintenanceSafety.RunKeepsValid` | src/ai/toolExecutor/maintenanceCompletion.ts:47-158 | In every run results and slots share no key and number at most 128 a session, and every slot is owned or pending |
| `MaintenanceSafety.ClosedStaysClosed` | src/ai/toolExecutor/maintenanceCompletion.ts:47-158 | Tokens of a closed session never work again: they reserve, release and record nothing |
| `MaintenanceSafety.ResultsStay` | src/ai/toolExecutor/maintenanceCompletion.ts:137-153 | Within a session a recorded result is never replaced or evicted |
| `MaintenanceSafety.HolderCanRecord` | src/ai/toolExecutor/maintenanceCompletion.ts:77-153 | Whatever others do, a command that holds a slot can record its result |
| `MaintenanceSafety.DispatchHandsOver` | src/ai/toolExecutor/maintenanceCompletion.ts:107-120 | Releasing after dispatch hands a slot from its owner to the pending work |
| `MaintenanceSafety.DispatchedCanRecord` | src/ai/toolExecutor/maintenanceCompletion.ts:77-153 | From admission over dispatch on, a command whose slot is not withdrawn can record its result, whatever others do |
| `MaintenanceSafety.AdmittedHold` | src/ai/toolExecutor/maintenanceCompletion.ts:77-104 | Every new command of an admitted batch holds a slot from then on |
| `DiagnosticBudget.SpendsWithin` | src/ai/toolExecutor/diagnosticBudget.ts:3-14 | In size order the shares cost at most the budget, copies counted, and exceed no size |
| `DiagnosticBudget.LevelGuaranteed` | src/ai/toolExecutor/diagnosticBudget.ts:3-14 | Any common cap the budget could pay for is reached by every shown entry |
| `DiagnosticBudget.ShortageSpendsAll` | src/ai/toolExecutor/diagnosticBudget.ts:3-14 | If an entry is cut, less than one unit per copy stays unspent |
| `DiagnosticBudget.SharesAscend` | src/ai/toolExecutor/diagnosticBudget.ts:3-14 | A larger entry never gets less than a smaller one |
| `DiagnosticBudget.FullWhenFits` | src/ai/toolExecutor/diagnosticBudget.ts:3-14 | In size order, when the total fits, an entry gets its full size exactly when one from its place on is shown or the leftover is at least its size |
| `DiagnosticAllocation.AllocateDiagnosticBudgets` | src/ai/toolExecutor/diagnosticBudget.ts:3-14 | The loop writes to each original index the share of its place in size order |
| `DiagnosticAllocation.CostBySize` | src/ai/toolExecutor/diagnosticBudget.ts:3-14 | The cost of any shares is the same in place and in size order |
| `DiagnosticAllocation.AllocationWithinBudget` | src/ai/toolExecutor/diagnosticBudget.ts:3-14 | The result costs at most the budget, copies counted, and exceeds no entry's size |
| `DiagnosticAllocation.AllocationReachesLevel` | src/ai/toolExecutor/diagnosticBudget.ts:3-14 | The water level: any affordable common cap is reached at the original indices |
| `DiagnosticAllocation.FullExactlyWhenFits` | src/ai/toolExecutor/diagnosticBudget.ts:3-14 | Every shown entry gets its full size if and only if the total demand fits |
| `DiagnosticAllocation.EqualPartGuaranteed` | src/ai/toolExecutor/diagnosticBudget.ts:3-14 | Every shown entry gets at least its size or the budget divided by all copies |
| `DiagnosticAllocation.CutMeansSpent` | src/ai/toolExecutor/diagnosticBudget.ts:3-14 | If a shown entry is cut, less than one unit per copy is left over |
| `DiagnosticAllocation.LargerGetsNoLess` | src/ai/toolExecutor/diagnosticBudget.ts:3-14 | A larger shown entry gets no less than a smaller one, wherever they stand |
| `DiagnosticAllocation.UnshownEntryCut` | src/ai/toolExecutor/diagnosticBudget.ts:3-14 | An entry shown zero times is cut although the demand is zero |
| `DiagnosticAllocation.EntryFullExactly` | src/ai/toolExecutor/diagnosticBudget.ts:3-14 | The same at the original indices, for any entry, shown or not |
| `DiagnosticAllocation.AllFullExactly` | src/ai/toolExecutor/diagnosticBudget.ts:3-14 | Every entry gets its full size if and only if the total fits and the entries behind the last shown one fit the leftover |
| `DeployDiagnostic.FitText` | src/ai/toolExecutor/deployDiagnostic.ts:83-97 | The loop returns the text, or the longest front or end that fits with an ellipsis |
| `DeployDiagnostic.FittedMeasure` | src/ai/toolExecutor/deployDiagnostic.ts:83-97 | A fitted text measures at most its limit |
| `DeployDiagnostic.ChoosePrefix` | src/ai/toolExecutor/deployDiagnostic.ts:98-114 | The full message is kept unless it exceeds the limit and there are logs |
| `DeployDiagnostic.SelectLogs` | src/ai/toolExecutor/deployDiagnostic.ts:122-128 | The loop selects the largest number of logs whose minimum cost and omission note fit |
| `DeployDiagnostic.CutTails` | src/ai/toolExecutor/deployDiagnostic.ts:133-134 | Each excerpt is its header and the end of its log within its share |
| `DeployDiagnostic.RenderLogs` | src/ai/toolExecutor/deployDiagnostic.ts:115-135 | The pieces are laid out as specified |
| `DeployDiagnostic.RenderDeployDiagnostic` | src/ai/toolExecutor/deployDiagnostic.ts:74-136 | The output never exceeds the limit, nothing assembled is cut when a log is shown, and without a budget the full message is kept |
| `DeployDiagnostic.SelectedFits` | src/ai/toolExecutor/deployDiagnostic.ts:116-135 | With a log selected, prefix, headers, tails, separators and omission note already fit the limit |
| `DeployDiagnostic.SelectedTails` | src/ai/toolExecutor/deployDiagnostic.ts:122-134 | Every selected log gets its whole text or at least the minimum tail |
| `DeployDiagnostic.UnboundedKeepsFull` | src/ai/toolExecutor/deployDiagnostic.ts:98-115 | Without a budget nothing of the full message is lost |
| `DeployDiagnostic.MeasureTells` | src/ai/toolExecutor/deployDiagnostic.ts:77-82 | Plain text is measured in characters, serialized text by what its characters cost in a JSON string |
| `DeployDiagnostic.FullTells` | src/ai/toolExecutor/deployDiagnostic.ts:98-102 | The complete message holds the lead, the failure with its count, the next step and how to get the logs |
| `DeployDiagnostic.FullIs` | src/ai/toolExecutor/deployDiagnostic.ts:98-102 | With none missing, these four stand one after the other, apart by the gap of the mode |
| `DeployDiagnostic.PrefixTells` | src/ai/toolExecutor/deployDiagnostic.ts:98-114 | The compact form holds the verdict, the start of the reason in at most 96 units and a quarter of the limit, and how to get the logs |
| `DeployDiagnostic.LogsTell` | src/ai/toolExecutor/deployDiagnostic.ts:115-135 | After the prefix each selected service is shown by name with its log or the end of it, and the services left out are counted |
| `SigningMutex.ReachableChained` | src/ai/toolExecutor/batchRunner.ts:32-55 | In every interleaving call k waits for promise k and owns promise k+1, resolved up to the settled calls |
| `SigningMutex.AtMostOneSigns` | src/ai/toolExecutor/batchRunner.ts:32-55 | At most one call signs, and all calls before it are through |
| `SigningMutex.SignsInCallOrder` | src/ai/toolExecutor/batchRunner.ts:32-55 | Signing happens in call order, each call ending before the next begins |
| `SigningMutex.OutcomesKept` | src/ai/toolExecutor/batchRunner.ts:32-55 | A call counts as through or failed exactly as it ended |
| `SigningMutex.FirstUnsettledGoesOn` | src/ai/toolExecutor/batchRunner.ts:32-55 | The first call that is not through can always go on, also after failures, and no other can |
| `SigningMutex.PromiseLock.WithSign` | src/ai/toolExecutor/batchRunner.ts:32-55 | A request waits for the promise of the call before it and puts its own in its place, keeping the chain |
| `SigningMutex.PromiseLock.Start` | src/ai/toolExecutor/batchRunner.ts:32-55 | When a call starts signing, every call before it is through and no other one signs |
| `SigningMutex.PromiseLock.Finish` | src/ai/toolExecutor/batchRunner.ts:32-55 | When a call is through, successful or not, none signs and the next one may start |
| `BatchRunner.StepKeeps` | src/ai/toolExecutor/batchRunner.ts:190-293 | Every step keeps the account of entries and the bound, and starts nothing after an abort |
| `BatchRunner.RunsBounded` | src/ai/toolExecutor/batchRunner.ts:190-293 | Under any completion order at most max(1, limit) entries run, and the started ones are a prefix |
| `BatchRunner.NoneStartsAfterAbort` | src/ai/toolExecutor/batchRunner.ts:190-293 | No entry is started once the abort has happened |
| `BatchRunner.EveryEntryReportedOnce` | src/ai/toolExecutor/batchRunner.ts:190-293 | At the end every index is in exactly one of the four lists, once, and the ones never started are cancelled |
| `BatchRunner.SettledAsListed` | src/ai/toolExecutor/batchRunner.ts:190-293 | Each list holds exactly the entries that settled its way, a thrown error counting as failed, and the cancelled one those never started as well |
| `BatchRunner.NeverStuck` | src/ai/toolExecutor/batchRunner.ts:190-293 | Until it is done, the runner or one of its entries can go on |
| `BatchRunner.RunEnds` | src/ai/toolExecutor/batchRunner.ts:190-293 | Every run ends: at most three moves for each entry and two more, abort signals aside, and a run that has used them up is done |
| `BatchRunner.BatchRun.SignalAbort` | src/ai/toolExecutor/batchRunner.ts:190-293 | An abort is remembered and changes nothing else |
| `BatchRunner.BatchRun.Turn` | src/ai/toolExecutor/batchRunner.ts:190-293 | One turn of the loop: stop, or start the next entry and wait when the limit is reached |
| `BatchRunner.BatchRun.EntrySettled` | src/ai/toolExecutor/batchRunner.ts:190-293 | A settled entry leaves the active ones and is put in the list of its verdict |
| `BatchRunner.BatchRun.RaceWon` | src/ai/toolExecutor/batchRunner.ts:190-293 | The loop goes on when one of the raced entries has settled |
| `BatchRunner.BatchRun.Close` | src/ai/toolExecutor/batchRunner.ts:190-293 | Entries never started are reported as cancelled |
| `BatchRunner.OverallPhaseMeaning` | src/ai/toolExecutor/batchRunner.ts:71-87 | The summary says ready or unconfirmed only when no entry is still working, ready never beside an unconfirmed one, and depends only on which phases occur |
| `BatchRunner.OverallPhaseWorking` | src/ai/toolExecutor/batchRunner.ts:71-87 | While an entry works, the summary is the first of the intermediate phases that occurs, or the last of them when none does |
| `AppStatus.DeriveSettles` | src/registry/appRegistry.ts:111-129 | Deriving a derived status changes nothing |
| `AppStatus.StatusTells` | src/registry/appRegistry.ts:111-129 | When an app counts as failed, stopped, running or deploying, each told by itself |
| `AppStatus.TicksRespectProvider` | src/registry/appRegistry.ts:111-129 | No run of chain observations turns a provider's failure, or a missing verdict, into a running app |
| `AppStatus.LastTickDecides` | src/registry/appRegistry.ts:111-129 | With a provider observation only the last chain observation counts |
| `AppStatus.LegacyFailureForgotten` | src/registry/appRegistry.ts:111-129 | Without one the order of chain observations matters |
| `AppStatus.LegacyFailureSurvives` | src/registry/appRegistry.ts:111-129 | Without a provider observation an app is failed after chain observations exactly when it was before and the lease was absent in all of them |
| `AppStatus.LegacyLastTickDecides` | src/registry/appRegistry.ts:111-129 | Without one the last chain observation alone decides exactly when there is no old failure, it sees the lease, or the lease was absent throughout |
| `RegistryImport.ImportKeepsConsistent` | src/registry/appRegistry.ts:409-459 | Import keeps the registry consistent, leaves other entries alone and adds every missing lease |
| `RegistryImport.ImportedNamesValid` | src/registry/appRegistry.ts:409-459 | Every imported app gets a name of the accepted shape |
| `RegistryImport.ImportIdempotent` | src/registry/appRegistry.ts:409-459 | Importing the same leases again changes nothing |
| `RegistryImport.ImportOrderIndependent` | src/registry/appRegistry.ts:409-459 | For distinct lease ids the result does not depend on the order of the input |
| `RegistryImport.PickName` | src/registry/appRegistry.ts:425-431 | The counting loop ends and finds the first free name |
| `RegistryImport.DiscoverAppsFromChain` | src/registry/appRegistry.ts:409-459 | The loop computes the import, tells whether anything changed, and returns the imported apps on allowed providers |
| `RegistryImport.ImportShows` | src/registry/appRegistry.ts:419-456 | An imported entry shows what the chain said of its lease, under the fallback name or its first free numbered form, and entries are imported in ascending order of lease ids |
| `AppRegistry.ApplyKeepsConsistent` | src/registry/appRegistry.ts:529-766 | Every writer keeps lease ids distinct and every stored status derived from its own entry |
| `AppRegistry.RunKeepsConsistent` | src/registry/appRegistry.ts:529-766 | So does every run of writers |
| `AppRegistry.TicksKeepVerdicts` | src/registry/appRegistry.ts:689-729 | Over runs of chain ticks an entry keeps its place and all but chain state and status; a failure stays, and no unconfirmed app starts running |
| `AppRegistry.FirstTickWins` | src/registry/appRegistry.ts:689-729 | Of two ticks compared with the same snapshot, the first to change an entry's chain state decides the entry, and the other the rest |
| `AppRegistry.TickIdempotent` | src/registry/appRegistry.ts:689-729 | The same tick twice is the tick once |
| `AppRegistry.NamesStayDistinct` | src/registry/appRegistry.ts:364-392 | With accepted names only, no two entries ever share a name |
| `AppRegistry.NameAcceptedTells` | src/registry/appRegistry.ts:364-392 | A name is accepted when it is well shaped and no other lease deploys or runs an app under it |
| `AppRegistry.UpdateTells` | src/registry/appRegistry.ts:630-663 | An update gives the fields it names their values, derives the status from them, and touches no other entry |
| `AppRegistry.AddTells` | src/registry/appRegistry.ts:529-547 | An addition puts its entry last, patched onto what was known of the lease |
| `AppRegistry.AddLeaves` | src/registry/appRegistry.ts:529-547 | It takes out exactly the finished entries under its name, besides the one of its lease |
| `AppRegistry.AdditionKeepsOrder` | src/registry/appRegistry.ts:529-547 | The entries it leaves keep their order |
| `AppRegistry.RemovalKeepsOrder` | src/registry/appRegistry.ts:666-674 | So do those a removal leaves |
| `AppRegistry.TickTells` | src/registry/appRegistry.ts:688-727 | A chain tick writes the state seen and the status that follows, unless the entry is newer than the snapshot |
| `AppRegistry.DomainTickTells` | src/registry/appRegistry.ts:741-766 | A domain tick writes the domains seen exactly when the local ones are those it started from |
| `RegistryWriters.WalletRegistry.AddApp` | src/registry/appRegistry.ts:529-547 | Adds or replaces one entry, saves and notifies once |
| `RegistryWriters.WalletRegistry.UpdateApp` | src/registry/appRegistry.ts:573-664 | Saves exactly when the entry changed or was given a connection that is not structurally the same, and notifies exactly when subscribers see it |
| `RegistryWriters.WalletRegistry.RemoveApp` | src/registry/appRegistry.ts:667-674 | Removes exactly the entry of the lease, saving and notifying only if there was one |
| `RegistryWriters.WalletRegistry.ReconcileWithChain` | src/registry/appRegistry.ts:689-729 | Writes the observed chain states, saves only a change and notifies only of a changed status |
| `RegistryWriters.WalletRegistry.ReconcileCustomDomains` | src/registry/appRegistry.ts:741-766 | Takes over observed domains unless the local value changed meanwhile |
| `RegistryWriters.WalletRegistry.DiscoverApps` | src/registry/appRegistry.ts:409-459 | Imports, saving and notifying only a change, and returns the visible imports |
| `RegistryWriters.SameConnectionTells` | src/registry/appRegistry.ts:573-586 | Two connections are the same when both are missing or the schema accepts both in one form |
| `RegistryStorage.NormalSettles` | src/registry/appRegistry.ts:306-345 | Normalising a normalised list changes nothing |
| `RegistryStorage.NormalTells` | src/registry/appRegistry.ts:306-345 | Normalising keeps exactly the normal forms of the entries that validate, in order |
| `RegistryStorage.LoadTells` | src/registry/appRegistry.ts:306-345 | What a working read returns and what it cleans up, for a missing, a corrupt and a partly invalid list |
| `RegistryStorage.StillHolds` | src/registry/appRegistry.ts:283-356 | Reads, failures and other wallets' writes keep the last saved list |
| `RegistryStorage.ReadsReturnLastSave` | src/registry/appRegistry.ts:283-356 | Whichever accesses fail, a read returns the list this tab saved last, up to normalisation |
| `RegistryStorage.UnsavedSurvives` | src/registry/appRegistry.ts:283-304 | No write or event of another tab discards a list still unsaved here |
| `RegistryStorage.LateEvent` | src/registry/appRegistry.ts:283-345 | After a late event a failing read still returns the saved list exactly when that list is unsaved |
| `RegistryStorage.RegistryCache.SaveApps` | src/registry/appRegistry.ts:347-356 | Keeps the list in memory, marks it unsaved exactly when the write failed, and from then on it is on record as this tab's list |
| `RegistryStorage.RegistryCache.LoadApps` | src/registry/appRegistry.ts:306-345 | Reads memory while unsaved or when storage fails, and otherwise what storage holds, cleaned up; a list on record is what is read, up to normalisation |
| `RegistryStorage.RegistryCache.HandleStorageEvent` | src/registry/appRegistry.ts:281-304 | Drops the memory copy of the wallet the key belongs to unless it is unsaved, and notifies exactly its subscribers of a visible change |
| `RegistryAccess.AddKeepsExactly` | src/registry/appRegistry.ts:306-547 | An addition keeps the entries of all other leases exactly when its read worked, the list was unsaved, or memory holds them all |
| `RegistryAccess.AddAfterSaveKeeps` | src/registry/appRegistry.ts:306-547 | Once this tab has saved the list, an addition keeps the others whichever accesses fail |
| `RegistryAccess.FailedReadOverwrites` | src/registry/appRegistry.ts:306-547 | A failed read without a memory copy makes a good write store the added entry alone |
| `RegistryAccess.DiscoverKeepsExactly` | src/registry/appRegistry.ts:306-459 | A discovery whose read worked, or whose list was unsaved, keeps all entries but the payloadless; otherwise it keeps the observed ones exactly when it has nothing to save or memory holds them all |
| `RegistryAccess.FailedReadReimports` | src/registry/appRegistry.ts:306-459 | After a failed read without a memory copy a discovery stores freshly imported, unconfirmed entries alone |
| `RegistryAccess.RunKeepsConsistentOverStorage` | src/registry/appRegistry.ts:283-766 | Whichever reads and writes fail and whatever other tabs store, every list kept or read has distinct leases and derived statuses |
| `WalletIdentity.CreateSettles` | src/utils/walletIdentity.ts:7-20 | A created identity passes the check on stored histories: creating it again changes nothing |
| `WalletIdentity.CreateExact` | src/utils/walletIdentity.ts:7-20 | There is an identity when both parts are visible, and two are one exactly when chain and address read the same in any case |
| `WalletIdentity.KeyInjective` | src/utils/walletIdentity.ts:31-33 | Two identities share a storage key only if they are the same |
| `WalletSafety.StepCounts` | src/stores/aiStore.ts:331-407 | Only a wallet change touches the context, generations and epoch never decrease, and each replacement of an instance is counted |
| `WalletSafety.AuthorizationPins` | src/stores/authorization.ts:29-50 | A captured authorization is current after a run exactly when address and chain are the same again and neither instance was replaced at any step in between |
| `WalletSafety.EpochPins` | src/stores/aiStore.ts:331-407 | While the epoch stands, no part of the wallet context ever differed |
| `WalletSafety.AddressMayReturn` | src/stores/authorization.ts:41-50 | An authorization is current again after another address came and went |
| `WalletSafety.CaptureExact` | src/stores/authorization.ts:29-50 | There is something to capture exactly with a client and an address, and it is current |
| `WalletSafety.ClosedSettles` | src/stores/aiStore.ts:172-244 | A transcript closed by a wallet change keeps its owner and holds no streaming, waiting or in-flight row |
| `WalletSafety.ClosureIsTruthful` | src/stores/aiStore.ts:172-244 | An in-flight row is told it may have been submitted, a waiting one that it was not, untouched rows stay, and rows are lost only to the length limit |
| `WalletSafety.LoadedIsSettled` | src/stores/aiActions/persistence.ts:136-211 | A transcript loaded from storage holds no open row |
| `WalletSafety.StepKeepsSound` | src/stores/aiStore.ts:283-598 | Every action keeps the invariant of transcripts, card and storage |
| `WalletSafety.RunKeepsSound` | src/stores/aiStore.ts:331-407 | In every reachable state the visible transcript holds rows of the selected identity only, hidden ones only their own and nothing open, and an open card is authorized for the present wallet |
| `WalletSafety.CardStarts` | src/stores/aiActions/confirmAction.ts:352-455 | Confirming an open card starts its transaction, with the client and signer its authorization was captured under and never replaced since; confirming an edited batch only keeps the card open |
| `WalletSafety.ReturningRestores` | src/stores/aiStore.ts:358-406 | Leaving an identity and returning shows the closed transcript exactly, plus only the outcomes of its own transactions that settled meanwhile |
| `WalletSafety.SavedLoads` | src/stores/aiActions/persistence.ts:136-268 | Saving a closed transcript and loading it gives every row back in order, cards replaced by a note |
| `WalletSafety.LeavingIsDurable` | src/stores/aiStore.ts:358-388 | Leaving saves the closure it made: after the session copy is dropped, returning shows every closed row from storage |
| `WalletSafety.QuietLeaving` | src/stores/aiStore.ts:358-376 | Leaving a transcript with nothing to close writes nothing |
| `WalletNotices.AskTells` | src/stores/aiActions/batchDeploy.ts:125-145 | An opened card says its text in its row and waits there |
| `WalletNotices.CancelTells` | src/stores/aiActions/confirmAction.ts:672-688 | Cancelling closes the card and says so in its row |
| `WalletNotices.ConfirmTells` | src/stores/aiActions/confirmAction.ts:352-455 | Confirming tells a missing wallet and a changed authorization apart, starts the transaction of an authorized card, and keeps an edited one |
| `WalletNotices.ResolveTells` | src/stores/aiActions/confirmAction.ts:82-113 | The outcome stands in the row of the transaction, which is no longer in flight |
| `WalletNotices.ReplanTells` | src/stores/aiActions/confirmAction.ts:213-345 | A batch planned again asks again in the same row |
| `WalletNotices.SendTells` | src/stores/aiActions/sendMessage.ts:33-122 | A request supersedes the open card and ends the transcript with the user's words and an empty reply that streams |
| `WalletNotices.ClosureNotice` | src/stores/aiStore.ts:172-244 | A closure adds a notice exactly when work goes on that no row would tell of |
| `WalletNotices.ClosingTells` | src/stores/aiStore.ts:172-244 | How the card's row, the transaction's row and streaming rows are closed |
| `WalletNotices.DestroyTells` | src/stores/aiStore.ts:564-597 | At teardown waiting rows expire, running ones are told so, and other rows keep their words |
| `WalletNotices.LoadTells` | src/stores/aiActions/persistence.ts:136-211 | A loaded row says whether its transaction, confirmation or reply was cut short |
| `WalletNotices.StaleOutcomeTold` | src/stores/aiActions/confirmAction.ts:82-113 | A late outcome is written into the transcript it belongs to, visible, cached or stored, and into no other |
| `WalletNotices.SavingTells` | src/stores/aiActions/persistence.ts:212-268 | A transcript without a row to keep clears what was stored, and other transcripts are left alone |
| `WalletNotices.ForgettingTells` | src/stores/aiActions/persistence.ts:308-323 | Changes of another tab drop session copies, but never the visible transcript |
| `WalletStore.AIStore.SetWalletContext` | src/stores/aiStore.ts:331-407 | A change invalidates everything authorized or going on, puts the closed transcript of a left identity away, and shows no other identity's row |
| `WalletStore.AIStore.AddMessage` | src/stores/aiStore.ts:283-285 | The row becomes the last one and the rows before it are the newest of those that were there, at most 200 in all |
| `WalletStore.AIStore.ClearHistory` | src/stores/aiStore.ts:470-505 | Unless a transaction is running, nothing of the visible transcript is left in session or storage, and no other transcript is touched |
| `WalletStore.AIStore.HandleStorageCleared` | src/stores/aiActions/persistence.ts:308-317 | Drops every session copy but that of the visible transcript |
| `WalletStore.AIStore.UpdateOriginatingTranscript` | src/stores/aiActions/confirmAction.ts:82-113 | Settles a row in the transcript it belongs to, visible or hidden |
| `MaintenanceOutcome.CaptureExact` | src/ai/toolExecutor/maintenanceOutcome.ts:21-33 | A baseline is captured exactly from unambiguous history without a deploying release, and lists its versions in ascending order |
| `MaintenanceOutcome.CaptureFaults` | src/ai/toolExecutor/maintenanceOutcome.ts:21-33 | History is ambiguous exactly with a repeated or unsafe version, and a command in progress is a deploying release |
| `MaintenanceOutcome.ReachableNumbered` | src/ai/toolExecutor/maintenanceOutcome.ts:35-45 | The assumed provider keeps the newest rows, numbered one by one from 1 |
| `MaintenanceOutcome.NewRows` | src/ai/toolExecutor/maintenanceOutcome.ts:62-66 | The rows that look new are exactly those created since the baseline |
| `MaintenanceOutcome.VerdictExact` | src/ai/toolExecutor/maintenanceOutcome.ts:21-90 | A verdict is reached exactly when one release was created and identified, and it is the judgement of that release; no creation or several stay unconfirmed |
| `MaintenanceOutcome.DoubtsAreFounded` | src/ai/toolExecutor/maintenanceOutcome.ts:47-90 | Every reason for an unconfirmed verdict holds of the history, and the runtime is ready exactly when the provider says so |
| `VisibilityPolling.NeverOverlaps` | src/hooks/useVisibilityPolling.ts:67-164 | For any sequence of events at most one callback runs |
| `VisibilityPolling.KeepsPace` | src/hooks/useVisibilityPolling.ts:67-164 | With atomic visibility changes, polling that goes on has exactly one of callback in flight or live timer, and hidden or ended polling has no timer |
| `VisibilityPolling.KeepsPaceExactly` | src/hooks/useVisibilityPolling.ts:67-164 | A run of any events keeps the pace throughout if and only if every announcement and every silent change in it is harmless where it happens |
| `VisibilityPolling.RepeatedEventDoubles` | src/hooks/useVisibilityPolling.ts:127-142 | Without that, a repeated announcement leaves two timers live |
| `VisibilityPolling.BackoffDoubles` | src/hooks/useVisibilityPolling.ts:86-94 | A failure doubles the delay until it reaches interval times the cap, and no backed-off delay exceeds that |
| `VisibilityPolling.CapHolds` | src/hooks/useVisibilityPolling.ts:86-94 | No delay at all exceeds interval times the cap if and only if the cap is at least one |
| `VisibilityPolling.DelaysBounded` | src/hooks/useVisibilityPolling.ts:67-164 | However the options change, no timer is set for longer than the largest cap allows |
| `VisibilityPolling.MountTells` | src/hooks/useVisibilityPolling.ts:146-154 | A hook starts with its callback or its timer, and does nothing in a hidden document |
| `VisibilityPolling.RoundsTell` | src/hooks/useVisibilityPolling.ts:84-125 | However callbacks settle, the next is due after the plain interval when the last succeeded, else after twice the last wait up to the cap |
| `VisibilityPolling.ChangedOptionsCount` | src/hooks/useVisibilityPolling.ts:74-125 | Changed options are read by the next round |
| `VisibilityPolling.Poller.EndTick` | src/hooks/useVisibilityPolling.ts:107-125 | After a callback settles, polling that goes on has exactly one timer, with the delay of the moment |
| `VisibilityPolling.Poller.OnTimer` | src/hooks/useVisibilityPolling.ts:96-101 | The timer that fires was the only one, and its tick starts the callback |
| `VisibilityPolling.Poller.VisibilityChanges` | src/hooks/useVisibilityPolling.ts:127-142 | A change of visibility keeps the pace: hiding leaves no timer, showing resets the backoff and has a callback running |
| `VisibilityPolling.Poller.CleanUp` | src/hooks/useVisibilityPolling.ts:156-163 | After unmounting no timer is left |
| `LeasePagination.GetLeasesByTenant` | src/api/billing.ts:105-152 | Against any server over finitely many leases the loop stops, with the result of the first answer that ends the listing |
| `LeasePagination.TakePage` | src/api/billing.ts:133-141 | The inner loop reports a repetition exactly when the leases so far and the page are not distinct |
| `LeasePagination.ReturnedListIsWhole` | src/api/billing.ts:105-152 | A returned list has no duplicates, joins all answers, which agreed on the total, and matches a positive total |
| `LeasePagination.FailureIsTrue` | src/api/billing.ts:105-152 | A listing that fails has the cause its error names, in its last answer |
| `LeasePagination.HonestListIsReturned` | src/api/billing.ts:105-152 | Against an honest server with any page caps, with or without totals, the full list comes back in order |
| `LeasePagination.HonestListingEnds` | src/api/billing.ts:105-152 | And against such a server the listing does end |
| `LeasePagination.HonestListingStops` | src/api/billing.ts:142-149 | A server that reports its total is not asked again once all leases are there |

## Left out

- React components, hooks that only wire state, toasts, prompts, help text and card layout: user interface or static data.
- SDK calls, wallet signing, network requests and custom-domain probes: parameters of the planner's environment, answers of the lease server, or steps of the environment.
- SHA-256, UTF-8, JSON, schema validation, `encodeURIComponent`, lower-casing and collation: parameters with the laws a proof needs (idempotence, injectivity, a total order), stated where they are required.
- Characters: strings are sequences of Unicode characters, not of UTF-16 units; the 32-character name limit and the measuring of text are unaffected on the texts they accept.
- Wording of notices and errors: named where a branch chooses it, not spelled out.
- Prices, credits, intervals and caps are real numbers; floating-point rounding and number formatting are not modelled.
- BatchPlanner.PlanBatchDeploy: does not model interruption by an abort signal or by a changed authorization in the middle of planning, a catalogue or provider list that cannot be fetched, or the confirmation text, because none of them yields a plan.
- BatchConsent.GateExactly: says nothing of the comparison when the hash collides on the two plans, and assumes that text handling and hashing do not change between approval and execution.
- Plan integrity checking (`verifyBatchDeployPlanIntegrity`) is a field-by-field shape check before the same hash comparison.
- ChatStream.StreamChat: does not model the HTTP request, its timeouts or the decoder's handling of split bytes; chunks arrive already parsed.
- ChatStream.StreamText: takes the random id of a call that comes without one as given with its event, and stops reading only after the events are computed, which nothing emitted depends on.
- `toChatApiMessages` and `serializeMessagesForApi`: rewriting of rows for the model, apart from compaction.
- MaintenanceTable.CompletionTable.ReserveCompletions: takes provider address and account already in their normal form; the key text is not modelled.
- `logPreviewTail` and `previewServiceLogs`: which part of a raw log is kept before a diagnostic is rendered.
- BatchRunner.BatchRun.EntrySettled: does not model progress rows and callbacks; the callbacks are assumed not to throw.
- BatchRunner.BatchRun.Close: does not model the progress rows written for the cancelled entries.
- `summarizeBatchResult`: wording of the batch summary, whose budgets come from the modelled allocator.
- AppRegistry.RunKeepsConsistent: starts each writer from the list the one before left; `RegistryAccess` puts reads and writes that may fail in between. Seven plain fields of an entry that no modelled rule reads are kept together as its details.
- `findApp`, `getApp`, manifest sanitising and environment blocklists: lookups by table or by text.
- RegistryStorage.ReadsReturnLastSave: takes the parsed value of each stored entry as given, for a schema to accept or reject.
- RegistryStorage.RegistryCache.HandleStorageEvent: takes as given whether the two snapshots of an event show the same.
- SkuTiers.ResolveSkuTiers: does not model the billing unit copied into a tier, which nothing modelled reads, nor the warnings it logs.
- WalletSafety.RunKeepsSound: models the persistence subscription as a write that may happen at any time, which covers every order in which it does; rows written by other tabs are assumed to be rows of the identity they are stored under, and message ids to be unique.
- WalletSafety.ReturningRestores: speaks of session copies; after a storage event for the identity, a cleared storage or a teardown the transcript is loaded from storage instead.
- WalletSafety.SavedLoads: keeps error texts whole, while src/stores/aiActions/persistence.ts:260 bounds the length of a stored one; it therefore speaks of rows with short errors. The tool calls that saving drops are no part of a row.
- WalletSafety.LeavingIsDurable: speaks of rows with short errors, for the same reason.
- WalletStore.AIStore.AddMessage: adds rows that are not yet awaiting or in flight; src/stores/aiActions/stopApp.ts:75-98 adds a row together with its card, which is an addition followed by `Ask` here.
- Each transcript row carries its owner, which is not in the source; it only records under which identity the row was added.
- Rows of a transcript keep only what closing, persisting and restoring them reads; thinking text, tool calls, timestamps and recovery advice are not modelled.
- The stored-history version check for newer builds is part of whether a write succeeds.
- The tool-result cache of the chat store: a lookup table with a lifetime, which no other modelled state depends on.
- MaintenanceOutcome.VerdictExact: versions that are not integers are refused by the source just as negative ones are, so the model has integers only; failure texts are left out.
- Durable maintenance records, their execution and the provisioning status reader.
- VisibilityPolling.KeepsPace: speaks of one lifecycle; a changed interval or restart key begins another one.
- LeasePagination.GetLeasesByTenant: a server that invents new lease ids for ever would be asked for ever, as in the source.
