# Verification of AgentHost

AgentHost runs autonomous agents under durable claims, hard spending ceilings and
crash-safe publication. This project models those protocols, and a few exact algorithms
around them, and proves what they promise. `dafny verify dfyconfig.toml` checks all of it.

The parts, each with its files:

- **Claims** (`ClaimRules`, `ClaimRuns`, `ClaimLaws`, `ClaimStore`). One row per task in a shared table, and
  handles held by any number of store instances, which come and go. Every public operation is
  one function on values; the class performs it statement by statement; the theorems range over
  all runs of all instances, and `ClaimLaws` says what each operation means at the gate checks.
- **Spending** (`BudgetRules`, `BudgetRuns`, `BudgetLaws`, `BudgetLedger`; `BudgetStateRules`,
  `BudgetStateProofs`, `BudgetStateLaws`, `BudgetState`; `SpendRuns`, `SpendHistory`). Money is counted in units
  of 1e-8 USD, so prices and ceilings are integers. The in-memory ledger is shared by
  concurrent runs; the durable file is parsed, pruned and written back; `SpendRuns` wires the
  two by the write-ahead hooks and lets the process crash between any two steps, and
  `SpendHistory` says when the file gives up the spend of a day.
- **Relay** (`RelayBudgetRules`, `RelayBudget`, `RelayRuns`, `RelayLaws`, `InferenceRelay`,
  `RelayStream`, `RelayStreamLaws`, `RelaySpend`). Request handlers, client disconnects and a global cancel interleave at every
  await, over the budget adapter and its ledger run. `InferenceRelay` performs the steps on
  request objects; `RelayStream` is the usage reader, and `RelaySpend` runs the relay over the
  durable ledger.
- **Publication** (`GraphifyLeaseRules`, `GraphifyLeases`, `GraphifyLeaseRuns`;
  `GraphifyStoreRules`, `GraphifyStore`, `GraphifyPublish`, `GraphifyStoreRuns`;
  `GraphifyWorld` joins leases and runs under their one root). Directories are moved by
  renames; each file-system step takes effect or throws, and a ghost history keeps the states
  between steps, any of which a crash may leave.
- **Recovery** (`RecoveryRegistry`, `RecoveryOrder`, `RecoveryLaws`, `AutonomyRecovery`). Live
  workers, their exits, proofs and completions, as an asynchronous state machine;
  `AutonomyRecovery` performs its steps on worker objects, and `RecoveryLaws` says when a
  worker is given up and which ones are let go.
- **Algorithms**: the duplicate-name scan over raw JSON (`JsonText`, `JsonLaws`, `JsonScan`,
  `JsonScanProofs`; section 4 of RFC 8259), the interval list (`CoveredIntervals`), robots.txt
  (`RobotsMatch`, `RobotsRules`, `RobotsLine`, `RobotsParse`, `RobotsLaws`; section 2.2.3 of
  RFC 9309), redaction (`Redaction`, `SecretForms`, `SecretFormLaws`, `RedactionOrder`,
  `RedactionExact`), cron (`CronFields`, `CronFieldLaws`, `CronCalendar`, `CronSchedule`,
  `CronLaws`, `CronHorizon`) and the descriptor shuffle (`DescriptorShuffle`). `Prelude`,
  `Sums`, `BudgetDays`, `Decimals`, `TextLines`, `TrimLaws` and `TextSearch` are shared
  vocabulary.

The files named `Laws` say what an operation comes to for its callers, in terms of other
operations and of plain numbers and texts: how long a claim is current, what a reservation
costs, when an operation succeeds, which strings are read and as what.

Assumptions: claim refs, tokens and handles are fresh, and hashing is injective. A commit is
atomic with the in-memory update, although container/claim-store.js:846 and :893 bump the
handle inside the transaction callback, before the commit at :285. A budget hook takes its
whole effect or throws with none. The provider charges a started request no more than its worst
case and no more than the usage it reports. Provider usage is inside the reserved bounds where
a ceiling is claimed. A free task is not reserved in the recovery registry while a completion
for it is outstanding; `RecoveryOrder.LaunchIsSafeIffNothingOutstanding` shows that exactly
this is needed.

Where code and comment differ, the code is modelled. The cron comment says that the horizon
reaches every next leap day (container/cron-lib.js:96-100); the model says from which dates it
does not, such as those after the leap day of 2096. From a start in the years 0 to 99 the code
scans the years 1900 to 1999 (container/cron-lib.js:113), and the model says that exactly then
what it finds need not be the first match. The redaction of a secret that can overlap the
marker is not complete; the model says exactly when one replacement is, when the whole
redaction of one secret is, and when that of a list is.

## Model

| member | source | states |
|---|---|---|
| ClaimStores.ClaimStore.TryAcquire | container/claim-store.js:451-524 | an acquire leaves exactly the table, handles and answer of the acquire rule: only a free task is claimed, under a fresh ref, and every refusal changes nothing |
| ClaimStores.ClaimStore.TryAcquireExternal | container/claim-store.js:527-589 | the same for an external claim, with the supervisor's identity; receipts are not consulted |
| ClaimStores.ClaimStore.ReattachExternal | container/claim-store.js:701-743 | a reattach by the matching supervisor bumps the version and issues a new holder; every mismatch, expiry or recovery state is refused unchanged |
| ClaimStores.ClaimStore.BeginExternalRecovery | container/claim-store.js:766-812 | an external claim enters recovery only when expired or already recovering, under a new version and a recovery handle |
| ClaimStores.ClaimStore.Transition | container/claim-store.js:815-856 | the current unexpired holder moves the state along the one allowed path, and the handle follows the row |
| ClaimStores.ClaimStore.Renew | container/claim-store.js:859-907 | the current unexpired holder moves the expiry under a new version, as the renewal rule says; what the rule promises is ClaimLaws.RenewalLasts and ClaimLaws.RenewIffCurrent |
| ClaimStores.ClaimStore.Release | container/claim-store.js:910-947 | the current unexpired holder of a live claim removes the row |
| ClaimStores.ClaimStore.ReleaseExternalTerminal | container/claim-store.js:950-1010 | an external holder ends its claim with exactly one receipt |
| ClaimStores.ClaimStore.ReapExpiredAtBoot | container/claim-store.js:1013-1038 | a boot reap removes exactly the in-box claims acquired before the boot, live or recovering, whatever their expiry |
| ClaimStores.ClaimStore.BeginRecovery | container/claim-store.js:1041-1078 | an expired claim is quarantined under a new version, for its own holder |
| ClaimStores.ClaimStore.RecordRecovery | container/claim-store.js:1081-1128 | recovery facts are written once each, under the recovery handle, and never taken back |
| ClaimStores.ClaimStore.ReleaseRecovered | container/claim-store.js:1131-1165 | a recovered claim is removed only with kill, reap and bind revocation recorded |
| ClaimStores.ClaimStore.ReleaseExternalRecovered | container/claim-store.js:1168-1209 | the same for an external claim, leaving a receipt |
| ClaimStores.ClaimStore.Reclaim | container/claim-store.js:1212-1290 | a reclaim replaces a fully proven recovery by a fresh claim |
| ClaimStores.ClaimStore.IsCurrent | container/claim-store.js:431-448 | the gate check says yes exactly for the holder that matches the row, in the asked state, before expiry |
| ClaimStores.ClaimStore.IsExternalCurrent | container/claim-store.js:746-760 | the gate check of an external supervisor says yes exactly for its own claim, held, matching the row and unexpired |
| ClaimStores.ClaimStore.InspectExternalReceipt | container/claim-store.js:625-660 | the receipt of an ended external claim is found by its own supervisor and refused to any other |
| ClaimRuns.EveryEffect | container/claim-store.js:451-1290 | each of the public operations has one of nine effects on table and handles, under the guards that its code checks |
| ClaimRuns.ReachableInv | container/claim-store.js:330-359 | any run of any number of store instances keeps refs unique, handles behind their rows, and at most one handle current |
| ClaimRuns.AtMostOneCurrentHandle | container/claim-store.js:330-359 | in every reachable state at most one handle per task, holder or recovery, in any instance, matches the row |
| ClaimRuns.Supersedes | container/claim-store.js:701-743 | a successful acquire, reattach, recovery start or reclaim spends every handle issued before for the task |
| ClaimRuns.SpentForever | container/claim-store.js:330-359 | a spent handle stays spent however the run goes on |
| ClaimRuns.SpentHandleFails | container/claim-store.js:815-1290 | every operation presented with a spent handle is refused and changes nothing, and both gate checks say no |
| ClaimRuns.FactsWereRecorded | container/claim-store.js:1081-1126 | a recovery fact in a row was put there earlier in the run, for that row's own claim ref, by a current recovery handle |
| ClaimRuns.LaunchesSeparated | container/claim-store.js:451-589 | between two launch permissions for one task lies a step that takes the first claim away: a release by its current unexpired holder, a recovery with kill, reap and bind revocation recorded for that claim, or a boot reap of an in-box claim from before the boot |
| ClaimRuns.ClaimProgress | container/claim-store.js:815-985 | within one claim ref the state only moves forward and recovery facts are write-once |
| ClaimRuns.LiveClaimsAreClean | container/claim-store.js:608-623 | a live row has no recovery fact, and no receipt exists for the ref of any row |
| ClaimRuns.ExpiredOnlyRecovers | container/claim-store.js:1041-1273 | with a clock that does not go back, an expired claim is still there, neither renewed nor advanced, unless a proven recovery or a boot reap has taken it away |
| ClaimLaws.GrantLasts | container/claim-store.js:451-524 | after a granted acquire, external acquire or reclaim the gate says yes for the new holder, in the first state and in no other, at exactly the times before the time of asking plus the time asked for |
| ClaimLaws.RenewalLasts | container/claim-store.js:859-907 | after a renewal the gate says yes for the holder, in the unchanged state, at exactly the times before the time of renewing plus the time asked for |
| ClaimLaws.TransitionIsSeen | container/claim-store.js:815-856 | after a transition the gate says yes for the new state and no for the old one, up to the same expiry as before |
| ClaimLaws.ReattachLasts | container/claim-store.js:701-743 | a reattached holder is current for what was left of the claim and no longer, and for its own supervisor only |
| ClaimLaws.RenewIffCurrent | container/claim-store.js:859-907 | a renewal is done exactly for a holder that the gate calls current and a valid time to live |
| ClaimLaws.TransitionIffCurrent | container/claim-store.js:815-856 | a transition is done exactly for a holder that the gate calls current in the state it leaves, along the three allowed steps |
| ClaimLaws.AcquireIffFree | container/claim-store.js:451-589 | an acquire is granted exactly to a valid request for a free task, external or not |
| ClaimLaws.ReleasedIsFree | container/claim-store.js:910-947 | after a release exactly the released task and those that were free can be acquired |
| ClaimLaws.BeginRecoveryIffExpired | container/claim-store.js:1041-1078 | recovery begins exactly for an owning holder that the gate no longer calls current |
| ClaimLaws.RecordedDoneIffReleasable | container/claim-store.js:1081-1165 | recording facts answers Done exactly when the recovery can then be released or reclaimed, and ProofIncomplete otherwise |
| ClaimLaws.ThreeFactsAreEnough | container/claim-store.js:1081-1128 | the three facts, recorded in one call or in three in any order, complete the recovery |
| ClaimLaws.MissingFactIsNotEnough | container/claim-store.js:1131-1290 | while one fact is missing nothing releases or reclaims the task |
| ClaimLaws.TerminalReceiptReads | container/claim-store.js:950-1010 | the receipt left by ending an external claim reads back with its status and time for that supervisor, and as a mismatch for any other |
| ClaimLaws.RecoveredReceiptReads | container/claim-store.js:1168-1209 | so does the receipt left by ending a recovered external claim |
| ClaimLaws.TerminalReleaseIffCurrent | container/claim-store.js:950-1010 | an external claim is ended exactly by its current holder, with a terminal status, once |
| ClaimLaws.ReapFreesExactly | container/claim-store.js:1013-1038 | after a boot reap a task is free exactly if its in-box claim was from before the boot, and every other row is as it was |
| ClaimLaws.RowsAreTheirRequests | container/claim-store.js:451-589 | every row in every reachable table carries the engine, generation, origin and acquisition time of the request that was granted its ref |
| ClaimLaws.ReceiptForever | container/claim-store.js:950-1010 | over every run a receipt, once left, is never lost or rewritten |
| BudgetRules.GrantFitsBothCeilings | container/deepseek-budget.js:198-237 | a granted reservation keeps the run under its limit and the day under its limit |
| BudgetRules.GrantIsLargestAffordable | container/deepseek-budget.js:198-237 | the granted output is the largest affordable one up to the request, and admission is refused for budget exactly when one token is not affordable |
| BudgetLedgers.BudgetRun.Reserve | container/deepseek-budget.js:198-237 | reserving on the object leaves ledger and run as the admission rule says |
| BudgetLedgers.BudgetRun.Settle | container/deepseek-budget.js:238-256 | settling does; a reservation that is not the live one is refused |
| BudgetLedgers.BudgetRun.Cancel | container/deepseek-budget.js:257-265 | cancelling does |
| BudgetLedgers.BudgetRun.Headroom | container/deepseek-budget.js:198-222 | the room left is the smaller remainder of both ceilings, and which one binds |
| BudgetLedgers.PromptTokenUpperBound | container/deepseek-budget.js:33-42 | the loop computes the bound of the rule: every byte of every role and content, and sixteen per message (BudgetLaws.PromptBoundCountsAll) |
| BudgetRuns.LedgerIsExact | container/deepseek-budget.js:152-275 | over any interleaving of any runs the day total the ledger keeps equals the sum of the live reservations |
| BudgetRuns.ClampNeverActs | container/deepseek-budget.js:163-167 | so the clamp at zero never acts |
| BudgetRuns.SpendingStaysUnderCeilings | container/deepseek-budget.js:140-275 | with usage inside the reserved bounds every run stays under its limit, and every day under the largest of its base and the limits of its runs |
| BudgetLaws.PromptBoundCountsAll | container/deepseek-budget.js:33-42 | the bound of any messages is the sum of their role bytes, the sum of their content bytes and sixteen for each of them |
| BudgetLaws.ReportedUsageCosts | container/deepseek-budget.js:44-72 | reported usage is believed exactly when its counts are safe integers that add up, and then costs 44 for each prompt token and 132 for each completion token |
| BudgetLaws.UnbelievedCostsTheBounds | container/deepseek-budget.js:74-97 | any other usage costs the bounds of the reservation at the same prices |
| BudgetLaws.ReservedIff | container/deepseek-budget.js:198-237 | a reservation is made exactly when the run is open, the day has not changed, the spend of the day is known, one output token is affordable and the hook succeeds |
| BudgetLaws.RefusedBecause | container/deepseek-budget.js:198-222 | and each of the other answers is given for exactly its own reason |
| BudgetLaws.RefusalNamesItsCeiling | container/deepseek-budget.js:209-222 | a refusal for budget names a ceiling that one more output token would break, the tighter of the two |
| BudgetLaws.SettleMoves | container/deepseek-budget.js:238-256 | in every reachable ledger settling gives back what was reserved and takes the price of the usage, in the run and in its day |
| BudgetLaws.FlagsTellTheTruth | container/deepseek-budget.js:238-256 | the three flags of a settlement say whether the cost exceeds the reservation, the run its limit, and the settled spend of the day the daily limit |
| BudgetLaws.CancelMoves | container/deepseek-budget.js:257-265 | in every reachable ledger cancelling gives back what was reserved and takes nothing |
| BudgetLaws.CloseIff | container/deepseek-budget.js:268-273 | a run closes exactly when nothing is reserved, and then its name can be used again |
| BudgetStates.ParseState | container/deepseek-budget-state.js:192-249 | the reader accepts exactly the well-formed files and returns the state they denote |
| BudgetStates.PruneState | container/deepseek-budget-state.js:293-307 | pruning drops quiet days oldest first, and fails exactly when only protected or active days are left |
| BudgetStates.SerializeState | container/deepseek-budget-state.js:309-323 | the written file lists exactly the days and reservations of the state |
| BudgetStates.BudgetState.Reserve | container/deepseek-budget-state.js:413-437 | a durable reserve leaves the file as the rule says, or unchanged with an error |
| BudgetStates.BudgetState.Settle | container/deepseek-budget-state.js:438-454 | a durable settle does |
| BudgetStates.BudgetState.Cancel | container/deepseek-budget-state.js:455-463 | a durable cancel does |
| BudgetStates.BudgetState.SetLimits | container/deepseek-budget-state.js:397-404 | changing the limits does |
| BudgetStates.BudgetState.TodayUsd | container/deepseek-budget-state.js:405-412 | the total of a day is its settled spend plus its active reservations |
| BudgetStateProofs.WrittenReadsBack | container/deepseek-budget-state.js:192-330 | a valid state, written, passes every check of the reader and reads back as the same state |
| BudgetStateProofs.AcceptedIsValid | container/deepseek-budget-state.js:192-249 | every file the reader accepts denotes a valid state |
| BudgetStateProofs.EveryWriteIsValid | container/deepseek-budget-state.js:293-463 | every state that an operation writes is valid |
| BudgetStateProofs.OperationRoundTrip | container/deepseek-budget-state.js:382-463 | so every written state reads back as itself |
| BudgetStateProofs.MigrationRoundTrip | container/deepseek-budget-state.js:325-330 | the migrated version-1 state reads back as itself |
| BudgetStateProofs.ReservationsNeverVanish | container/deepseek-budget-state.js:382-463 | an active reservation disappears only by a settle or cancel that names it exactly |
| BudgetStateProofs.DropsOldestFirst | container/deepseek-budget-state.js:293-307 | a day is dropped only when every older droppable day is gone |
| BudgetStateLaws.PruneFailsIff | container/deepseek-budget-state.js:293-307 | pruning fails exactly when the protected day and the days with reservations are more than 32 |
| BudgetStateLaws.PruneDropsJustEnough | container/deepseek-budget-state.js:293-307 | quiet days go, and no more of the others than must: all of them stay if they fit, and otherwise exactly 32 |
| BudgetStateLaws.ReserveIff | container/deepseek-budget-state.js:413-437 | a durable reserve succeeds exactly for a valid ticket of a free name, with room in the count, in the total of its day and in the history |
| BudgetStateLaws.SettleIff | container/deepseek-budget-state.js:438-454 | a durable settle succeeds exactly for a ticket that names an active reservation and a cost that its day can carry; it never fails for the history |
| BudgetStateLaws.CancelIff | container/deepseek-budget-state.js:455-463 | a durable cancel succeeds exactly for a ticket that names an active reservation |
| BudgetStateLaws.ReserveAdds | container/deepseek-budget-state.js:413-437 | a durable reserve adds exactly the reserved amount to the spend of its day |
| BudgetStateLaws.SettleReplaces | container/deepseek-budget-state.js:438-454 | a durable settle replaces the reserved amount by the cost, and the name is free again |
| BudgetStateLaws.CancelTakesBack | container/deepseek-budget-state.js:455-463 | a durable cancel takes the reserved amount back, and the name is free again |
| BudgetStateLaws.OtherDaysStay | container/deepseek-budget-state.js:397-463 | no operation changes the spend of another day that it keeps, and it keeps every day with a reservation |
| BudgetStateLaws.LimitsAreSet | container/deepseek-budget-state.js:397-404 | only setting the limits changes them |
| SpendRuns.DurableEqualsLedger | container/deepseek-budget.js:152-264 | with the hooks wired and crashes anywhere, the durable total of an opened day equals base plus settled plus reserved until the day is pruned |
| SpendRuns.NewLedgerStartsAboveSpend | container/deepseek-budget-state.js:405-463 | at any point, and so after any crash, a new ledger starts a day that the file has not given up from at least everything the provider has charged on it |
| RelaySpend.BargainIsKept | container/dsh-inference-relay.js:181-386 | over the durable ledger, among other runs, every budget call of the relay is one the ledger allows: settlements cover what the provider charged and only what was never sent is erased |
| RelaySpend.ProviderIsCovered | container/deepseek-budget-state.js:405-463 | end to end, at any point and so after any crash there, a new ledger starts a day that the file has not given up from at least what the provider charged on it |
| SpendHistory.LostOnlyToANewDay | container/deepseek-budget-state.js:293-307 | the file gives up the spend of a day only at a reservation for a new day while its 32 days all carry something: nothing was reserved under the lost day, and every older day that stays has a reservation or is the new one |
| SpendRuns.NameInjective | container/deepseek-budget.js:223-228 | the durable name of a reservation identifies it |
| RelayBudgets.RelayBudget.SettleReservation | container/deepseek-budget.js:323-331 | the adapter settles with trusted usage, or else with the worst case; a call takes its whole effect or none |
| RelayBudgets.RelayBudget.CancelReservation | container/deepseek-budget.js:333-343 | an ambiguous cancel charges the worst case, any other erases the reservation |
| RelayBudgets.RelayBudget.Reserve | container/deepseek-budget.js:312-321 | the adapter admits a body as one message of its size |
| RelayBudgets.RelayBudget.Close | container/deepseek-budget.js:345-350 | closing is refused while a reservation is open |
| InferenceRelays.InferenceRelay.Finalize | container/dsh-inference-relay.js:181-197 | the request object makes its one budget call, or none if it has no reservation or made one before |
| InferenceRelays.InferenceRelay.Ask | container/dsh-inference-relay.js:232-272 | the last check before admission and the reservation, on the objects, are the admission step |
| InferenceRelays.InferenceRelay.Resume | container/dsh-inference-relay.js:274-316 | the handler after admission: refused, erased, or started |
| InferenceRelays.InferenceRelay.Respond | container/dsh-inference-relay.js:361-367 | the end of the stream settles |
| InferenceRelays.InferenceRelay.GiveUp | container/dsh-inference-relay.js:368-376 | the error path cancels, ambiguously if the provider request had started |
| InferenceRelays.InferenceRelay.Finish | container/dsh-inference-relay.js:388-396 | a failed settlement goes to the error path, any other failed call stops the relay |
| InferenceRelays.InferenceRelay.Cancel | container/dsh-inference-relay.js:447-454 | a cancel stops the relay and leaves a waiting sweep on exactly the active requests |
| InferenceRelays.InferenceRelay.Sweep | container/dsh-inference-relay.js:452-457 | a sweep that resumes makes the request's call, unless the request has none to make |
| RelayRuns.OneCallPerReservation | container/dsh-inference-relay.js:181-386 | over every interleaving of handlers, disconnects and cancels, a reservation gets at most one budget call, and exactly one once its handler is done |
| RelayRuns.StartedIsCharged | container/dsh-inference-relay.js:239-386 | the erasing cancel is used exactly when the provider request never started; otherwise the charge is the trusted usage or the full worst case |
| RelayRuns.IncurredIsCovered | container/dsh-inference-relay.js:239-386 | whatever the provider charged up to the worst case is covered by the call |
| RelayRuns.RunMatchesRequests | container/dsh-inference-relay.js:181-196 | the run has settled exactly what the calls charged and holds exactly the reservations without an effective call |
| RelayRuns.NothingReservedAfterStop | container/dsh-inference-relay.js:232-234 | once stopped, no new reservation is ever made |
| RelayRuns.CancelDrains | container/dsh-inference-relay.js:447-464 | when the sweeps of a cancel have run, every granted reservation has had its call, and the budget can close |
| RelayLaws.ReservationCoversBody | container/deepseek-budget.js:312-321 | over every run the reservation of a request bounds the input by the bytes of its body and twenty more, and holds 44 for each of them and 132 for each granted output token, to the end |
| RelayLaws.StartedCosts | container/dsh-inference-relay.js:239-386 | over every run a request that was sent is charged its reported tokens, or else the whole body and output; one that was not sent is charged nothing |
| RelayLaws.TotalsArePriced | container/deepseek-budget.js:323-343 | over every run the cost that the budget reports is the price of the tokens that it reports |
| RelayLaws.ThrowsIff | container/deepseek-budget.js:323-343 | a budget call throws exactly if nothing is open under its name, its hook fails, or it settles believed usage beyond the bounds |
| RelayLaws.ClosesIff | container/deepseek-budget.js:345-350 | the budget closes exactly when nothing is open, and then it grants nothing more |
| RelayLaws.AnswerGoesThrough | container/dsh-inference-relay.js:232-367 | in every reachable state a request that the budget has room for, which nothing disturbs, is sent, and its answer is settled at the tokens it reports |
| RelayLaws.FailureGoesThrough | container/dsh-inference-relay.js:368-386 | if the provider fails instead, the whole body and output are charged and the relay goes on |
| RelayLaws.GoneGoesThrough | container/dsh-inference-relay.js:274-300 | if the client has left before the request is sent, it costs nothing and the relay goes on |
| RelayLaws.FailedCallStopsTheRelay | container/dsh-inference-relay.js:388-396 | over every run no handler ends with a budget call that threw and lets the relay go on |
| RelayStream.ReadUsage | container/dsh-inference-relay.js:316-345 | the usage read from a stream is the last word of its lines, wherever the chunks were cut; reading fails exactly above the size limit |
| RelayStreamLaws.ReportIsBelieved | container/dsh-inference-relay.js:127-141 | a data line with any white space around its data reports the counts that the data reports, if they add up |
| RelayStreamLaws.OtherReportsAreNot | container/dsh-inference-relay.js:127-141 | counts that do not add up, a malformed object and data that does not parse discard what was reported before |
| RelayStreamLaws.TheRestIsSilent | container/dsh-inference-relay.js:127-133 | the mark of the end, events without usage and other lines say nothing |
| RelayStreamLaws.LastLineDecides | container/dsh-inference-relay.js:346-365 | the last line that says something decides |
| RelayStreamLaws.LineEnds | container/dsh-inference-relay.js:346-365 | a line ends at its newline, with the return before it if there is one |
| GraphifyLeases.PrivateRoot.ReadClaim | container/graphify-store.js:632-644 | the claim of a selection is found, and two are never met |
| GraphifyLeases.PrivateRoot.RecoverClaim | container/graphify-store.js:646-674 | an interrupted acknowledgement is undone without any caller seeing a change, in every state a crash can leave |
| GraphifyLeases.PrivateRoot.Reserve | container/graphify-store.js:723-782 | reserving returns the held operation or publishes a new one; every state a crash can leave shows the old view or the finished lease; if no step fails it succeeds exactly for a valid selection that holds a lease or can draw the new one |
| GraphifyLeases.PrivateRoot.VerifyCompleted | container/graphify-store.js:784-808 | an operation counts as completed exactly with an intact completed run and no pending one |
| GraphifyLeases.PrivateRoot.Acknowledge | container/graphify-store.js:810-894 | acknowledging answers true only when it moved a completed lease, or it was acknowledged before; every crash state keeps the lease or has acknowledged it; if no step fails it succeeds exactly when the lease was acknowledged before or is held and completed |
| GraphifyLeases.PrivateRoot.ReadLeases | container/graphify-store.js:688-703 | the listed leases are exactly the unacknowledged ones, and the listing never fails |
| GraphifyLeaseRuns.SameIdUntilAcknowledged | container/graphify-store.js:723-782 | over any run with crashes and failures anywhere, reserving a selection keeps returning one id until a call moves that id's lease to the acknowledged record |
| GraphifyLeaseRuns.LeaseStays | container/graphify-store.js:646-894 | no crash loses a lease, not even one inside an acknowledgement: it is held until a call moves it to the acknowledged record of a completed operation |
| GraphifyLeaseRuns.NeverActiveAndClaimed | container/graphify-store.js:646-652 | no reachable state has an active and a claimed lease, or two claims, for one selection |
| GraphifyLeaseRuns.AckedOnlyWhenCompleted | container/graphify-store.js:784-894 | an acknowledgement answers true only for an operation whose lease this or an earlier call moved, on committed runs of which one was completed and none pending |
| GraphifyLeaseRuns.AcknowledgedIdsAreSpent | container/graphify-store.js:723-894 | with fresh ids, an acknowledged id is never returned again |
| GraphifyStores.PlanRetention | container/graphify-store.js:1173-1205 | planning fails exactly for too many pinned runs, an unknown protected run or no slot for it; otherwise it keeps every pinned run, the protected one, and the newest others, within the limit |
| GraphifyStores.PlanCleanup | container/graphify-store.js:1206-1232 | the cleanup lists only leftovers, at most 32, and all of them unless the budget runs out |
| GraphifyStores.Inspect | container/graphify-store.js:1151-1234 | a plan exists exactly when every committed run is intact and retention can be met |
| GraphifyStoreRules.SlotIsReserved | container/graphify-store.js:1399-1441 | the check for one slot fewer before publishing makes sure that the plan after the commit exists |
| GraphifyPublish.Publisher.ApplyPlan | container/graphify-store.js:1236-1241 | applying a plan removes only what it lists, and all of it when it answers true, as it does when no step fails; in every state in between each committed run has its artifact pair |
| GraphifyPublish.Publisher.Prepare | container/graphify-store.js:1243-1249 | a cleanup on its own does that, or fails with nothing changed, exactly without a plan; true means carried out to the end, and is answered when no step fails |
| GraphifyPublish.Publisher.Publish | container/graphify-store.js:1306-1455 | a publication fails with every earlier run in place or commits, never both; no crash before the commit touches an earlier run, none after it more than the stale runs of the plan; true means that the plan was carried out to its end, and is answered when no step fails |
| GraphifyStoreRuns.PairsAlwaysIntact | container/graphify-store.js:1144-1149 | in every state a crash can leave, each committed run has exactly its artifact pair |
| GraphifyStoreRuns.PinnedRunStays | container/graphify-store.js:1173-1189 | a run with a pending projection, or pinned by the leases that the plans are given, is never lost |
| GraphifyStoreRuns.DroppedOnlyWhenFull | container/graphify-store.js:1190-1205 | a run only disappears when as many as are to be retained outlive it |
| GraphifyStoreRuns.DoneMeansRetained | container/graphify-store.js:1236-1455 | a cleanup or publication that answers true leaves no more runs than are to be retained, and the new one is among them |
| GraphifyStoreRuns.NewestAreKept | container/graphify-store.js:1190-1205 | of the runs that only their age keeps, a plan keeps those built last |
| GraphifyStoreRuns.OnlyFinishedDropped | container/graphify-store.js:1173-1205 | only a run without a pending projection and without a lease is dropped, and only when as many as are to be retained stay |
| GraphifyStoreRuns.CleanedIsTidy | container/graphify-store.js:1206-1241 | after a cleanup that was carried out nothing is left over, unless there was more than one cleanup may clear |
| GraphifyStoreRuns.EveryRunHasItsPair | container/graphify-store.js:1144-1149 | in every state a crash can leave, the page and the report of each committed run are there as they were written |
| GraphifyStoreRuns.PendingRunStays | container/graphify-store.js:1173-1189 | a run whose projection is pending stays, pending, until its completion is recorded |
| GraphifyStoreRuns.ForeignAlwaysKept | container/graphify-store.js:1209-1232 | files and directories that the store did not generate are never touched |
| GraphifyWorld.LeasedRunStays | container/graphify-store.js:1151-1241 | with leases and runs under one root, a lease and a committed run of its operation stay intact through every publication, cleanup, failure and crash until an acknowledgement takes the lease from a store that has the operation completed |
| GraphifyWorld.AckSawCompletedRun | container/graphify-store.js:784-894 | an acknowledgement answers true only when, then or earlier, the store had a completed, intact run for the operation and no pending one |
| GraphifyWorld.NewIdOnlyAfterCompletion | container/graphify-store.js:723-894 | a selection gets a new id only after its old operation was published, completed and acknowledged |
| JsonText.StringRoundTrip | container/graphify-secrets.js:1306-1312 | parsing a string literal gives its value however its code units are escaped |
| JsonLaws.OnlyLiteralsAreRead | container/graphify-secrets.js:1306-1312 | exactly the string literals are read: pieces in quotes, each a plain code unit, a short escape or four hexadecimal digits |
| JsonLaws.HexSpells | container/graphify-secrets.js:1306-1312 | four hexadecimal digits in either case stand for the number they spell |
| JsonScan.RawJsonHasDuplicateKey | container/graphify-secrets.js:1293-1335 | the loop over the raw text computes the recursive scan |
| JsonScanProofs.ScanFindsDuplicates | container/graphify-secrets.js:1293-1335 | on every JSON text, with any white space and escapes, the scan reports a duplicate exactly when some object has two members with equal decoded names |
| CoveredIntervals.CoveredList.Covering | container/graphify-secrets.js:1155-1166 | the binary search finds a covering interval exactly when there is one |
| CoveredIntervals.CoveredList.Add | container/graphify-secrets.js:1172-1196 | an insertion keeps the list sorted and adds exactly the range |
| CoveredIntervals.CoversTheUnion | container/graphify-secrets.js:1172-1196 | any insertions in any order leave a sorted disjoint list covering exactly their union |
| RobotsMatch.RobotsPathMatches | container/brand-dna-source.js:304-328 | the greedy matcher accepts a path exactly when the pattern matches it declaratively |
| RobotsRules.RobotsAllows | container/brand-dna-source.js:330-354 | the verdict is: within the limits, and no rule applies or some most specific applying rule allows |
| RobotsRules.GroupOrderDoesNotMatter | container/brand-dna-source.js:330-354 | reordering the groups changes no verdict |
| RobotsRules.RuleOrderDoesNotMatter | container/brand-dna-source.js:337-353 | reordering the rules of a group changes no verdict |
| RobotsLaws.SpecificityCounts | container/brand-dna-source.js:348 | the specificity of a pattern is the number of its characters that are no stars |
| RobotsLaws.StarDenotes | container/brand-dna-source.js:304-328 | a star between two texts stands for whatever lies between them |
| RobotsLaws.LongerPrefixDecides | container/brand-dna-source.js:337-353 | of an allowing and a refusing prefix the longer one decides, and the allowing one when they are as long |
| RobotsLaws.OthersDoNotMatter | container/brand-dna-source.js:333-336 | once a group names the crawler, those that do not are as good as absent; a group that names neither it nor everyone always is |
| RobotsLaws.DenyAllDenies | container/brand-dna-source.js:273 | what is answered over a limit refuses every path |
| RobotsParse.ParseRobots | container/brand-dna-source.js:271-302 | the line loop reads the groups of the parsing rule, and anything over a limit denies all |
| RobotsParse.RenderedReadsBack | container/brand-dna-source.js:271-302 | groups within the limits, spelled out, are read back as they are |
| RobotsLaws.SpacedLineReads | container/brand-dna-source.js:284-292 | a line reads the same with white space around its key and value, with a comment behind it, and in any case of the key |
| RobotsLaws.CommentGoes | container/brand-dna-source.js:285 | a comment goes, from its hash to the end of its line, and nothing else |
| RobotsLaws.LongLineDenies | container/brand-dna-source.js:287 | a line that is too long denies everything, wherever it stands |
| RobotsLaws.ManyDirectivesDeny | container/brand-dna-source.js:287 | so do too many directives |
| RobotsLaws.ParsedIsWithinLimit | container/brand-dna-source.js:296 | what was read never has more rules than the verdict may weigh |
| Redaction.ReplaceEach | container/chains-lib.js:1151-1154 | a global replacement takes the occurrences from left to right and leaves the gaps between them |
| Redaction.GoneIffItCannotComeBack | container/chains-lib.js:1151-1154 | replacing all occurrences of a text removes it from every input exactly when it does not come back across the marker |
| Redaction.ReplacedIsGone | container/chains-lib.js:1149-1156 | a later replacement brings no earlier form back, unless that form can overlap the marker |
| SecretForms.OneWordSurvives | container/chains-lib.js:1149-1156 | for one text without brackets, of eight characters or more, replacing it removes it from every input exactly when it is not the word inside the marker |
| SecretForms.EncodedFormsNeverMeet | container/chains-lib.js:1139-1145 | the base64, unpadded, base64url and hex forms of a secret of eight characters never overlap the marker |
| SecretFormLaws.Base64Reads | container/chains-lib.js:1141-1142 | the base64 form is read back as the bytes of the secret |
| SecretFormLaws.UnpaddedReads | container/chains-lib.js:1143 | so is the unpadded form |
| SecretFormLaws.UrlFormReads | container/chains-lib.js:1144 | so is the form in the alphabet for names and addresses |
| SecretFormLaws.HexReads | container/chains-lib.js:1145 | so is the hexadecimal form |
| SecretForms.CollectForms | container/chains-lib.js:1134-1149 | the forms are taken once each, longest first |
| RedactionOrder.LongestTakenWhole | container/chains-lib.js:1147-1156 | a form whose occurrence no form of its length or more overlaps is taken whole and both sides are redacted on their own: a shorter form in it never exposes the rest |
| SecretForms.RedactSecrets | container/chains-lib.js:1131-1157 | the output is the ordered replacement and the token pass; if no secret as written can overlap the marker, no form of any secret occurs in it |
| SecretForms.NothingListedSurvives | container/chains-lib.js:1131-1157 | the same for every order and every set of token spans |
| SecretFormLaws.NoEncodingSurvives | container/chains-lib.js:1131-1157 | spelled out: the text of a listed secret of eight characters or more, its base64, unpadded, base64url and hexadecimal forms are all gone from the output |
| SecretFormLaws.NothingElseReplaced | container/chains-lib.js:1131-1157 | a text without any of these forms is only searched for tokens |
| SecretForms.CleanIffNotTheWord | container/chains-lib.js:1131-1157 | for secrets without brackets the redaction is complete on every text exactly when none of them is the word inside the marker |
| RedactionExact.CleanIffNothingReturns | container/chains-lib.js:1131-1157 | for any list of secrets, with brackets or without, of whose forms some character begins and ends none, the redaction is complete on every text exactly when no form agrees with the marker where both pieces that stick out hold no form |
| RedactionExact.OneSecretIsClean | container/chains-lib.js:1131-1157 | for one secret, with brackets or without, the redaction is complete on every text exactly when its text cannot overlap the marker |
| AutonomyRecovery.AutonomyRecoveryRegistry.Reserve | container/autonomy-recovery-lib.js:147-171 | a task is reserved exactly when none is tracked for it, as a new worker without a child |
| AutonomyRecovery.AutonomyRecoveryRegistry.AbortReservation | container/autonomy-recovery-lib.js:175-192 | only the reservation of this very worker, before a child is attached, can be taken back |
| AutonomyRecovery.AutonomyRecoveryRegistry.Attach | container/autonomy-recovery-lib.js:197-226 | a child is attached once, to the worker reserved for it |
| AutonomyRecovery.AutonomyRecoveryRegistry.AttestWritableBind | container/autonomy-recovery-lib.js:231-248 | a pending bind is attested only while the same child is live |
| AutonomyRecovery.AutonomyRecoveryRegistry.Finalize | container/autonomy-recovery-lib.js:295-321 | finalizing starts a proof only for a worker whose exit was seen, and otherwise refuses or asks for the completion |
| AutonomyRecovery.AutonomyRecoveryRegistry.Recover | container/autonomy-recovery-lib.js:326-366 | recovering signals, quarantines or goes on as the step says |
| AutonomyRecovery.AutonomyRecoveryRegistry.ExitWaitReturned | container/autonomy-recovery-lib.js:361-374 | after a wait: the proof if the exit was seen, the kill if that was the first wait and the signal is taken, and quarantine otherwise; that this lets a worker go which can be stopped is RecoveryLaws.StoppedWorkerIsForgotten |
| AutonomyRecovery.AutonomyRecoveryRegistry.ProofReturned | container/autonomy-recovery-lib.js:278-312 | only a proof of a bind that is not pending counts |
| AutonomyRecovery.AutonomyRecoveryRegistry.CompletionReturned | container/autonomy-recovery-lib.js:271-276 | a durable completion forgets the task, whichever worker is tracked for it |
| RecoveryRegistry.OnlyProvedWorkersLeave | container/autonomy-recovery-lib.js:295-390 | over every interleaving in which no free task is reserved while a completion for it is outstanding, a record with a child leaves only when a durable completion of its own holder returns, after its exit was seen and its bind proved revoked |
| RecoveryRegistry.QuarantineIsForGood | container/autonomy-recovery-lib.js:325-390 | in those runs a quarantined worker with no call outstanding stays in the registry for good |
| RecoveryRegistry.AlwaysInv | container/autonomy-recovery-lib.js:146-390 | in every reachable state at most one call is stopping or proving a record, and finished phases have their proof |
| RecoveryLaws.QuarantinedIffGivenUp | container/autonomy-recovery-lib.js:278-374 | in every reachable state a step quarantines a worker exactly if a signal was refused, the exit was not seen in the wait after the last signal, the proof failed or the bind was pending, or the worker was finalized and not proved |
| RecoveryLaws.StoppedWorkerIsForgotten | container/autonomy-recovery-lib.js:326-390 | a live worker whose signals are taken and whose exit is seen, after the SIGTERM or after the SIGKILL, is proved, and its completion forgets it |
| RecoveryLaws.FinishedWorkerIsForgotten | container/autonomy-recovery-lib.js:295-321 | a worker that ends by itself is finalized, and its completion forgets it |
| RecoveryLaws.ExitedWorkerIsForgotten | container/autonomy-recovery-lib.js:326-352 | a worker found to have exited is proved without a signal and forgotten |
| RecoveryLaws.ProvedWaitsForCompletion | container/autonomy-recovery-lib.js:271-276 | what was proved without a completion is forgotten by the next call with one |
| RecoveryLaws.LaunchedIsLive | container/autonomy-recovery-lib.js:147-248 | a free task can be reserved, its child attached and its bind attested, and then has such a live worker |
| RecoveryOrder.LaunchIsSafeIffNothingOutstanding | container/autonomy-recovery-lib.js:271-276 | after any run whatever, launching a worker for a free task can be followed by a step that drops it alive exactly when a completion for the task is outstanding, since forgetting goes by task |
| RecoveryRegistry.ReservingTooEarlyLosesALiveWorker | container/autonomy-recovery-lib.js:271-276 | such a state is reachable, so reserving too early can lose a live worker |
| CronFields.ParseField | container/cron-lib.js:19-63 | a field parses exactly when each comma part does, and its values are the union of the parts, Sunday made one; what each part stands for is CronFieldLaws.FormHas |
| CronFieldLaws.AcceptedIffWritten | container/cron-lib.js:19-63 | a part is accepted exactly when it is a star, a star with a step, a number, a range or a range with a step, zeros in front allowed, with bounds in order and in the field and a step of at least one |
| CronFieldLaws.FormHas | container/cron-lib.js:19-63 | and stands for exactly the values of that form, those at multiples of the step from the lower bound, with seven as Sunday made zero |
| CronFieldLaws.EveryNth | container/cron-lib.js:29-60 | a star with a step written in decimal stands for the values of the field at multiples of the step from its first |
| CronFieldLaws.FromToBy | container/cron-lib.js:43-60 | a range with a step, written in decimal, stands for the values of the range at multiples of the step from its first |
| CronFieldLaws.ListHas | container/cron-lib.js:21 | a comma list stands for what its parts stand for together |
| CronFieldLaws.FieldBounds | container/cron-lib.js:11-17 | a star alone is 0 to 59, 0 to 23, 1 to 31, 1 to 12 and 0 to 6 |
| CronSchedule.ParseCron | container/cron-lib.js:65-81 | an expression parses exactly when it has five well-formed fields, into their values and the star flags |
| CronLaws.ReadAsWritten | container/cron-lib.js:65-81 | an expression is read as its words, whatever white space is between and around them, and a day field is restricted when its word does not start with a star |
| CronLaws.DateOrWeekday | container/cron-lib.js:101-107 | of a date and a weekday, neither with a star, each such date fires and each such weekday as well |
| CronLaws.BothDays | container/cron-lib.js:101-107 | with a star in front of one of the two, both must agree |
| CronLaws.KnownDays | container/cron-lib.js:82-90 | the weekday is anchored to known dates, and 1900 and 2100 are no leap years |
| CronLaws.WeekGoesRound | container/cron-lib.js:82-90 | each day is the next day of the week |
| CronSchedule.FirstOfDay | container/cron-lib.js:117-126 | the first matching minute of a day not before the start |
| CronSchedule.NextRun | container/cron-lib.js:107-129 | the next run is the first matching minute, strictly after the given time, of the days that are looked at, and none exactly when there is none |
| CronSchedule.FirstMatchIffNoTwoDigitYear | container/cron-lib.js:107-129 | that is the first match after the start within the horizon, for every expression, exactly when the year of the start is none of 0 to 99 |
| CronLaws.NextQuarter | container/cron-lib.js:107-129 | with a step of fifteen in the minutes alone the next run is the next quarter of an hour |
| CronCalendar.NumberOfDay | container/cron-lib.js:112-113 | the day number computed from a date is the inverse of the calendar, before and after the epoch |
| CronCalendar.UtcDayIs | container/cron-lib.js:113 | the first day looked at is the day of the start, except in a two-digit year, for which it lies far ahead |
| CronHorizon.HorizonMissesIff | container/cron-lib.js:96-115 | for every start the leap-day schedule has no next run exactly when the first midnight looked at lies from 1 March of a year divisible by four to 27 February (28 if the search starts within the day before) four years later, and that later year is no leap year |
| CronHorizon.HorizonMissesALeapDay | container/cron-lib.js:96-100 | from the leap day of 2096 the window misses the next one |
| DescriptorShuffle.Descriptors.DuplicateAway | container/codex-auth-once.c:461-474 | a duplicate lands on a free number that is no target, with everything tried on the way closed; it fails exactly without such a number |
| DescriptorShuffle.Descriptors.InstallLifecycleFds | container/codex-auth-once.c:480-506 | each pipe end is open at exactly its own target and nowhere else, whatever the overlap; it succeeds exactly when three numbers are free for the duplicates and the targets are in range, and other descriptors are untouched |

## Left out

- SQLite, WAL and busy retries: a transaction is one atomic step.
- Reading a claim without changing it, by task or by room (container/claim-store.js:388, :662).
- File descriptors, lstat/fstat checks, permissions and fsync of the stores; a rename is durable.
- HTTP, sockets, timers, abort signals and JSON normalisation of the relayed request: which branch they take is a parameter of the step.
- Whether a worker needed a SIGKILL, which the registry only reports, and the reason texts of its refusals.
- An admission without a usable reservation id, which the budget adapter never returns (container/dsh-inference-relay.js:255-258).
- The 256 KiB bound of the budget file (container/deepseek-budget-state.js:16, :182, :321): a write over it is one of the writes that fail.
- Starts of the cron scan beyond the range of a JavaScript Date.
- Floating-point rounding and the EPSILON comparisons of the ledger: units are exact integers.
- Decoding of stream chunks: a chunk is taken as text already decoded, with its size in bytes.
- A second process in the publication store: the branches for a concurrent winner are not part of this model.
- Slugs and labels of artifact names, whose form is checked before anything is written, and reading graphs and receipts back: a run is intact when its artifact pair is.
- The order in which a directory is listed, and of equal-length forms in the redaction: any order is allowed.
- Token shapes, secret-assignment heuristics and other large pattern tables: the token pass replaces any set of disjoint spans.
- Non-ASCII lower-casing of robots.txt keys and agents.
- UTF-8 encoding of secrets: their bytes are given, at least one for each code unit.
- Number tokens of JSON are any run of the characters that numbers and literal names use; that is a superset of the grammar.
- GraphifyLeases.PrivateRoot.Withdraw: always fails, because in one process nobody else can have published.
- SecretForms.NothingListedSurvives: goes one way; the exact condition for a list is that of RedactionExact.CleanIffNothingReturns, which leaves out lists so large that every character begins or ends some form.
- The chain guards `canRun` and `recordRun`, the text classifiers, the address filter and the command-line plumbing.
