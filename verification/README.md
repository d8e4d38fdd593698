# Verified model of billing, metering, topology and build progress

A Dafny model of the parts of the platform where state, interleaving or string handling make mistakes
expensive, and proofs of what those parts keep.

- **Billing** (`Ledger`, `LedgerInvariants`, `AIUsage`, `BillingRuns`, `BillingTheorems`, `Replays`,
  `Payments`, `BilledMeters`, `WalletRequests`, `Payers`, `HoldOutcomes`, `HoldCoverage`,
  `SettlementProgress`, `SettlementBatches`, `Starvation`, over `Credits`, `Sums` and `TextOrder`). Wallets,
  ledger entries, keyed usage records, credit holds and AI model usages. Each transaction is a function of the
  tables and a method of a `Database` that updates them in place and rolls back. A run interleaves recharges,
  adjustments, project and direct AI debits, settlement workers that act on stale reads, retries, crashes, and
  the agent's own hold transactions (`luna-agent/src/persistence/postgres.ts`). Stored amounts are whole
  quanta of 10^-8 credit, amounts in memory are exact, and every write rounds.
- **Gateway metering** (`MetricAttribution`, `MetricNames`, `GatewayProbe`, `GatewayRuns`, `LateReports`,
  `RouteRefresh`, `GatewayBilling`, `GatewayBooks`, over `Calendar`). Attribution of counter samples to
  routes, and what a refreshed route list changes; the probe's windows and baselines together with the
  server's deduplication, over a network that loses, refuses, repeats, half-acknowledges and delays reports;
  and the windows as keyed debits of the ledger above.
- **Project topology** (`TopologyCycle`, `ProjectTopology`, `TopologyView`, over `Selections` and
  `TextOrder`). Three-colour depth-first search, and the filter, truncate and compact-in-place pipeline.
- **Build progress** (`BuildLines`, `BuildSteps`, `BuildProgress`, `BuildLog`, over `Numerals` and `Sums`).
  Reading lines of build output with the two patterns, and the step counter over any log.
- **Dashboard attention** (`Attention`, `AttentionItems`). One pass over events, refined to a specification by
  groups and then to one in terms of the events alone.
- **Agent observability** (`TraceUsage`, `ReportedUsage`, `SearchPattern`, `ToolValues`, `ConversationLoops`).
- **Service bindings** (`ServiceBindings`, `BindingPreparation`, `TemplateInstalls`, `BindingStore`,
  `StoredBindings`). Preparing and re-sending bindings, planning those of a template, and storing them.
- **Texts and small state** (`HookMetadata`, `ImageReference`, `ImageNames`, `ExtractedText`, `LineBreaks`,
  `CommitMessage`, `BuildEnvironment`, `WebProxies`, over `Text`).

`dafny verify dfyconfig.toml` checks everything.

## What the proofs found

Some properties one would expect do not hold of the code. Each is kept as the code has it, with the exact
condition under which it does hold.

1. *Settlement can be refused because of rounding.* A hold stores the actual cost rounded to eight
   decimals, but the guard of `debitUsagesForUser` subtracts the exact cost. In any state a usage is refused
   exactly when other holds reserve credits and the balance, less what is still to be billed, is below them
   (`RefusedExactly`); with covered holds and nothing billed yet, that is when the whole balance is reserved
   and the cost was rounded down (`RefusedExactlyWhenRoundedDown`). Token counts at given prices settle in
   every run with covered holds exactly when their cost is not rounded down, or is more than any hold can set
   aside (`AlwaysSettlesExactly`); otherwise a short run gets them refused (`RefusedRun`, `RoundingCanRefuse`).
   Refused usages stay the oldest, so a batch of them keeps all newer usages waiting, of any owner
   (`StuckStarve`); such a state is reachable for every size of batch (`NewerUsageStarves`). With fewer of
   them, repeated batches settle everything else (`BatchesEnd`).
2. *One step can leave holds uncovered*: recording an actual cost above the hold's worst case. Token counts
   keep holds covered in every run exactly when their rounded cost is at most the rounded worst case of the
   hold's limits, which the schema bounds, and prices (`SafeExactlyWhenAffordable`); whenever it is more, a short run loses coverage
   (`OverrunUncovers`). Usages within their hold's token limits always keep it (`WithinIsAffordable`), so
   holds are covered in every run that respects the limits (`HoldSafety`). Within the limits the cost
   exceeds the stored worst case only when that was rounded down (`DeficitOnlyByRounding`); the usage is
   then set aside for reconciliation instead of being settled.
3. *A replayed wallet transaction* gets its stored entry back exactly when its amount has at most eight
   decimals; otherwise it is refused as a different transaction (`WalletReplayInRun`). It never changes
   anything either way, at any later point of any run.
4. *The probe over-bills when a counter moves by itself*: when it drops to something other than zero, as a
   sum over several gateway replicas can, or when a refreshed route list attributes other samples to a route.
   Such a jump is harmless when what the probe makes of the new value was served since the baseline; the
   route's invariant survives a jump exactly when it is harmless (`MoveKeepsExactly`, `ResetKeepsExactly`),
   and once all earlier growth is billed the next scrape over-bills exactly after a jump that is not
   (`MoveBillsExactly`, `DropBillsExactly`). Metering is safe for every run whose counters drop to a given
   remainder exactly when that remainder is zero (`SafeExactlyWhenResetToZero`). A refresh bills a route
   nothing by itself, whatever the samples show, exactly when the route keeps its metrics, loses all of them,
   or had none (`RefreshIsSafeExactly`).
5. *Completed build steps can exceed the total* when a step index is padded with zeros or does not fit an
   int. An index text is harmless in every log exactly when it is canonical, or reads as zero
   (`SafeExactlyWhenCanonical`). A step line without a stage is misread exactly when its instruction goes on
   with a second pair of numbers (`StepIsRead`, `SecondNumbersWin`). The reported total is the exact one
   precisely while it fits an int.
6. *A host that ends in a slash* is written with the slash by `BuildImageRef` and without it by
   `BuildImageNamePrefix`: the names agree exactly unless the host is written and ends in one
   (`ImageRefRoundTrip`, `SlashIsDoubled`, `SlashHostExample`).
7. *A carriage return counts as a newline of its own* in `normalizeExtractedText`, so a single Windows line
   break between two words becomes an empty line (`WindowsBreakDoubles`, `WindowsBreakExample`). A text is
   normalised as if its line breaks were plain newlines exactly when no white space inside it has a Windows
   line break as its only line break (`NormalizedUnix`).

## Model

| member | source | states |
|---|---|---|
| Credits.RoundNearest | internal/model/billing.go:53-54 | a stored amount is within half a quantum of the exact one |
| Credits.RoundExactly | internal/model/billing.go:53-54 | a stored amount is the nearest whole quantum and, halfway between two, the one farther from zero |
| Credits.RoundShiftWhole | internal/model/billing.go:53-54 | adding an amount of at most eight decimals to a stored balance never rounds |
| Credits.RoundKeepsFloor | internal/model/billing.go:12 | a balance that covers a whole number of quanta before rounding covers it afterwards |
| Text.BlankIffTrimmedAway | internal/billing/ai_usage.go:80-85 | a text is only white space exactly when trimming leaves nothing |
| Text.TrimSpaceIs | internal/billing/ledger.go:64 | trimming takes off both ends all the white space there is and nothing else |
| Ledger.ReservedExcluding | internal/billing/ledger.go:212-223 | excluding one active hold from a user's reserved credits takes off exactly that hold's COALESCE(actual, worst case) |
| Ledger.FindByKey | internal/billing/ledger.go:72-83 | finds an entry of the user with the key if there is one, and otherwise there is none |
| Ledger.WalletTransaction.Validate | internal/billing/ledger.go:39-54 | accepted are adjustments by any amount but zero and credits of a positive amount, for a named user |
| Ledger.Database.ActiveReservationHolds | internal/billing/ledger.go:212-223 | the loop adds up every active hold of the user but the excluded one, each once |
| Ledger.Database.ApplyWalletTransaction | internal/billing/ledger.go:37-117 | validation, wallet creation, replay, hold guard, entry and balance, with every error leaving all tables as they were; a new entry is answered with its amounts in memory, a replayed one as stored |
| Ledger.Database.PostEntry | internal/billing/ledger.go:85-114 | a debit below the reserved credits is refused and changes nothing; otherwise entry and balance are written together |
| Ledger.Database.DebitUsagesForUser | internal/billing/ledger.go:150-210 | the batch loop skips recorded keys, guards each new record and writes records, entries and the final balance of the specification |
| Ledger.BillingOwner | internal/billing/ledger.go:225-239 | a project is billed to someone unless it is unknown, or names no billing owner and has no owner among its members |
| Ledger.Database.DebitUsages | internal/billing/ledger.go:123-135 | the batch is billed to the owner of its first usage's project, all or nothing: on any error the tables are those before |
| Ledger.Database.DebitUserUsages | internal/billing/ledger.go:137-148 | the same for a named user; a blank name is refused unless the batch is empty |
| WalletRequests.InvalidRequest | internal/billing/ledger.go:39-54 | on the request as it comes: no user, a zero amount, another type, and a negative amount of the type credit or of none are refused, in this order |
| WalletRequests.NewRequest | internal/billing/ledger.go:37-117 | any other request under a new key is refused exactly when it takes from credits that holds reserve, and otherwise posted with its user, trimmed project and key, the type credit unless it is an adjustment, its rounded amount and the new balance |
| WalletRequests.RepeatedRequest | internal/billing/ledger.go:72-83 | a request whose trimmed key is taken posts nothing; it gets the entry under the key if type and amount agree |
| WalletRequests.KeyPostsOnce | internal/billing/ledger.go:64-83 | over every run, two requests of a user whose keys agree after trimming leave exactly one entry under the key, and the second changes nothing |
| Payers.PayerOf | internal/billing/ledger.go:225-239 | the payer of a project is its trimmed billing owner if that is not blank, and otherwise its trimmed owner member |
| Payers.ProjectDebit | internal/billing/ledger.go:123-135 | every record and entry that a debit of a project adds names that payer, and no other balance changes |
| Payers.UnpaidProject | internal/billing/ledger.go:123-135 | a project without one, or an unknown one, is not billed |
| Payers.NamedUser | internal/billing/ledger.go:137-148 | a named user pays under the trimmed name, and a blank name is refused |
| Payers.NewBatch | internal/billing/ledger.go:159-209 | a batch of new usages that goes through writes one record and one entry for each, in order, with its key, project, payer and rounded amount; stored balances are rounded from one exact running balance |
| Payers.MixedBatch | internal/billing/ledger.go:159-163 | usages of two projects in one batch change nothing |
| LedgerInvariants.TracksStep | internal/billing/ledger.go:159-207 | one more rounded record moves the exact running balance at most half a quantum from the ledger sum, so the stored one at most one |
| LedgerInvariants.DebitAllKeeps | internal/billing/ledger.go:159-209 | a whole batch keeps the balance chain, record/entry correspondence and unique keys, records every usage, and never ends below the other holds |
| LedgerInvariants.DebitForUserKeeps | internal/billing/ledger.go:150-210 | so does the transaction; other users' balances, holds and usages are untouched, and an already settled batch only ensures the wallet |
| LedgerInvariants.PostKeeps | internal/billing/ledger.go:85-114 | posting a wallet transaction keeps the chain and unique idempotency keys |
| LedgerInvariants.TransactKeeps | internal/billing/ledger.go:37-117 | every wallet transaction, accepted, replayed or refused, keeps the ledger invariant |
| LedgerInvariants.TransactHoldSafe | internal/billing/ledger.go:86-95 | every wallet transaction keeps balances above active holds |
| LedgerInvariants.DebitKeeps | internal/billing/ledger.go:123-148 | every debit batch, of a project or a named user, keeps the ledger invariant and hold coverage, and a failed one changes nothing |
| LedgerInvariants.ReplayIsIdempotent | internal/billing/ledger.go:72-83 | on any tables that extend those behind it, a replay changes nothing, and returns the stored entry exactly when the amount has at most eight decimals |
| LedgerInvariants.DebitReplayChangesNothing | internal/billing/ledger.go:164-177 | on any records that extend those behind it, a batch that went through is refused as already settled, whoever is to pay |
| AIUsage.Validate | internal/billing/ai_usage.go:80-101 | a usage is accepted exactly when its five identifiers are not blank, its token counts are consistent and no price is negative; validation never answers with a settlement error |
| AIUsage.FirstFault | internal/billing/ai_usage.go:80-101 | of several faults the first is reported: identity, model, negative counts, inconsistent counts, negative prices |
| AIUsage.RecordsConserveCost | internal/billing/ai_usage.go:103-129 | the four records together bill exactly the cost the agent computes from the same tokens, none is negative, and their keys differ |
| AIUsage.SettleReportedAIUsage | internal/billing/ai_usage.go:177-222 | the transaction bills and settles a usage and its hold together; on any error no table changes |
| AIUsage.SettleAIModelUsage | internal/billing/ai_usage.go:68-78 | direct billing validates first and then debits the four records as one batch |
| AIUsage.SelectPending | internal/billing/ai_usage.go:131-157 | the eligible usages in order of time, then identifier: as many of the first as the limit allows, and all of them when they are fewer |
| AIUsage.SettlePendingAIModelUsage | internal/billing/ai_usage.go:131-175 | the batch settles those rows in order, one transaction at a time, counts the settled ones, passes over settled ones and reports any other failure |
| AIUsage.WorstCaseCovers | luna-agent/src/persistence/postgres.ts:138-155 | the worst case of a hold covers the cost of every usage within its token limits |
| AIUsage.WorstCaseIsReached | luna-agent/src/persistence/postgres.ts:138-155 | and no smaller amount would do: some usage within the limits costs exactly the worst case |
| HoldOutcomes.ReservedIs | internal/billing/ledger.go:212-223 | reserved are the actual costs, or before those are known the worst cases, of all holds of the user that are neither released nor settled |
| HoldOutcomes.RequestOutcome | luna-agent/src/persistence/postgres.ts:98-177 | a hold is granted exactly when the owner has a wallet, the identifier is new, the limits are valid, the run agrees, and the balance covers the worst case and all that is reserved; it then copies the request field by field, expired holds of the owner go to reconciliation, and nothing else changes; a refused request changes nothing |
| HoldOutcomes.ReportOutcome | luna-agent/src/persistence/postgres.ts:179-240 | a usage is recorded exactly when its hold is held and without usage, the usage is new and its counts are consistent; the hold then stores the rounded price of the four kinds of tokens, and is a deficit exactly when the exact price exceeds what was set aside |
| HoldOutcomes.LifeOfHold | luna-agent/src/persistence/postgres.ts:179-258 | over every event a hold is released, closed, expired, recorded or settled only from the state that allows it and by the event meant for it, no other field changes, and it goes only with its conversation |
| AIUsage.DeficitOnlyByRounding | luna-agent/src/persistence/postgres.ts:190-197 | within those limits a deficit is found only when the stored worst case was rounded down, by at most half a quantum, and then for every usage that costs exactly the worst case |
| BillingRuns.SettleKeeps | internal/billing/ai_usage.go:177-222 | settling a row read at any earlier time keeps the invariant of the whole system, and success means the usage is settled |
| BillingRuns.MarkSettledLinks | internal/billing/ai_usage.go:214-220 | marking a usage and its hold settled keeps usages and holds paired one to one in matching states |
| BillingRuns.RecordKeeps | luna-agent/src/persistence/postgres.ts:179-240 | recording a usage keeps the pairing, with the rounded cost on the hold |
| BillingRuns.HoldStepKeeps | luna-agent/src/persistence/postgres.ts:241-258 | creating, expiring, releasing, closing or deleting holds keeps the invariant |
| BillingRuns.DeleteRunsStep | luna-agent/src/persistence/postgres.ts:370-375 | deleting a conversation takes away only holds without a usage, and nothing else |
| BillingRuns.StepKeeps | internal/billing/ai_usage.go:131-222 | every event of the system keeps the invariant, in each rounding mode |
| BillingTheorems.RunKeeps | internal/billing/ai_usage.go:158-222 | so it holds after every run from an empty database |
| BillingTheorems.LedgerChain | internal/billing/ledger.go:159-209 | in every reachable state each balance, and the balance stored with each entry, is the sum of the user's amounts so far: exactly when amounts are whole, within one quantum per usage debit when only those round, within one per entry otherwise |
| BillingTheorems.ExactChain | internal/billing/ledger.go:65-115 | over every run of whole amounts each balance, and the balance stored with each entry, is exactly the sum of the amounts so far |
| BillingTheorems.OneEntryPerRecord | internal/billing/ledger.go:165-209 | each usage record has exactly one debit entry, with its user, project, key and amount |
| BillingTheorems.ExactlyOnce | internal/billing/ai_usage.go:158-222 | in every reachable state at most one record exists per key, debit entries are the records one for one, and a usage is settled exactly when its own hold is, with all four records billed |
| Payments.SettledIsPaidByOwner | internal/billing/ai_usage.go:103-129 | unless something else bills under the usage's keys, a settled usage has its four records billed to its owner, each at its rounded amount at the hold's prices, and nothing else under those keys |
| BilledMeters.SettledMeters | internal/billing/ai_usage.go:103-129 | over every run in which nothing else bills under its keys, a settled usage has one record and one entry under each of the four meters: uncached prompt tokens at the input price of its hold, completion tokens at the output price, tokens read from and written to the cache at the cached price, per million and rounded, for its owner |
| BilledMeters.DirectMeters | internal/billing/ai_usage.go:68-78 | direct billing of a usage with no records yet does the same at the given prices, for the trimmed user |
| Replays.RunGrows | internal/billing/ledger.go:185-207 | over every run, ledger entries and usage records are only appended |
| Replays.WalletReplayInRun | internal/billing/ledger.go:72-83 | a wallet transaction sent again at any later point of any run changes nothing, and gets the stored entry exactly when its amount has at most eight decimals |
| Replays.DebitReplayInRun | internal/billing/ledger.go:164-177 | a batch sent again at any later point of any run, for whomever, is refused as already settled and changes nothing |
| Replays.DirectReplayInRun | internal/billing/ai_usage.go:68-78 | so is a directly billed usage that is reported again |
| HoldCoverage.CreateHoldSafe | luna-agent/src/persistence/postgres.ts:98-178 | a granted hold leaves the owner's balance above all active holds |
| HoldCoverage.CloseHoldSafe | luna-agent/src/persistence/postgres.ts:241-258 | giving a hold up never uncovers another |
| HoldCoverage.DeleteRunsSafe | luna-agent/src/persistence/postgres.ts:370-375 | neither does deleting a conversation |
| HoldCoverage.RecordHoldSafe | luna-agent/src/persistence/postgres.ts:179-240 | recording a cost keeps coverage exactly when the balance before covers the holds with the cost in place of the worst case |
| HoldCoverage.SettleHoldSafe | internal/billing/ai_usage.go:177-222 | settlement debits, then releases its own hold, and leaves every user's other holds covered |
| HoldCoverage.StepHoldSafe | internal/billing/ledger.go:86-95 | an event keeps all holds covered exactly when it is not the recording of an uncovered cost |
| HoldCoverage.WithinIsAffordable | luna-agent/src/persistence/postgres.ts:138-155 | in every reachable state a usage within its hold's token limits costs, rounded, no more than the hold reserves |
| HoldCoverage.HoldSafety | internal/billing/ledger.go:160-182 | over every run whose recorded usages respect their hold's token limits, a user with active holds has a balance of at least their sum |
| HoldCoverage.SafeExactlyWhenAffordable | luna-agent/src/persistence/postgres.ts:179-240 | token counts keep coverage at every hold with given limits, within the bounds of the schema, and given prices, after every run, exactly when their rounded cost is at most the rounded worst case |
| HoldCoverage.OverrunUncovers | luna-agent/src/persistence/postgres.ts:179-240 | for all token counts, limits within those bounds and prices beyond that there is a run, from an empty database, that loses coverage |
| SettlementProgress.BatchFits | internal/billing/ledger.go:163-206 | a batch whose total leaves the reserved credits untouched passes the guard at every record |
| SettlementProgress.BatchRefused | internal/billing/ledger.go:163-206 | a batch of new records whose total does not is refused |
| SettlementProgress.CoveredUsageSettles | internal/billing/ai_usage.go:177-222 | when balances cover holds and the hold covers the exact cost, settlement succeeds whatever other holds exist |
| SettlementProgress.RefusedExactlyWhenRoundedDown | internal/billing/ledger.go:165-182 | in every reachable state with covered holds a recorded, unbilled usage is refused exactly when the whole balance is reserved, other holds take part of it, and the cost was rounded down; otherwise it settles |
| SettlementProgress.BatchOutcome | internal/billing/ledger.go:163-206 | a batch is refused exactly when it adds something and what all it adds leaves of the balance is below the reserved credits, whatever part of it exists already |
| SettlementProgress.RefusedExactly | internal/billing/ledger.go:165-182 | in any state a usage that can be settled is refused exactly when something is still to be billed, other holds are positive, and the balance less the unbilled amounts is below them; otherwise it settles |
| SettlementProgress.AlwaysSettlesExactly | internal/billing/ledger.go:165-182 | usages with given tokens and prices settle after every run with covered holds exactly when their cost is not rounded down, or exceeds what a hold can set aside |
| SettlementProgress.RefusedRun | internal/billing/ledger.go:178-181 | in every other case there is a run to such a refusal with every hold covered |
| SettlementProgress.RoundingCanRefuse | internal/billing/ledger.go:178-181 | for example for four tokens at 1.1 credits a million |
| SettlementBatches.BatchIsUnique | internal/billing/ai_usage.go:138-157 | the settlement query has one answer |
| SettlementBatches.BatchIsRun | internal/billing/ai_usage.go:158-175 | a batch is a run of the system: rows read, then one transaction each |
| SettlementBatches.BatchOutcome | internal/billing/ai_usage.go:158-175 | a batch ends the wait of the usages it settles and of no other, and changes nothing when it settles none |
| SettlementBatches.BatchStalls | internal/billing/ai_usage.go:158-175 | a batch settles nothing exactly when each of its usages is refused |
| SettlementBatches.BatchProgress | internal/billing/ai_usage.go:138-175 | while fewer usages are refused than a batch holds and another waits, every batch settles one |
| SettlementBatches.BatchesEnd | internal/billing/ai_usage.go:131-175 | more batches than usages wait settle all that can be settled: in the end every waiting usage is refused, or a whole batch of them is |
| SettlementBatches.StuckStarve | internal/billing/ai_usage.go:149-158 | as many refused usages as a batch holds, older than the rest, let no batch settle anything |
| Starvation.NewerUsageStarves | internal/billing/ai_usage.go:149-158 | for every size of batch a run leads to such a state, with a newer usage of another owner that would settle |
| GatewayProbe.Windows | internal/gatewayprobe/collector.go:194-217 | every window belongs to a route with counters and is computed from that route's baseline alone |
| GatewayProbe.WindowsAre | internal/gatewayprobe/collector.go:194-217 | one window for each route with counters, in order, from its baseline to now, with what bytes and requests grew by, or all of a counter that is lower than before; an empty one without an earlier baseline |
| GatewayProbe.Server.Report | internal/api/billingapi/gateway_traffic_handlers.go:149-221 | an arriving window is settled once per route and start, and a duplicate is acknowledged as well |
| GatewayProbe.Collector.WindowsForCounters | internal/gatewayprobe/collector.go:194-217 | the loop builds the specified windows, in route order |
| GatewayProbe.Collector.MarkReported | internal/gatewayprobe/collector.go:219-223 | one route's baseline moves, no other |
| GatewayProbe.Collector.ScrapeAndReport | internal/gatewayprobe/collector.go:106-154 | a pass moves baselines window by window and stops at the first failure, leaving the rest for the next scrape |
| Calendar.StampInjective | internal/billing/usage.go:364-366 | two minutes are written alike only when they are the same, for the whole calendar and years of any length |
| Calendar.StampIsTime | internal/billing/usage.go:364-366 | a stamp is year, month, day, hour and minute of its time, where days are counted by the leap year rule rather than one by one |
| GatewayBilling.KeyInjective | internal/billing/usage.go:364-366 | route and start minute can be read back from a usage key, whatever colons the route holds |
| GatewayBilling.WindowIsReceived | internal/billing/usage.go:316-354 | settling a window as a ledger usage acknowledges it and records its key exactly as the server of the probe's protocol does; any failure leaves the tables as they were |
| GatewayBooks.WindowsAreBilled | internal/billing/usage.go:316-354 | over every run of windows and all other billing, the gateway records are the settled windows, one for one and in order, each under its own key and project at its rounded price |
| GatewayBilling.ScrapeFamilies | internal/gatewayprobe/collector.go:106-154 | a whole scrape makes one pass over counters that attribution gives for the metric families |
| GatewayRuns.PassCovers | internal/gatewayprobe/collector.go:128-144 | whatever the network does during a pass, billed bytes stay below the growth behind the scrape, and below the baseline while its window is open |
| GatewayRuns.ReportKeeps | internal/gatewayprobe/collector.go:106-154 | a pass over all routes keeps each route's invariant |
| GatewayRuns.StepKeeps | internal/gatewayprobe/collector.go:106-154 | traffic, harmless jumps of counters, clock ticks, restarts, scrapes and reports all keep it |
| GatewayRuns.MoveKeepsExactly | internal/gatewayprobe/collector.go:241-246 | a jump keeps a route's invariant exactly when what the probe makes of the new value was served since the baseline, and likewise for a scrape in progress |
| GatewayRuns.ResetKeepsExactly | internal/gatewayprobe/collector.go:241-246 | a drop does exactly when what is left is at least the baseline's counter or at most the bytes served since, and likewise for a scrape in progress |
| GatewayRuns.NeverOverBills | internal/gatewayprobe/collector.go:194-246 | after every run whose drops are to zero or harmless the bytes settled for a route are at most its true growth since its first baseline |
| GatewayRuns.PassInStep | internal/gatewayprobe/collector.go:128-144 | without lost acknowledgements a pass settles a route's open window exactly when it moves its baseline |
| GatewayRuns.NothingIsLost | internal/gatewayprobe/collector.go:128-144 | without resets, restarts and lost acknowledgements, and with each report in a later minute, settled bytes equal the growth from first to latest baseline, whatever was lost or refused on the way |
| GatewayRuns.RestartBillsNothing | internal/gatewayprobe/collector.go:203-207 | the first scrape after a restart settles nothing, whatever the network does, and leaves exactly the routes it reads with what it read as their baselines |
| GatewayRuns.PartialResetOverBills | internal/gatewayprobe/collector.go:241-246 | a counter that drops to a positive remainder gets that remainder billed with no growth at all |
| GatewayRuns.MoveBillsExactly | internal/gatewayprobe/collector.go:241-246 | with all growth up to the baseline billed, scraping and reporting after a jump bills within the true growth exactly when the jump is harmless |
| GatewayRuns.DropBillsExactly | internal/gatewayprobe/collector.go:241-246 | the same for a drop |
| GatewayRuns.SafeExactlyWhenResetToZero | internal/gatewayprobe/collector.go:241-246 | runs whose drops leave a given remainder never over-bill exactly when it is zero |
| LateReports.TurnKeeps | internal/gatewayprobe/collector.go:128-144 | every event, and every sent window that is settled at any later time, keeps what was sent in separate stretches of growth |
| LateReports.BilledIsCovered | internal/gatewayprobe/collector.go:194-217 | separate stretches bound the settled bytes by the true growth |
| LateReports.NeverOverBillsLate | internal/gatewayprobe/collector.go:128-144 | the probe never over-bills although any report may still be settled after later scrapes, refreshes and restarts |
| RouteRefresh.RefreshIsSafeExactly | internal/gatewayprobe/collector.go:113-117 | a refreshed list bills a route nothing by itself, for all samples, exactly when the same metrics go to the route, none does any more, or none did |
| RouteRefresh.RefreshIsHarmless | internal/gatewayprobe/collector.go:113-126 | in a run that is what makes the jump of a counter at its baseline harmless |
| MetricAttribution.BestScoreIsMaximum | internal/gatewayprobe/metrics.go:81-96 | a route's score is the largest of its candidates' and is reached by one of them |
| MetricAttribution.GoesToFirstLongest | internal/gatewayprobe/metrics.go:77-99 | a metric goes to the first of the routes that hold a longest matching candidate |
| MetricAttribution.SomeFirstLongest | internal/gatewayprobe/metrics.go:77-99 | there is such a route unless no candidate of any route matches |
| MetricAttribution.GoesNowhere | internal/gatewayprobe/metrics.go:77-99 | a metric is unattributed by score exactly when no candidate matches |
| MetricAttribution.ValuesAreLabels | internal/gatewayprobe/metrics.go:101-113 | searching the normalised label list is searching the labels that have a value |
| MetricAttribution.TryCandidate | internal/gatewayprobe/metrics.go:87-94 | the innermost loop improves the best match exactly by this candidate's score |
| MetricAttribution.RouteIDForMetric | internal/gatewayprobe/metrics.go:77-99 | the three nested loops find the best match |
| MetricAttribution.CountersFromMetricFamilies | internal/gatewayprobe/metrics.go:23-53 | for every family order each route gets exactly the sum of its own samples, only routes with samples appear, and all routes together get the sum of all attributed samples |
| MetricNames.CountersAre | internal/gatewayprobe/metrics.go:23-64 | bytes of a route are the samples for it in families whose trimmed, lower-cased name contains response and bytes and ends in _total, requests those in the other families that end in _requests_total and contain neither bytes nor duration, and a route has counters exactly when it has such a sample |
| MetricNames.TokenIs | internal/gatewayprobe/metrics.go:115-124 | a token is the letters and digits of the trimmed, lower-cased text, in order |
| MetricNames.ScoreIs | internal/gatewayprobe/metrics.go:77-99 | a candidate counts exactly when its token is not empty and inside the token of a label, and then as many points as its UTF-8 form has bytes |
| TopologyCycle.WalkStaysOrdered | internal/dependency/topology.go:243-258 | a walk from a finished node is shorter than its finishing position |
| TopologyCycle.LongWalk | internal/dependency/topology.go:233-265 | a cycle gives walks of every length |
| TopologyCycle.OrderedIsAcyclic | internal/dependency/topology.go:259-264 | when every source is finished, there is no cycle |
| TopologyCycle.CycleSearch.Visit | internal/dependency/topology.go:243-258 | the recursive visit terminates, a reported cycle exists, and otherwise the node is finished with all it reaches |
| TopologyCycle.CycleSearch.Begin | internal/dependency/topology.go:250-250 | colouring a node as visiting extends the walk on the stack |
| TopologyCycle.CycleSearch.Finish | internal/dependency/topology.go:256-256 | colouring it finished keeps the finishing order |
| TopologyCycle.Adjacency | internal/dependency/topology.go:234-242 | the lists hold exactly the targets of each source, as often as its links name them, in order |
| TopologyCycle.HasCycle | internal/dependency/topology.go:233-265 | the answer is true exactly when the links contain a directed cycle, self-loops included, for every order of nodes and targets |
| ProjectTopology.CompactInPlace | internal/dependency/topology.go:181-187 | overwriting the front of the same array yields exactly the links between listed nodes |
| ProjectTopology.SelectLinks | internal/dependency/topology.go:100-131 | the two loops select the enabled or disabled bindings and the manual edges that pass the filter |
| ProjectTopology.SelectNodes | internal/dependency/topology.go:133-166 | the node loop selects the visible applications with their targets |
| ProjectTopology.ProjectView | internal/dependency/topology.go:65-202 | the pipeline returns the specified view |
| ProjectTopology.LinksAreSelections | internal/dependency/topology.go:100-131 | the links are the bindings and then the manual edges that pass the filter, all of them, each once and in order, with all their fields |
| ProjectTopology.NodesAreSelections | internal/dependency/topology.go:133-166 | the nodes are the visible applications, and the targets of each those at the stage, all of them, each once and in order |
| ProjectTopology.ByIdIsLast | internal/dependency/topology.go:88-91 | an identifier stands for the last target that has it |
| ProjectTopology.ViewIsClosed | internal/dependency/topology.go:172-191 | at most 500 nodes and 1000 edges, and every edge joins two listed nodes |
| ProjectTopology.ViewIsFaithful | internal/dependency/topology.go:168-201 | the edges are the first of the links between listed nodes, all of those when nothing was cut; the truncation warning appears exactly when a limit cut something, and the cycle warning exactly when the filtered links have a cycle |
| TopologyView.LinksAre | internal/dependency/topology.go:100-131 | the links are exactly the bindings whose two targets are at the stage asked for, and then exactly the manual edges whose named targets are, of the origins and the application asked for, in order, with every field where it belongs |
| TopologyView.NodesAre | internal/dependency/topology.go:133-177 | the nodes are the applications asked for, with a target at the stage, or touched by a link, in order, with their fields and exactly their targets at the stage; at most 500 |
| TopologyView.EdgesOfView | internal/dependency/topology.go:168-201 | the edges are the links that join two listed nodes, in order, at most 1000; warnings tell exactly of a cycle among all links and of nodes or edges cut off |
| Selections.SelectIsSelection | internal/dependency/topology.go:100-166 | filtering and mapping a list element by element gives exactly the images of the wanted elements, at strictly increasing positions |
| ServiceBindings.FirstFit | internal/dependency/service.go:353-365 | the answer is an offered port with the asked name and number, and there is none only when none fits |
| ServiceBindings.NormalizeServicePorts | internal/model/deployment.go:335-354 | the loop with its set of seen numbers, and the fallback port behind it, yield the specified ports |
| ServiceBindings.NormalizedIsWellNumbered | internal/model/deployment.go:335-354 | offered ports have valid, distinct numbers and trimmed names that are not empty; there is none exactly when neither a listed port nor the fallback is valid |
| ServiceBindings.ResolveTargetPort | internal/dependency/service.go:353-365 | the loop returns the first fitting port |
| ServiceBindings.ServiceBinding.PrepareServiceBinding | internal/dependency/service.go:128-178 | writes the prepared fields or reports the first failing check, in the program's order |
| ServiceBindings.AcceptedIsSound | internal/dependency/service.go:308-384 | every accepted binding has a valid shape and valid, unreserved variable names |
| ServiceBindings.PreparedAgain | internal/dependency/service.go:128-178 | an accepted binding whose own fields are sent again is accepted without changing any of them |
| BindingPreparation.PreparedExactly | internal/dependency/service.go:128-178 | an input is accepted with exactly these fields and no others, exactly when its secrets are complete, its targets are those looked up, differ and share a cluster, a port fits, the shape is valid, and every variable has a proper name that is neither reserved nor taken |
| BindingPreparation.RefusedFor | internal/dependency/service.go:144-163 | of the reasons found before the port is known, the first in order is given |
| BindingPreparation.RefusedForFields | internal/dependency/service.go:164-178 | then an invalid shape, the first variable with a bad or reserved name, and a variable of the deployment itself |
| ServiceBindings.ConflictIsSharing | internal/dependency/repository.go:107-120 | for sound bindings the query over three columns finds exactly the shared variables, whatever the injection modes |
| TemplateInstalls.TemplateComponentServiceBindings | internal/api/applicationapi/app_template_handlers.go:617-645 | the two loops plan a binding for each component and each component it refers to, or report the first failure |
| TemplateInstalls.PlannedApart | internal/appstore/catalog.go:158-212 | the bindings planned for a valid template are sound, and no two of one source target share a variable |
| StoredBindings.PlannedAre | internal/api/applicationapi/app_template_handlers.go:617-645 | the planned bindings give each component host and port, in variables named after it, of each component it refers to, and nothing else |
| StoredBindings.TemplatePlans | internal/api/applicationapi/app_template_handlers.go:617-645 | planning succeeds exactly when every component can be given every component it refers to: two targets in one cluster, a port called http, and variables that are neither reserved nor set already |
| BindingStore.InstallKeeps | internal/api/applicationapi/app_template_handlers.go:268-272 | storing them without the conflict query keeps the variables of each source target distinct |
| BindingStore.ApplyKeeps | internal/dependency/service.go:105-126 | so does one creation, update or deletion |
| BindingStore.VariablesStayDistinct | internal/dependency/service.go:69-126 | after any serial run, installs included, no two bindings of a source target set the same environment variable |
| StoredBindings.SaveOutcome | internal/dependency/service.go:105-124 | saving stores exactly the accepted binding, unless another one of the source target sets one of its variables, and then nothing |
| StoredBindings.InstallOutcome | internal/api/applicationapi/app_template_handlers.go:268-276 | an install stores all planned bindings, each under its own identifier, or none; what was stored stays |
| Numerals.Decimal | internal/builder/payload.go:54-54 | a printed number reads back, without a leading zero |
| Numerals.NoLeadingZeroIsDecimal | internal/builder/steps.go:42-48 | a numeral without leading zero is the printed form of its value |
| BuildLines.StepLinesAre | internal/builder/steps.go:9-11 | a line is read as a step line exactly when it is a vertex, an optional stage, two numbers and a tail in the shape of the first pattern |
| BuildLines.StepIsRead | internal/builder/steps.go:38-41 | stage and numbers of such a line are read back exactly unless it has no stage and its tail goes on like a second pair of numbers |
| BuildLines.SecondNumbersWin | internal/builder/steps.go:9-11 | of two pairs of numbers in a row, the first is taken for the stage |
| BuildLines.StatusLinesAre | internal/builder/steps.go:13-14 | a line is read as a status line of a vertex exactly when the vertex is followed by the whole word DONE or CACHED |
| BuildLines.FinishedIs | internal/builder/steps.go:14 | the word is DONE or CACHED, and no letter, digit or underscore follows |
| BuildLines.PrintedIsRead | internal/builder/steps.go:36-38 | every printed line is read back, after trimming |
| BuildSteps.CanonicalIff | internal/builder/steps.go:42-48 | canonical indexes are those without leading zero that fit an int |
| BuildSteps.WrapAdd | internal/builder/steps.go:77-82 | int addition of stage totals wraps like the exact sum |
| BuildSteps.LastOpen | internal/builder/steps.go:64-74 | the latest started step that is not completed, or none when all are |
| BuildSteps.StepCounter.Counts | internal/builder/steps.go:77-82 | the loop returns the number of completed steps and the wrapped sum of stage totals, in any map order |
| BuildSteps.StepCounter.CurrentInstruction | internal/builder/steps.go:64-74 | the backward loop finds that step's instruction, or the latest one |
| BuildSteps.StepCounter.Observe | internal/builder/steps.go:36-61 | the whole new state, from the text of the line, and the answer is true exactly when a count or the current instruction changed |
| BuildLog.StartedAre | internal/builder/steps.go:40-52 | over every log, the started steps are exactly the first accepted step line of each vertex, in the order of the log, with its key and instruction |
| BuildLog.CompletedAre | internal/builder/steps.go:54-58 | over every log, a step is completed exactly when a status line of a vertex followed that vertex's latest step line with this key |
| BuildLog.TotalsAre | internal/builder/steps.go:44-48 | over every log, the total of a stage is the largest that was announced for it |
| BuildLog.CurrentIs | internal/builder/steps.go:64-74 | over every log, the reported instruction is that of the latest started step that no status line completes, else of the latest started one, and empty without any |
| BuildProgress.CompletedBound | internal/builder/steps.go:77-82 | completed keys lying under their stage totals number at most the sum of the totals |
| BuildProgress.CompletedWithinTotal | internal/builder/steps.go:36-61 | over every log with canonical indexes completed never exceeds total |
| BuildProgress.NeverGoesBack | internal/builder/steps.go:36-61 | no line reduces the completed steps or the exact total |
| BuildProgress.ReportedTotalIsExact | internal/builder/steps.go:77-82 | the reported total is exact precisely while it fits an int |
| BuildProgress.ReportedTotalCanWrap | internal/builder/steps.go:77-82 | a log of two lines suffices to make the reported total negative |
| BuildProgress.PaddedIndexOvercounts | internal/builder/steps.go:40-50 | every index that is not canonical and not zero has a log of text lines in which completed exceeds total |
| BuildProgress.SafeExactlyWhenCanonical | internal/builder/steps.go:40-50 | an index text is harmless in every log of text lines exactly when it is canonical or reads as zero |
| BuildProgress.KeyTextInjective | internal/builder/steps.go:46-50 | stage and index can be read back from a step key |
| Attention.LeadingRun | internal/dashboard/service.go:410-456 | the longest prefix of a group that needs attention |
| Attention.TopSeverity | internal/dashboard/service.go:437-440 | a severity of the run with the highest rank |
| Attention.KeysAre | internal/dashboard/service.go:417-422 | a key is listed exactly when it has events in the window |
| Attention.KeysDistinct | internal/dashboard/service.go:417-422 | no key is listed twice |
| Attention.SortIsStable | internal/dashboard/service.go:449-451 | the sort orders by latest event, keeps every item, and keeps items of one time in their order |
| Attention.AdvanceIsSpec | internal/dashboard/service.go:417-440 | one step of the loop turns the group of the events seen into the group of one more |
| Attention.CollectGroups | internal/dashboard/service.go:411-441 | the pass leaves for each key the item of its leading run, closed once the run has ended |
| Attention.AggregateAttention | internal/dashboard/service.go:410-456 | one item per key whose window starts with events needing attention, with run length, highest severity and head; sorted stably; the first eight |
| Attention.NewestFirstNeedsNoSort | internal/dashboard/service.go:449-451 | on newest-first events the items are in order already and the sort changes nothing |
| AttentionItems.ShownAre | internal/dashboard/service.go:410-488 | told from the events alone: one item for each event in the window that is the first of its group and needs attention, with its category, key, the number of events that follow it without a recovery and the worst severity among them; newest first, ties in the order of the events, at most eight |
| TraceUsage.AddTraceTokens | internal/agentobservability/usage.go:126-131 | the exact sum, or nothing when a value is negative or the sum does not fit |
| TraceUsage.AggregateTraceBreakdown | internal/agentobservability/usage.go:133-139 | a missing, invalid or overflowing part ends a breakdown for good |
| TraceUsage.PartsFit | internal/agentobservability/usage.go:60-74 | a span's valid cache counts fit its input together, its reasoning its output |
| TraceUsage.NoBreakdownOverflow | internal/agentobservability/usage.go:76-78 | the overflow branch of a breakdown is never taken once input and output sums fit |
| TraceUsage.CacheParts | internal/agentobservability/usage.go:60-71 | the in-order checks discard exactly the cache counts that exceed the input alone or together |
| TraceUsage.AggregateTraceTokenUsage | internal/agentobservability/usage.go:29-95 | there is an answer exactly when something was reported, all of it is usable and both sums fit an int64; sums are exact, and a breakdown is given exactly when every counted span has it |
| TraceUsage.TotalIgnoresOrder | internal/agentobservability/usage.go:35-78 | sums do not depend on the order of spans |
| TraceUsage.OrderDoesNotMatter | internal/agentobservability/usage.go:29-95 | neither does whether there is an answer, nor any breakdown |
| TraceUsage.UsageIsConsistent | internal/agentobservability/usage.go:80-95 | cache read and write together fit the input, reasoning fits the output, and a hit rate exists exactly for positive input with a cache-read total and lies in 0 to 100 |
| ReportedUsage.AnswersExactly | internal/agentobservability/usage.go:35-82 | told from the attributes as text: there is an answer exactly when an assistant's model call matters, every one that does has a known status and two numbers, and both sums fit an int64 |
| ReportedUsage.AnswerIs | internal/agentobservability/usage.go:43-92 | each number of an answer adds up what its own attribute says in every span that matters; a breakdown exists exactly when each of them reports an admissible part |
| ReportedUsage.HitRateIs | internal/agentobservability/usage.go:21-27 | the hit rate is the part of the input that was read from the cache, in percent |
| SearchPattern.EscapedMatchesItself | internal/agentobservability/conversation_store.go:333-336 | an escaped keyword followed by more pattern matches exactly itself followed by more text |
| SearchPattern.PercentSkips | internal/agentobservability/conversation_store.go:333-336 | a leading percent sign matches any number of characters |
| SearchPattern.SearchIsExact | internal/agentobservability/conversation_store.go:527-530 | for all texts the pattern is well formed and matches exactly those that contain the keyword |
| SearchPattern.ListedExactly | internal/agentobservability/conversation_store.go:527-531 | a row is listed exactly when the search is blank or one of the lower-cased columns contains the lower-cased, trimmed search |
| ToolValues.SanitizeToolValue | internal/agentobservability/conversation_store.go:902-938 | the recursion returns one of the specified results |
| ToolValues.SanitizeFields | internal/agentobservability/conversation_store.go:921-934 | for every map order up to fifty keys, none sensitive, and all of them when there are no more |
| ToolValues.ResultIsPresentable | internal/agentobservability/conversation_store.go:902-938 | no result holds a sensitive key at any depth, goes deeper than six levels or exceeds a size limit |
| ToolValues.PresentableIsFixed | internal/agentobservability/conversation_store.go:902-938 | a value within the limits has itself as its only result, whatever order its maps are walked in |
| ToolValues.SanitizingIsIdempotent | internal/agentobservability/conversation_store.go:902-938 | cleaning twice is cleaning once, whichever orders the two walks take |
| ToolValues.CleanedAt | internal/agentobservability/conversation_store.go:902-950 | at every place of a result stands the cleaned value of that place: texts cut at 2000 bytes, lists at 50 items, maps without keys that contain one of nine words and with at most 50 fields; at the sixth level a mark, and nothing deeper |
| ConversationLoops.BuildConversationLoops | internal/agentobservability/conversation_store.go:833-843 | loops flatten back to the items, are numbered from one, are never empty, and begin at reasoning summaries and nowhere else |
| ConversationLoops.CutIsUnique | internal/agentobservability/conversation_store.go:833-843 | only one list of loops has these properties |
| ConversationLoops.CutsAtSummaries | internal/agentobservability/conversation_store.go:833-843 | only the first item of a loop is a reasoning summary, and only the first loop may begin without one |
| ConversationLoops.AssistantMessageFromLoops | internal/agentobservability/conversation_store.go:845-855 | the message read loop by loop is that of the items in order, joined with newlines |
| ConversationLoops.MessagesAre | internal/agentobservability/conversation_store.go:845-855 | the messages are exactly the texts of the assistant's message items that are not blank, in order |
| ConversationLoops.JoinSplits | internal/agentobservability/conversation_store.go:854 | joining puts the separator between texts and nowhere else |
| HookMetadata.QuotedReadsBack | internal/builder/payload.go:62-64 | a shell reads a quoted text back, with quotes and newlines inside, unless it holds a NUL |
| HookMetadata.AssignmentReadsBack | internal/builder/payload.go:54-59 | one line sets one variable and leaves the rest of the file to be read |
| HookMetadata.SourcingRecoversTheHook | internal/builder/payload.go:45-60 | for every hook the dot command sets exactly the four variables to name, normalised shell, timeout and policy, running and expanding nothing, unless name or policy holds a NUL |
| HookMetadata.ActiveIsRefused | internal/builder/executor/run.sh:73 | nothing that a shell would act upon is read as text outside quotes |
| ImageReference.SanitizeImageTag | internal/imageref/imageref.go:256-277 | the loop cleans, trims and cuts as specified |
| ImageReference.TagsAreValid | internal/imageref/imageref.go:256-277 | every result matches the tag grammar of the OCI Distribution Specification |
| ImageReference.ValidTagsAreKept | internal/imageref/imageref.go:256-277 | a tag is kept exactly when it matches the grammar and does not end in a dot or dash |
| ImageReference.SplitExactly | internal/imageref/imageref.go:151-165 | splitting name:tag gives name and tag back exactly when the name has no at sign, no leading white space and no slash at either end |
| ImageReference.SlashIsDoubled | internal/imageref/imageref.go:29-43 | a host that ends in a slash is printed with two slashes and prefixed with one |
| ImageReference.SlashHostExample | internal/imageref/imageref.go:29-43 | for example registry.local/ |
| ImageReference.ImageRefRoundTrip | internal/imageref/imageref.go:29-43 | the same for what BuildImageRef prints; its name is that of BuildImageNamePrefix exactly unless the host is written and ends in a slash |
| ImageNames.TagIs | internal/imageref/imageref.go:256-277 | a tag is the text between its first and last letter, digit or underscore, cut at 128 characters, with dashes for what may not stand in a tag, and latest without any |
| ImageNames.SplitIs | internal/imageref/imageref.go:151-165 | split off is what stands behind the first at sign, or else behind the last colon if no slash follows; slashes around the rest are dropped |
| ImageNames.HostIs | internal/imageref/imageref.go:251-254 | a repository names its own registry exactly when its first part holds a dot or a colon or is localhost |
| ImageNames.ImageRefIs | internal/imageref/imageref.go:29-43 | the registry's own host goes before a repository that names none, except on Docker Hub, and the tag behind |
| ExtractedText.NormalizeExtractedText | internal/aitool/web.go:462-487 | the flag-driven loop puts between words the separator of the white space between them, and its final trim removes nothing |
| ExtractedText.CompactStep | internal/aitool/web.go:467-485 | one more character changes the result by what the loop appends |
| ExtractedText.NormalizedExactly | internal/aitool/web.go:462-487 | every result is tidy: spaces only after words, never three newlines; the texts left alone are exactly the tidy ones; twice is once |
| ExtractedText.NormalizedKeepsWords | internal/aitool/web.go:462-487 | every character that is not white space survives, in order |
| LineBreaks.WindowsBreakDoubles | internal/aitool/web.go:467-485 | between any two words a newline stays one and a Windows line break becomes two |
| LineBreaks.WindowsBreakExample | internal/aitool/web.go:467-485 | a CR LF b gives an empty line between a and b, a LF b does not |
| LineBreaks.SameSeparator | internal/aitool/web.go:467-485 | white space separates like its plain-newline form exactly unless a Windows line break is its only line break |
| LineBreaks.NormalizedUnix | internal/aitool/web.go:462-487 | a text normalises like its plain-newline form exactly when no white space inside it has a Windows line break as its only line break |
| CommitMessage.EncodeChar | internal/model/build.go:147-149 | only the first byte of a character is no continuation byte |
| CommitMessage.EncodeCharReads | internal/model/build.go:147-149 | the bytes of a character read back as its code point, in the shortest form |
| CommitMessage.FittingIsLongest | internal/model/build.go:146-150 | the longest prefix of whole characters within the limit |
| CommitMessage.CutAtCharacter | internal/model/build.go:141-151 | stepping back over continuation bytes cuts valid UTF-8 to that prefix |
| CommitMessage.NormalizeSourceCommitMessage | internal/model/build.go:141-151 | trimmed, cut to the longest fitting prefix when too long, and trimmed again |
| CommitMessage.NormalizedFits | internal/model/build.go:141-151 | the result has at most 4096 bytes, and normalising it again changes nothing |
| CommitMessage.NormalizedIsPrefix | internal/model/build.go:141-151 | the result is the longest prefix of the trimmed text within 4096 bytes, trimmed again |
| BuildEnvironment.WinningIsLast | internal/buildenv/environment.go:52-74 | the winning binding of a key is that of the last scope that binds it |
| BuildEnvironment.Snapshot.ApplyVariables | internal/buildenv/environment.go:60-66 | for every map order a scope's valid keys become public and no longer secret, all others stay |
| BuildEnvironment.Snapshot.ApplySecretRefs | internal/buildenv/environment.go:67-73 | then its usable secret references become secret and no longer public |
| BuildEnvironment.Snapshot.Apply | internal/buildenv/environment.go:53-74 | after any number of scopes the snapshot answers for each key as the last scope that binds it, and no key is both public and secret |
| BuildEnvironment.Snapshot.Resolve | internal/buildenv/environment.go:76-94 | a build sees each winning variable and each winning secret that resolves, nothing else, and exactly the values of its secrets are masked |
| BuildEnvironment.SeenIs | internal/buildenv/environment.go:17-94 | told from the scopes: a build sees the secret or variable of the last scope that gives a usable key one, and nothing for an empty secret or a key without a value |
| WebProxies.Service.NextWebProxy | internal/aitool/web.go:223-240 | the cursor's place in the pool, and the cursor moves on, wrapping at 64 bits, unless there is no provider, no readable pool or an empty one |
| WebProxies.Service.Serve | internal/aitool/web.go:223-240 | repeated requests use each place as often as the specification counts |
| WebProxies.OneRound | internal/aitool/web.go:238-239 | as many consecutive requests as there are proxies use each once |
| WebProxies.RoundRobinIsEven | internal/aitool/web.go:238-239 | over any run use counts differ by at most one, by at most two if the cursor wraps on the way |

## Left out

- Text.BlankIffTrimmedAway: texts are sequences of code points; bytes that are not valid UTF-8 are not modelled, here or in any module about text.
- Ledger.Database.ApplyWalletTransaction: reasons, descriptions, actors, identifiers and timestamps of entries are not modelled, nor is overflow of numeric(24,8).
- Ledger.Database.DebitUsages: the other Settle functions of internal/billing/usage.go are represented only by the keyed debits they produce.
- AIUsage.SelectPending: identifiers are compared by code point, as PostgreSQL does under the C collation.
- AIUsage.RecordsConserveCost: token counts are unbounded integers, so int64 wrap of cached plus cache-write tokens is not modelled; the database's division by a million is exact.
- BillingRuns.StepKeeps: a transaction is one atomic step. Row locks, isolation levels and the unique index on usage records are represented by that atomicity; two payers racing for one key are two steps in some order.
- BillingRuns.DeleteRunsStep: which runs a conversation holds and whether it belongs to the caller are inputs; a run with a usage restricts the deletion, which then changes nothing.
- GatewayProbe.Collector.ScrapeAndReport: counters are natural numbers rather than floats, times are whole minutes, route discovery and HTTP are inputs, and request counts are carried but not billed.
- GatewayBilling.WindowIsReceived: the division of bytes into GiB is exact, where the decimal library keeps sixteen digits. Authentication, the parsing of times and the lookups of the route and its rate are inputs.
- RouteRefresh.RefreshIsSafeExactly: is about two consecutive scrapes; a route that had no metrics but an older baseline is covered by the condition on jumps alone.
- GatewayRuns.NothingIsLost: says nothing about scrapes within one minute of the baseline, which move the baseline and report nothing.
- MetricAttribution.CountersFromMetricFamilies: lower-casing and the Unicode letter and digit tables are inputs; float rounding of sums is not modelled.
- ProjectTopology.ProjectView: the kind of a node, always an application, is left out, and warnings are named rather than coded texts.
- Attention.AggregateAttention: titles, links and entity references of an item are reduced to its latest event.
- TraceUsage.AggregateTraceTokenUsage: the hit rate is an exact ratio rather than a float.
- SearchPattern.ListedExactly: lower-casing, by the program and by the database, is an input, and so is the query behind a column.
- ToolValues.SanitizeToolValue: lower-casing is an input; JSON decoding is not modelled, and numbers, booleans and null are one kind of scalar.
- HookMetadata.SourcingRecoversTheHook: the shell is modelled for files of assignments only; anything that would expand, substitute or run is counted as failure.
- ImageReference.ImageRefRoundTrip: URL parsing of the endpoint, the template engine for tags and repositories, and digests as image references are inputs or absent.
- CommitMessage.NormalizeSourceCommitMessage: trimming is trimming of the text, which for valid UTF-8 is what trimming the bytes does.
- BuildEnvironment.Snapshot.Apply: JSON decoding of the two maps is not modelled.
- TemplateInstalls.TemplateComponentServiceBindings: the references in the texts of a component are given as found, and its deployment target as planned; identifiers in use fail the install as a whole.
- BindingStore.VariablesStayDistinct: operations run one after another, as the check and the write are separate transactions; two concurrent ones can both pass the check. The resources behind identifiers, the deletion states of targets and JSON encodings are inputs or absent.
- WebProxies.Service.NextWebProxy: the lookup of the provider and the parsing of its pool are given by their outcome.
- Pagination, status enumerations, authorization tables and rate rules are not modelled: they would add members that case analysis settles.
- Everything that only moves data: SQL and the ORM, Redis, HTTP clients and handlers, Kubernetes, telemetry, configuration, e-mail and HTML parsing.
