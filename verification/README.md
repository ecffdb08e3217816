# Account risk protocol: model and proofs

A Dafny model of the account-level risk governor in `adaptive-risk`, of the cTrader entry guard that wraps
it, and of three broker adapters' hardest loops. `dafny verify dfyconfig.toml` checks the whole project.

The governor is a write-ahead state machine. A session holds one account's document under an exclusive lock,
reconciles it with a broker snapshot, reserves risk for a sized trade, records the request as submitted before
the order leaves, and lets the reservation go only on evidence. A write can fail before its rename, after it, or
not at all; a process can die between any two steps; a power loss can leave any document that was never safely
replaced; every restart begins unreconciled.

## How the model is built

| module | what it holds |
|---|---|
| `Decimals`, `Sums`, `Ordering`, `Outcomes` | exact arithmetic, sums over maps, lexicographic order, results |
| `Calendar`, `Policy`, `Exposures`, `Account` | trading days, tightening schedules, loss and sizing, documents and floors |
| `Reserved`, `Decision` | reserved risk, the gate, the five limits, the decision |
| `Streaks`, `Ledger`, `LedgerLaws` | losing streak, execution ledger, conservation and order-independence |
| `Store`, `Manager` | the atomic store; the session's operations, as functions on (document, disk) and as the class that performs them |
| `Evolution`, `Runs` | one relation that every step keeps; runs of sessions, crashes, power losses and restarts |
| `Safety`, `Latches`, `Headroom` | the theorems over whole runs |
| `Approvals`, `Answers`, `Closings` | each answer written out without the functions that compute it: what an approval is worth, what every session operation answers and leaves, when a setup is sealed |
| `Restarts` | a restart waits: nothing is approved or submitted until a reconciliation succeeds |
| `Reachability`, `Counterexamples` | a run that approves and submits; inputs on which a promise fails |
| `Instances` | the answers on one account, in numbers |
| `Guards` | the guard's life around one protected pending-order entry |
| `Pagination`, `Mt5`, `Ibkr` | backwards history paging, MT5 closure agreement, IBKR whole-contract sizing |

`RiskState`, `RiskSession`, `RiskManager`, `LockedStore`, `SubmissionEvidence` and `Guard` are classes whose
methods update fields as the original objects do. Each method's contract equates its new state and result with
the operation's function on the old state, and the theorems are proved about those functions. The loops of
`reserved_risk`, `close_setup`, `rebuild_streak` and `position_history` are loops with invariants, proved
against definitions that mention no order and no loop.

Because those functions are definitions, every answer that matters is pinned a second time, by a statement that does
not name the definition: amounts by the tiers and floors they come from, refusals by the first condition that fails,
new documents field by field, and the losing streak, sealing and reserved total by what one more entry changes.
`Instances` carries them to numbers.

A run is any sequence of events with any outcome of every write, its own loss rule in every call, and any tokens,
including cloned, stale and forged ones. A fact "holds in a world" when it holds of the session's document and of every document a
power loss could bring back.

## What turned out to be different from what is promised

- **A refused reconciliation can be half done.** The evidence is adopted before the floors are computed and before
  the second write (`adaptive-risk/src/manager.rs:112-117`, `149-170`), so an error can return with resolved
  reservations already dropped in memory and, on a new day, with the daily lock cleared. For every rule, a refusal
  has changed nothing but the flag exactly when it was turned away before adopting (first write failed, or snapshot
  not accepted), or there was nothing to adopt and either the rule failed or there was nothing to judge
  (`Latches.RefusedReconciliationIff`). It happens with the standard rule when the second write fails
  (`Counterexamples.RefusedBySecondWrite`) and with a custom rule that fails (`Counterexamples.RefusedByRule`).
- **A lock or an invalidation outlives a power loss exactly when its write was reported successful**
  (`Latches.LockSurvivesIffReported`, `Latches.InvalidationSurvivesIffReported`). "Latch indefinitely" in
  `adaptive-risk/README.md:19` is true of reported writes only.
- **Monotone de-risking needs equity at or below its own high-water mark**, because equity above it is refused as
  inconsistent: approved volume falls with equity exactly when the higher equity is within its mark or nothing is
  approved at the lower one (`Decision.DeriskingIff`). `Counterexamples.FallingEquityCanApprove` is a fall from
  10001 to 10000 that raises the approved volume from 0 to 8.
- **After a submission the order's own reservation keeps its authorized risk**, so the total can exceed the fresh
  headroom, by at most what re-pricing saved (`Headroom.ReservedAfterSubmission`); in
  `Counterexamples.ReservedCanExceedHeadroom` it counts 96 against a headroom of 60.
- **Trading days tile if the zone's clock never falls back more than a day**, which every zone whose offsets differ
  by at most a day satisfies (`Calendar.NearbyOffsetsNeverRewind`). The condition is not necessary
  (`Calendar.RewindingDaysTile`), but it cannot simply be dropped: `Calendar.DaysCanOverlapOtherwise` gives a
  made-up table, with offsets no IANA zone has, for which two days overlap.
- **A paged history can keep a row twice.** The sort is by id alone and only neighbours are compared, so two rows
  that share an id (rows without one all count as id 0) and a time can be delivered as one, page break, other, one.
  Against brokers that list newest first, a completed history repeats nothing exactly when no two different rows
  share a key and a time earlier than `now` (`Pagination.NoRepeatsIff`); the failing delivery is constructed in
  `Pagination.TiedRowsRepeat`.
- **An MT5 attempt that was given a position can disagree with the settlement of its order**, exactly when the
  orders did not open that position or a live position of another symbol carries its ticket
  (`Mt5.SettlementAgrees`); `Mt5.HintedAttemptCanDisagree` is an instance.
- **Cutting an IBKR size to whole contracts keeps the exchange's grid and minimum exactly when the increment is a
  whole number of contracts or a whole fraction of one** (`Ibkr.GridKeptIff`); with steps of 1.5 an order of 1 is
  produced (`Ibkr.HalfStepsGoBelowTheMinimum`).
- **A literal IBKR size is capped only at a positive rate** (`Ibkr.LiteralSizesNeedARate`).

## Model

| member | source | states |
|---|---|---|
| Calendar.InstantsComplete | adaptive-risk/src/calendar.rs:41-47 | the candidates for a local time are exactly the instants whose wall clock shows it, so `single` is unambiguous existence |
| Calendar.DayAtIff | adaptive-risk/src/calendar.rs:30-54 | an instant has a day iff its date's reset and the next each happen at exactly one instant and it lies between them, the first included |
| Instances.WinterDays | adaptive-risk/src/calendar.rs:30-54 | in New York every winter day has 24 hours from 22:00 universal time, and an instant at the reset begins the new day |
| Instances.SpringDay | adaptive-risk/src/calendar.rs:30-54 | the day the clock goes forward has 23 hours |
| Instances.MissingResetHasNoDay | adaptive-risk/src/calendar.rs:41-47 | a reset at 02:30 does not happen on that day, and neither the day it would begin nor the one it would end exists |
| Calendar.BoundariesIncrease | adaptive-risk/src/calendar.rs:41-51 | a later date's reset is a later instant |
| Calendar.DaysTile | adaptive-risk/src/calendar.rs:30-54 | a day contains its instant; two days are equal or disjoint; every instant of a day that has a day at all has that day |
| Calendar.NearbyOffsetsNeverRewind | adaptive-risk/src/calendar.rs:30-54 | the hypothesis under which days tile holds of every zone whose offsets differ by at most a day |
| Calendar.DaysCanOverlapOtherwise | adaptive-risk/src/calendar.rs:30-54 | that hypothesis cannot simply be dropped: a made-up offset table, of no IANA zone, for which two days overlap |
| Calendar.RewindingDaysTile | adaptive-risk/src/calendar.rs:30-54 | nor is it necessary: a made-up clock that falls back two days, whose days tile because repeated resets are ambiguous |
| Policy.LastReachedIsBand | adaptive-risk/src/policy.rs:184-205 | the backward search of a valid schedule finds the one tier whose half-open band holds the argument |
| Policy.SchedulesTighten | adaptive-risk/src/policy.rs:157-205 | more losses never earn a larger multiplier, a deeper drawdown never a larger allowance |
| Policy.ValidExactlyWhen | adaptive-risk/src/policy.rs:120-183 | everything validation asks of a policy, and nothing else |
| Exposures.LossMonotone | adaptive-risk/src/exposure.rs:27-65 | all-in loss is never negative and never falls as volume rises |
| Exposures.PricedIff | adaptive-risk/src/exposure.rs:27-45 | a unit can be priced iff a positive stop lies on the losing side of a positive price and every factor and charge is sound |
| Exposures.UnitLossIsAllIn | adaptive-risk/src/exposure.rs:46-57 | a unit loses the way to its stop, its costs, and slippage on that way or on a ten-thousandth of the notional if greater |
| Exposures.RiskIsAllIn | adaptive-risk/src/exposure.rs:111-124 | an exposure risks its volume and fixed costs, surcharged exactly when it overlaps |
| Exposures.LossWithinBudget | adaptive-risk/src/exposure.rs:59-91 | a volume's all-in loss is within budget iff the volume is within the quotient that sizing divides out |
| Exposures.SizeIsGreatest | adaptive-risk/src/exposure.rs:74-99 | sizing returns the greatest grid volume in bounds whose loss fits the budget, and fails exactly when there is none |
| Exposures.SizeMonotone | adaptive-risk/src/exposure.rs:74-99 | a smaller budget never buys more and never turns a refusal into an approval |
| Exposures.RoundedSizeIsWithinBudget | adaptive-risk/src/exposure.rs:88-98 | however division rounds, a returned size is on the grid, at or above the minimum and within budget; if it never rounds up, within every bound |
| Account.StandardFloorsOrdered | adaptive-risk/src/account.rs:142-171 | policy validation keeps both internal floors strictly between the firm's floor and the reference |
| Account.EnrolledIsFunded | adaptive-risk/src/account.rs:81-117 | an enrolled account has positive references and high-water marks no lower than its initial balance |
| Account.EnrollsExactlyWhen | adaptive-risk/src/account.rs:81-117 | when an account can be enrolled, and the document it starts with, field by field |
| Account.StandardReferences | adaptive-risk/src/account.rs:143-157 | which values risk, drawdown and the day are measured from under each setting |
| Account.FloorsBelowReferences | adaptive-risk/src/account.rs:158-169 | each floor lies its own percentage of the allowance below its reference; the safety buffer never decides |
| Reserved.GroupExposures | adaptive-risk/src/decision.rs:113-129 | the first loop accepts exactly the countable exposures and yields each request's sum and the rest |
| Reserved.ChargeReservations | adaptive-risk/src/decision.rs:130-137 | the second loop charges every reservation the larger of its risk and its fragments, failing iff one is unsound |
| Reserved.SumReservedRisk | adaptive-risk/src/decision.rs:109-141 | the loops compute the order-free total: unlinked exposures plus one charge per request |
| Reserved.CountableMeaning | adaptive-risk/src/decision.rs:113-123 | what is counted has no repeated broker id, no unpriced exposure, and none for a resolved request |
| Reserved.ReservedRiskExists | adaptive-risk/src/decision.rs:109-141 | there is a total iff broker ids are distinct, every exposure is priced and not resolved, and every reservation is sound |
| Reserved.ExposureAdds | adaptive-risk/src/decision.rs:113-140 | one more exposure adds its whole risk, unless its request is reserved: then that request's charge becomes the larger of reservation and fragments |
| Reserved.FragmentsAdd | adaptive-risk/src/decision.rs:119-125 | a request's fragments sum each exposure that carries it, and no other |
| Reserved.ReservedWithoutExposures | adaptive-risk/src/decision.rs:130-137 | with nothing at the broker the total is the sum of the reservations |
| Instances.UnlinkedExposureBlocks | adaptive-risk/src/decision.rs:126-127 | a position of 60 without a request is counted, and blocks the next trade for the daily budget |
| Reserved.ReservingAddsAtMost | adaptive-risk/src/decision.rs:130-141 | a new reservation adds at most its own risk, exactly that when the broker shows nothing for it |
| Reserved.ReleasingNeverAdds | adaptive-risk/src/decision.rs:130-141 | dropping reservations never raises the total |
| Reserved.ReservationsCountedInFull | adaptive-risk/src/decision.rs:107-141 | each reservation is counted at no less than its reserved risk, and the total is at least the sum of them |
| Decision.DecideTrade | adaptive-risk/src/decision.rs:142-193 | the decision made with the summing loops is the decision the theorems below are about |
| Decision.BudgetWithinLimits | adaptive-risk/src/decision.rs:226-253 | the budget is within all five limits, and when positive fits both headrooms on top of what is reserved |
| Decision.ApprovalIsCovered | adaptive-risk/src/decision.rs:142-293 | an approval passed every gate; its amount is the loss of its volume, within every limit, and with everything reserved fits above both internal floors |
| Decision.ApprovalIsGreatest | adaptive-risk/src/decision.rs:189-293 | past the gate a trade is approved iff some grid volume's surcharged loss fits the tightest of the five limits, and the greatest such volume is approved |
| Approvals.TiersInForce | adaptive-risk/src/policy.rs:184-205 | a valid policy always has a streak factor and a drawdown percentage in force |
| Approvals.ApprovedExactlyWhenBuyable | adaptive-risk/src/decision.rs:194-281 | past the gate a trade is approved iff some grid volume's all-in loss is within the requested risk, base risk, base risk times the streak tier's factor, the drawdown tier's percentage and both internal headrooms, all written out; the greatest such volume is approved |
| Approvals.ApprovalWithinTiers | adaptive-risk/src/decision.rs:227-239 | every approval is within base risk times the factor of the tier that holds the losses, and within the percentage of the tier equity has fallen into |
| Instances.ThreeLosses | adaptive-risk/src/decision.rs:229-235 | after three losses 2 units at 24 are approved where 8 were |
| Instances.DrawdownTier | adaptive-risk/src/decision.rs:212-239 | at a drawdown of exactly 2.5 percent 4 units at 48 are approved |
| Instances.BeforeTheDrawdownTier | adaptive-risk/src/decision.rs:212-239 | a hundredth above it 8 units at 96 are |
| Approvals.GateReasons | adaptive-risk/src/decision.rs:150-188 | the reason for each refusal before any risk is computed, by the first condition that fails |
| Approvals.SnapshotAnswers | adaptive-risk/src/decision.rs:69-106 | each fault of a snapshot, by the first condition that fails, and usability iff none does |
| Approvals.RefusalReasons | adaptive-risk/src/decision.rs:249-271 | a refusal past the gate names the tightest limit iff nothing is left of it, and otherwise the minimum volume |
| Approvals.InvalidExposureExactlyWhen | adaptive-risk/src/decision.rs:189-211 | past the gate an invalid exposure is answered iff the rule fails, a reference or floor is unsound, or exposures cannot be counted |
| Decision.ApprovalExplainsItself | adaptive-risk/src/decision.rs:249-292 | an approval's reasons are exactly the binding limits, first tie named; its percentages restore the amounts they stand for |
| Decision.LimitsShrink | adaptive-risk/src/decision.rs:212-248 | falling equity and more losses shrink each of the five limits |
| Decision.Derisking | adaptive-risk/src/decision.rs:142-293 | approved volume (0 when blocked) never rises when equity falls or the streak grows |
| Decision.DeriskingIff | adaptive-risk/src/decision.rs:83-89 | approved volume does not rise when equity falls and the streak grows, iff the higher equity is within its high-water mark or nothing is approved at the lower |
| Counterexamples.FallingEquityCanApprove | adaptive-risk/src/decision.rs:83-89 | a fall in equity from above its mark that raises the approved volume from 0 to 8 |
| Streaks.ReplayLatest | adaptive-risk/src/ledger.rs:126-136 | one saturating replay step with the latest outcome moves the count as the order-free definition says |
| Streaks.SortIsAscending | adaptive-risk/src/ledger.rs:124-125 | sorting puts the same outcomes in strict (closed_at, setup_id) order |
| Streaks.ReplayStreak | adaptive-risk/src/ledger.rs:123-137 | the replayed streak is the number of losses after every resetting outcome, saturated, whatever the map's order |
| Closings.LatestOutcomeMoves | adaptive-risk/src/ledger.rs:123-137 | the latest outcome adds one loss, saturating, or ends the streak if it is a win and wins reset, or a break-even and those do; otherwise it stands |
| Closings.NoOutcomesNoStreak | adaptive-risk/src/ledger.rs:123-137 | without outcomes there is no streak |
| Ledger.RiskState.OnExecution | adaptive-risk/src/ledger.rs:24-43 | the whole new document and result, including the error paths |
| Ledger.RiskState.RecordExecution | adaptive-risk/src/ledger.rs:44-61 | missing identity, conflict, duplicate and late executions each leave the ledger as it was |
| Ledger.RiskState.CloseSetup | adaptive-risk/src/ledger.rs:76-122 | the whole new document: the outcome is sealed and the streak recomputed exactly when the setup is complete, flat and new |
| Ledger.SealSetup | adaptive-risk/src/ledger.rs:83-114 | the tallying loop decides and computes the order-free sealing: net of all events, every position opened and flat |
| Closings.ExecutionAnswers | adaptive-risk/src/ledger.rs:44-61 | each answer to an execution, by the first of its faults |
| Closings.ExecutionLeaves | adaptive-risk/src/ledger.rs:24-61 | an execution is added iff identified, new and of no sealed setup; a new one, even refused, invalidates up to its time and the last reconciliation; nothing else changes |
| Closings.SealAnswers | adaptive-risk/src/ledger.rs:83-114 | sealing written out: executions none later than the close, every position opened and flat, the sum of results |
| Closings.ClosingExactlyWhen | adaptive-risk/src/ledger.rs:64-122 | a closing seals an unsealed setup iff its members are terminal, it has executions, none is later than the close, and each position was opened and nets to zero; each other case has its own error |
| Instances.ClosedAtItsLastExecution | adaptive-risk/src/ledger.rs:83-119 | a setup closed at the very time of its last execution is sealed, and its loss counted |
| Instances.ChargesAloneAreNotSealed | adaptive-risk/src/ledger.rs:106-109 | a setup of charges alone is not sealed |
| LedgerLaws.SealedSetupConservation | adaptive-risk/src/ledger.rs:83-119 | a sealed result is the sum over all executions recorded for the setup; its positions were opened and net to zero; none is later than the close |
| LedgerLaws.ExecutionKeepsConservation | adaptive-risk/src/ledger.rs:24-61 | no execution, valid or not, breaks a sealed setup |
| LedgerLaws.ClosingKeepsConservation | adaptive-risk/src/ledger.rs:64-122 | no closing attempt breaks one either, and the streak stays the one the outcomes define |
| LedgerLaws.DeliveryConverges | adaptive-risk/src/ledger.rs:24-61 | any order and repetition of the same non-conflicting executions reaches the same document |
| LedgerLaws.ConflictsKeepTheFirst | adaptive-risk/src/ledger.rs:51-54 | conflicting versions are the exception: the first to arrive is kept and the other refused |
| LedgerLaws.SealingConverges | adaptive-risk/src/ledger.rs:64-137 | sealing the same setups in any order gives the same outcomes, streak and risk multiplier |
| Store.LockedStore.Save | adaptive-risk/src/store.rs:69-79 | what is visible, and what a power loss can bring back, after each way a save can end |
| Store.SaveIsAtomic | adaptive-risk/src/store.rs:69-79 | a reported save leaves only the new document, a failed one the old or the new, and none leaves neither |
| Manager.RiskManager.Begin | adaptive-risk/src/manager.rs:43-51 | a session starts iff the stored account and policy are the manager's and the policy is valid, from the stored document flagged as unreconciled |
| Manager.RiskSession.Persist | adaptive-risk/src/manager.rs:54-60 | a failed write leaves the session needing reconciliation |
| Manager.RiskSession.LatchStops | adaptive-risk/src/manager.rs:64-82 | the new document and disk: locks are only ever added |
| Manager.RiskSession.Disconnect | adaptive-risk/src/manager.rs:98-105 | the new document and disk: everything up to the last reconciliation is invalidated |
| Manager.RiskSession.Adopt | adaptive-risk/src/manager.rs:149-156 | the evidence adopted: day, daily lock, reservations, high-water marks |
| Manager.RiskSession.Reconcile | adaptive-risk/src/manager.rs:106-171 | the new document, disk and error of a reconciliation, through both of its writes |
| Manager.RiskSession.Authorize | adaptive-risk/src/manager.rs:172-209 | the new document, disk and token of an authorization, or its refusal |
| Manager.RiskSession.BeforeSubmit | adaptive-risk/src/manager.rs:212-259 | the new document, disk and error of a revalidation, through all three writes |
| Manager.RiskSession.RejectedWithoutFill | adaptive-risk/src/manager.rs:260-286 | the new document and disk of a release, only for a matching token |
| Restarts.BeginOpens | adaptive-risk/src/manager.rs:43-51 | a session opens iff the stored account and policy are the manager's, with the stored document flagged |
| Restarts.NothingUntilReconciled | adaptive-risk/src/store.rs:55-68 | over any run from a restart, nothing is authorized or submitted, and no session is enabled, before a reconciliation has succeeded |
| Instances.RestartBlocks | adaptive-risk/src/store.rs:66 | the trade a reconciled session approves is blocked for reconciliation in the session a restart opens |
| Answers.LatchLeaves | adaptive-risk/src/manager.rs:79-81 | a stop sets the locks it names and no other field |
| Answers.LedgerAnswers | adaptive-risk/src/manager.rs:83-97 | the session keeps what the ledger left; a failed write flags it and hides the ledger's answer |
| Answers.DisconnectLeaves | adaptive-risk/src/manager.rs:98-105 | a disconnection invalidates to the later of its mark and the last reconciliation, and nothing later |
| Answers.DisconnectRefusesOldSnapshots | adaptive-risk/src/manager.rs:98-105 | after a disconnection the snapshot last reconciled on, and any not newer, is refused |
| Answers.AcceptsAnswers | adaptive-risk/src/manager.rs:125-148 | each refusal of a snapshot, by the first condition that fails |
| Answers.ReconciledExactlyWhen | adaptive-risk/src/manager.rs:106-171 | a reconciliation succeeds iff both writes do, the snapshot meets every condition written out, and the rule has floors; it leaves the adopted and judged document, field by field |
| Instances.IncompleteIsRefused | adaptive-risk/src/decision.rs:75-78 | a snapshot that is incomplete, or without its setups, is not reconciled with |
| Answers.AuthorizedExactlyWhen | adaptive-risk/src/manager.rs:172-209 | an authorization is given iff the trade is approved and its write reported; the token and the new document, field by field |
| Answers.TokenAnswers | adaptive-risk/src/manager.rs:260-278 | a token is accepted iff account, policy, setup, amount and volume are the reservation's; each refusal by the first that is not |
| Answers.TermsChangedExactlyWhen | adaptive-risk/src/manager.rs:220-226 | after a matching token an order is refused for changed terms iff one of the fourteen fixed terms differs; price, conversion and costs may move |
| Instances.RatesMoveStopsDoNot | adaptive-risk/src/manager.rs:221-226 | a conversion that ticked is allowed, a moved stop is not |
| Answers.SubmittedExactlyWhen | adaptive-risk/src/manager.rs:212-259 | a submission is allowed iff the token matches, the order is the same, the snapshot reconciles, the order is still good and the third write is reported; the one reservation it marks |
| Answers.SubmissionRefusals | adaptive-risk/src/manager.rs:212-259 | each refusal in order, and the document it leaves |
| Answers.RecheckAnswers | adaptive-risk/src/manager.rs:236-256 | why the last look refuses: unpriced, risk grown, reservation gone, or sent before |
| Answers.ReleaseLeaves | adaptive-risk/src/manager.rs:281-286 | a matching rejection drops that reservation and raises the flag; any other changes nothing |
| Evolution.ReconciledAdvances | adaptive-risk/src/manager.rs:106-171 | every document a reconciliation leaves anywhere has evolved from the one before, losing only reservations resolved by an accepted snapshot |
| Evolution.AuthorizedAdvances | adaptive-risk/src/manager.rs:172-209 | the same of an authorization, which only ever adds a first attempt |
| Evolution.SubmittedAdvances | adaptive-risk/src/manager.rs:212-259 | the same of a submission |
| Evolution.SubmissionIsWrittenAhead | adaptive-risk/src/manager.rs:250-258 | an allowed submission found its reservation unsubmitted, and the only document that can survive records it as submitted |
| Runs.NextInherits | adaptive-risk/src/manager.rs:43-286 | whatever evolution preserves passes through every event, crash, power loss and restart |
| Safety.RunKeepsInvariant | adaptive-risk/src/manager.rs:43-286 | the inductive invariant of every run from enrolment |
| Safety.AtMostOnceSubmission | adaptive-risk/src/manager.rs:212-259 | no run allows the same request to be submitted twice |
| Safety.NoSilentRelease | adaptive-risk/src/manager.rs:138-154 | an authorized reservation is in every document that could be seen, with its risk and volume, until it is let go after its authorization |
| Safety.LetGoOnlyOnEvidence | adaptive-risk/src/manager.rs:119-154 | an authorized request is let go only while reserved as authorized, by a snapshot written ahead for, accepted, listing it as resolved and showing no exposure for it, or by a rejection with a matching token |
| Safety.LetGoIsGone | adaptive-risk/src/manager.rs:153-154 | what is let go has left the session's reservations |
| Safety.ReleasedOnEvidence | adaptive-risk/src/manager.rs:43-286 | over any run, a request authorized and let go was let go at one moment after its authorization, on such evidence |
| Safety.SubmittedMustBeExplained | adaptive-risk/src/manager.rs:138-147 | no reconciliation succeeds while a submitted request is neither resolved nor visible |
| Safety.EveryDocumentIsSane | adaptive-risk/src/ledger.rs:24-137 | in every reachable document setups are conserved, the streak is the one they define, and trading is enabled only past the last invalidation |
| Safety.SteadfastForever | adaptive-risk/src/manager.rs:43-286 | a fact evolution never undoes, once in every surviving document, holds ever after |
| Reachability.DefaultPolicyIsValid | adaptive-risk/src/policy.rs:60-118 | the default policy passes validation, New York's calendar included, with its clock changes around the epoch |
| Reachability.SubmissionIsReachable | adaptive-risk/src/manager.rs:43-259 | a run from enrolment under the default limits in which a trade is approved and submitted: the theorems about approvals are not empty |
| Latches.AccountLockIsForever | adaptive-risk/src/manager.rs:64-82 | no run clears the account lock or lowers a high-water mark |
| Latches.DayLockLastsItsDay | adaptive-risk/src/manager.rs:128-152 | a day locked everywhere stays locked, with its captured references, until a later trading day |
| Latches.DayReferenceIsConstant | adaptive-risk/src/manager.rs:128-152 | locked or not, a day's captured balance and equity never change within the day, over any run |
| Latches.OnlyReconcilingTurnsTheDay | adaptive-risk/src/manager.rs:149-152 | only a reconciliation written ahead and accepted turns the day or clears the daily lock, in any document |
| Latches.StoppingKeepsDays | adaptive-risk/src/manager.rs:43-51 | crashes, power losses and restarts leave every document's day and daily lock alone |
| Latches.StopsLatch | adaptive-risk/src/manager.rs:157-170 | a successful reconciliation at or below an internal floor leaves that lock in the one surviving document |
| Latches.LockSurvivesIffReported | adaptive-risk/src/manager.rs:79-81 | a manual lock survives a power loss iff its write was reported |
| Latches.NoApprovalOnAnOlderSnapshot | adaptive-risk/src/decision.rs:79-82 | past an invalidation no run approves a trade on a snapshot that is not strictly newer |
| Latches.InvalidationSurvivesIffReported | adaptive-risk/src/manager.rs:83-87 | a new execution invalidates its own time and the last reconciliation, durably iff the write was reported |
| Latches.RefusedReconciliationIff | adaptive-risk/src/manager.rs:106-171 | for every rule, a refused reconciliation has changed only the flag iff it was turned away before adopting, or there was nothing to adopt and the rule failed or nothing was left to judge |
| Latches.RefusalIsNamed | adaptive-risk/src/manager.rs:106-171 | past acceptance, a refusal is a rule failure exactly when the rule has no floors, and a storage error otherwise |
| Counterexamples.RefusedBySecondWrite | adaptive-risk/src/manager.rs:112-117 | under the standard rule, a failed second write returns with a reservation gone from memory that every durable document still holds |
| Counterexamples.RefusedByRule | adaptive-risk/src/manager.rs:149-157 | under a failing rule on a new day, the reservation and the daily lock are gone from memory and still durable |
| Headroom.ApprovedReservationIsCovered | adaptive-risk/src/manager.rs:188-201 | after reserving an approved trade, all reserved risk fits above both internal floors and strictly above the firm's, for every rule |
| Headroom.HeadroomKept | adaptive-risk/src/decision.rs:109-141 | what reserves nothing keeps that headroom |
| Headroom.HeadroomOverRuns | adaptive-risk/src/manager.rs:172-209 | over any run against one snapshot, restarts and power losses included, once anything is authorized all reserved risk fits above both internal floors in every document |
| Headroom.HeadroomIsAboveFirmFloors | adaptive-risk/src/account.rs:158-169 | within headroom, equity less reserved risk is strictly above both firm floors |
| Headroom.SubmissionIsCovered | adaptive-risk/src/manager.rs:212-259 | an allowed submission sends the reserved volume, re-priced at no more than was reserved, and with everything else reserved fits the fresh headroom |
| Headroom.ReservedAfterSubmission | adaptive-risk/src/manager.rs:250-258 | the total counting the order's own reservation exceeds that by at most what re-pricing saved |
| Counterexamples.ReservedCanExceedHeadroom | adaptive-risk/src/manager.rs:250-258 | a submission after which the total exceeds the fresh headroom |
| Guards.Guard.BeforeSubmit | broker-ctrader/src/protection.rs:59-96 | success leaves the request recorded as submitted in every surviving document |
| Guards.Guard.Outcome | broker-ctrader/src/protection.rs:97-103 | proven absence releases; anything else keeps the record |
| Guards.Guard.Drop | broker-ctrader/src/protection.rs:350-358 | releases exactly when transport never started |
| Guards.Guard.Transport | broker-ctrader/src/entry.rs:166-182 | what a started transport does to the reservation and tells the caller, in each of its endings |
| Guards.Guard.PlacePending | broker-ctrader/src/entry.rs:101-182 | an order is sent iff it was prepared, is no dry run and was revalidated; the reservation is released, once, iff nothing was sent or the reply is not-sent or rejected; otherwise the request stays recorded everywhere; what the caller is told is what the reply tells, or ambiguous |
| Guards.TellsOneThing | broker-ctrader/src/entry.rs:201-238 | every reply tells the caller exactly one thing |
| Guards.RevalidatedExactlyWhen | broker-ctrader/src/protection.rs:59-96 | an order goes out iff collection succeeded, the account stood still, the risk asked for has not fallen, and the session allows it |
| Pagination.PositionHistory | broker-ctrader/src/history.rs:40-87 | a history completes iff some walk of at most 1000 strictly earlier ends reaches a last page; it is then exactly the rows up to now in order of ids, each once under either condition on keys; a refusal names its own fault |
| Pagination.PatientHistoryCompletes | broker-ctrader/src/history.rs:49-87 | an honest broker whose every page reaches further back gives a complete history of fewer than 1000 different times |
| Pagination.PageCovers | broker-ctrader/src/history.rs:60-84 | each page extends what has been seen down to its oldest row |
| Pagination.NoRepeatsIff | broker-ctrader/src/history.rs:49-77 | completed histories of newest-first brokers repeat nothing iff no two different rows share a key and a time earlier than now |
| Pagination.TiedRowsRepeat | broker-ctrader/src/history.rs:72-75 | the delivery that repeats a row, for any two such rows |
| Mt5.SettlementAgrees | broker-mt5/src/history.rs:12-89 | an attempt's closed result is the settlement's iff the orders opened that position and no live position carries its ticket |
| Mt5.HintedAttemptCanDisagree | broker-mt5/src/history.rs:29-58 | a hinted attempt that reports a result where the settlement of its order reports no trade |
| Mt5.UnhintedAttemptsAgree | broker-mt5/src/history.rs:29-58 | with no hint and tickets unique across symbols they always agree |
| Mt5.SettlementConserves | broker-mt5/src/history.rs:109-179 | with every trade closed, realized results add up to the ledger's amounts |
| Mt5.RowBelongsToOneTrade | broker-mt5/src/history.rs:126-163 | each ledger row belongs to exactly one trade |
| Mt5.AttemptAnswers | broker-mt5/src/history.rs:12-69 | the answer of an attempt: standing order, held position, closed with the sum of its rows, withdrawn, unknown, in that order |
| Mt5.FullyClosedIff | broker-mt5/src/history.rs:73-89 | closed iff nothing reverses and what was opened, more than nothing, is what was closed |
| Mt5.NetCountsEverything | broker-mt5/src/history.rs:70-72 | profit, commission, fee and swap each count in full |
| Mt5.SettlementLists | broker-mt5/src/history.rs:117-184 | a settlement lists exactly the positions the orders opened, in order, with an entry for each of their rows, and warns iff there is none |
| Mt5.SettledAnswers | broker-mt5/src/history.rs:131-162 | a trade is settled iff its rows close it and no live position carries its ticket; its result, time and financing |
| Ibkr.SizedIff | broker-ibkr/src/ibkr.rs:265-325 | sizing refuses exactly what exceeds the cap and otherwise buys the greatest count whose risk fits, in all three modes |
| Ibkr.BudgetBuys | broker-ibkr/src/risk.rs:51-83 | a count is bought iff its whole risk fits the budget and it fits 32 bits |
| Ibkr.PlacementIsCapped | broker-ibkr/src/ibkr.rs:140-228 | a dry run at a positive rate places at least one contract and risks no more than asked for and no more than the cap |
| Ibkr.PlacementIsGreatest | broker-ibkr/src/ibkr.rs:140-228 | on a whole grid the placement is the greatest acceptable size, refused as too small exactly when there is none |
| Ibkr.FitIsGreatest | broker-ibkr/src/risk.rs:98-127 | on a whole grid, fitting finds the greatest grid size not above the count and at or above the minimum |
| Ibkr.FitTakesTheMultiple | broker-ibkr/src/risk.rs:98-127 | on any grid, the greatest multiple not above the count, refused below the minimum, cut to whole contracts |
| Ibkr.EarlyAnswers | broker-ibkr/src/ibkr.rs:151-163 | the refusals before sizing, each by the first condition that fails |
| Ibkr.LiveOrdersAreRefused | broker-ibkr/src/ibkr.rs:207-227 | a live order is refused exactly where a dry run would place it, and answered like it elsewhere |
| Ibkr.GridKeptIff | broker-ibkr/src/risk.rs:112-126 | the whole-contract cut keeps grid and minimum iff the increment is whole or a whole fraction |
| Ibkr.HalfStepsGoBelowTheMinimum | broker-ibkr/src/risk.rs:112-126 | a grid of one and a half, on which it does not |
| Ibkr.LiteralSizesNeedARate | broker-ibkr/src/ibkr.rs:299-323 | the cap can refuse a literal size iff the rate is positive; the other modes buy nothing otherwise |

## Left out

- Decimal rounding and overflow: amounts are exact reals; 28-digit rounding is covered only for sizing, by `Exposures.RoundedSizeIsWithinBudget`, and an overflow would be one more error outcome.
- Floating point: MT5 amounts and IBKR sizes are exact reals; NaN, infinities and rounding are not modelled.
- Metrics, telemetry, the schema number, the size limit of the stored document and JSON encoding.
- The lock file: a session is the only holder of its store, and enrolment's refusal to overwrite is not modelled.
- Zone data: a zone is a finite table of offset changes; parsing time zones and dates out of range are not modelled.
- The standard library's sorts are stable insertion sorts, and identifiers are ordered character by character.
- Streak thresholds are reals rather than 32-bit counts; the streak itself saturates at 32 bits.
- Calendar.DaysTile: assumes that the zone's clock never falls back more than a day; that is sufficient, and the exact condition on a zone table is not given.
- Latches.DayLockLastsItsDay: assumes that the locked day is a day of the account's calendar, which enrolment does not check of its first day.
- Guards.Guard.BeforeSubmit: collecting a snapshot is any sequence of the session's own steps up to the first failure; how the evidence is gathered is not modelled.
- Guards.Guard.PlacePending: the market-entry path, sizing and payload building before the guard exists are not modelled.
- Pagination.PositionHistory: JSON shape errors are one failed read; the broker's honesty is a hypothesis of the completeness clauses only.
- Mt5.SettlementAgrees: tickets arrive parsed; weighted prices, sizes, times of opening and descriptions are not modelled.
- Ibkr.PlacementIsGreatest: stated for whole increments; `Ibkr.GridKeptIff` says exactly when fractional ones keep the grid.
- `stop_tightens`, `closed`, `origin`, `prepare` and the profile registry of the cTrader adapter: case analysis over decoded broker messages.
- OANDA and MT5 lot sizing: the same floor-and-cap idea as the sizing proved here.
- Broker sockets, quotes, replay, simulation, command line and user interface.
