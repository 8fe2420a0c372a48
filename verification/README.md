# Tappix loyalty backend: verified model

Tappix keeps its state in PostgreSQL and Redis and changes it in transactions
issued by request handlers and by background workers. This project models that
state and those transactions in Dafny and proves what they keep, over every run
and every interleaving of workers.

- **Points.** `BonusLots`, `BonusRestore` and `BonusBook` hold the balances, the
  append-only ledger, the lots and their redemptions, and every transaction on
  them; `BonusInvariants` proves that balance and lots agree over every run,
  `BonusEffects` gives the exact condition and effect of each transaction, column by
  column, `BonusLedger` how far the ledger may drift, `BonusReports` the liability report
  and the wallets, `BonusCauses` and `ReferralDesk` that a cause is paid once,
  with two runs of stale workers in `ReferralRuns`.
  `VisitThrottle` and `WheelSpins` are the time limits, `BonusSweep` the expiry
  statement part by part. `BonusStore` is the mutable store with the handlers and
  workers as methods.
- **Webhooks.** `Webhooks` and `Backoff` hold the rows and the retry delay;
  `WebhookFanout` and `WebhookDelivery` are the two protocols, `WebhookProgress`
  and `WebhookBreaker` their progress and circuit breaker, `WebhookStore` a worker.
- **Automations.** `AutomationRuns` is the lease protocol, `AutomationStore` a pass.
- **Analytics.** `AnalyticsProjection` is the job queue with refreshes under an
  advisory lock, each statement reading its own snapshot; `AnalyticsCoherence` what
  the fact rows say; `AnalyticsJobs` what becomes of the jobs; `AnalyticsRefresh` the
  statements as loops; `AnalyticsRevenue` the joins and revenue columns;
  `AnalyticsColumns` what each column holds, told from the tables it comes from;
  `AnalyticsStore` a worker.
- **The rest.** `LoyaltyMechanics`, `Sessions`, `SessionStore`, `Subscriptions`,
  `SpendQuote`.

Tables are sequences or maps, a committed transaction is a step, and a rollback is
no step. Protocols are state machines whose steps interleave freely; what a worker
holds between statements is part of the state. Classes carry the same tables as
fields, and each method's postcondition ties the new state to the specification.
Clocks, random bytes, network outcomes and query results that other code computes
are parameters. Amounts are whole points; money is in hundredths or `real`.

## Where the code departs from what one might expect

- A visit that earns no points is always rolled back: the ledger row it writes
  violates `CHECK (amount > 0)` (`AfterVisit`).
- No code sets `expires_at` on a lot; `SetExpiry` stands for whoever does.
- In the sweep, `least(...)` and `greatest(0, ...)` never take effect; a sweep row
  dropped by the per-day key is what makes the ledger drift.
- A debit the balance covers may fail, because expired lots count until swept.
- Processing a referral reward twice erases its link to the ledger row, and a worker
  with an old list pays a reward that a refund has reversed (`StaleWorkerPaysReversed`).
- Two wheel requests at once both pass the weekly check (`TwoRequestsBothSpin`).
- `power(2, n)::integer` overflows at 31: from then on a failed attempt cannot be
  recorded and the row stays in `processing`; an analytics job never gets that far
  (`EightTries`). A delivery or an analytics job whose
  worker stops stays in `processing` too; nothing reclaims it (`AtRestForGood`,
  `JobAtRestForGood`), and the event of such a job waits for some other refresh.
- An automation run interrupted again and again has no limit of three attempts
  (`BeyondThreeIff`); at ten the claim violates a CHECK and cuts the whole pass short,
  every time (`CutShortIff`).
- The completion of an automation run is not tied to the attempt that began it.
- Login overwrites the expiry of the user's session set instead of extending it.
- `created_at` of a subscription is the start of its transaction, so overlapping
  updates can leave the live row older than a cancelled one.
- A negative requested spend is quoted as zero, above the request.

## Model

| member | source | states |
|---|---|---|
| `BonusLots.FifoOrderSorted` | apps/api/internal/integration/service.go:655-658 | The lots a debit walks are exactly the spendable ones of the customer, each once, oldest first in the query's order |
| `BonusLots.DrawMoves` | apps/api/internal/integration/service.go:679-692 | The walk leaves every other customer's live points alone |
| `BonusLots.DrawConserves` | apps/api/internal/integration/service.go:679-692 | What leaves the customer's live lots is what the redemption rows record, and nobody else's change |
| `BonusLots.DrawIsFifo` | apps/api/internal/integration/service.go:680-692 | How much each lot in the walk gives: everything, until the lots before it cover the amount, and then nothing |
| `BonusLots.ConsumeExact` | apps/api/internal/integration/service.go:679-696 | Consumption succeeds exactly when the spendable lots cover the amount, and then live points fall by exactly that amount |
| `BonusLots.ConsumeOthers` | apps/api/internal/integration/service.go:654-697 | No other customer's live points change |
| `BonusLots.ConsumeOldestFirst` | apps/api/internal/integration/service.go:655-692 | A lot is touched only when every spendable lot before it has been emptied |
| `BonusEffects.OldestGivesFirst` | apps/api/internal/integration/service.go:655-692 | Of two lots a debit may draw on, the one active earlier, then expiring earlier (no expiry last), then issued earlier, then with the smaller id gives all it has before the other gives a point |
| `BonusEffects.ConsumeColumns` | apps/api/internal/integration/service.go:655-686 | A debit leaves a lot alone, or takes from one that is the customer's, pending or active, begun and not past its date; that lot is then active, or redeemed when empty, with every other column kept |
| `BonusEffects.ConsumeTakes` | apps/api/internal/integration/service.go:655-696 | A debit succeeds exactly when such lots cover it; the customer's points fall by the amount and nobody else's change |
| `BonusEffects.ConsumeRows` | apps/api/internal/integration/service.go:687-689 | The redemption rows of a lot add up to what it lost, and name customer, ledger row and sale |
| `BonusEffects.CreditGoesThrough` | apps/api/internal/integration/service.go:648-652 | A credit fits exactly when positive, within int4 and under an unused key; it writes balance, ledger row, and a lot of the amount at face value, active from now on |
| `BonusEffects.CreditIsSpendable` | apps/api/internal/integration/service.go:648-652 | Credited points can be spent at once and at any later time |
| `BonusEffects.DebitGoesThrough` | apps/api/internal/integration/service.go:654-697 | A debit fits exactly when positive, within the balance, covered by spendable lots and under an unused key; the rows it writes |
| `BonusEffects.CounterCredits` | apps/api/internal/httpapi/api.go:549-560 | Visits and manual credits need a customer that is not archived, the wheel does not; otherwise the book is unchanged |
| `BonusEffects.KeyedCredits` | apps/api/internal/httpapi/loyalty_automation.go:77-168 | Referral, partner and birthday credits: once per key, a birthday once a year; exact effect or no change |
| `BonusEffects.RegisterEffect` | apps/api/internal/httpapi/portals.go:82-92 | A registration opens an account at zero and credits the welcome bonus, if there is one |
| `BonusEffects.ManualDebits` | apps/api/internal/httpapi/operation_approvals.go:124-150 | Manual debits and decisions on requests: exact condition and effect |
| `BonusEffects.ReversalTakes` | apps/api/internal/integration/service.go:440-466 | A reversal takes the reward, or all the balance has of it, under its own key |
| `BonusEffects.SaleEffect` | apps/api/internal/integration/service.go:582-635 | A receipt debits what is spent, then credits what is earned, and does both or neither, exactly when both fit |
| `BonusEffects.RestoreLots` | apps/api/internal/integration/service.go:507-515 | A refund gives each lot back what its redemption rows say, makes it active, or pending when not begun, and keeps every other column |
| `BonusEffects.RestoreRows` | apps/api/internal/integration/service.go:477-512 | A refund writes only on open redemption rows of the customer and the sale, and gives back no more than they took |
| `BonusEffects.RestoreInListedOrder` | apps/api/internal/integration/service.go:481-515 | A row gets points back only when the rows listed before it have everything back |
| `BonusEffects.RestoreLeavesOver` | apps/api/internal/integration/service.go:477-520 | What goes to a lot of its own is the amount less all that is open on the sale |
| `BonusEffects.RefundEffect` | apps/api/internal/integration/service.go:325-366 | A refund takes back what was earned, as far as the balance goes, then gives back what was spent, and does both or neither |
| `BonusEffects.SweepLots` | apps/api/internal/httpapi/bonus_liability.go:31-43 | The sweep empties and expires exactly the tenant's pending and active lots with points that are past their date |
| `BonusEffects.SweepBalances` | apps/api/internal/httpapi/bonus_liability.go:31-38 | Each balance falls by exactly what was past its date |
| `BonusEffects.SweepRowIs` | apps/api/internal/httpapi/bonus_liability.go:39-41 | Each row a sweep appends is an expire row of just those points and the new balance, under a day key the ledger did not have |
| `BonusEffects.SweepRowFor` | apps/api/internal/httpapi/bonus_liability.go:39-41 | Each customer who loses points gets one such row, unless the ledger has the key of the day |
| `BonusEffects.CreditMovesReport` | apps/api/internal/httpapi/bonus_liability.go:13-22 | A credit raises what is issued, active and owed by its amount |
| `BonusEffects.DebitMovesReport` | apps/api/internal/httpapi/bonus_liability.go:13-22 | A debit moves its amount from what is owed to what is redeemed, and leaves what was issued |
| `BonusReports.OneMoreLot` | apps/api/internal/httpapi/bonus_liability.go:13-22 | What one more lot adds to each figure of the report and the wallet, by status, dates and value |
| `BonusRestore.ConsumeBalancesLot` | apps/api/internal/integration/service.go:684-692 | For every lot, remaining plus outstanding redemptions is unchanged by a consumption |
| `BonusRestore.RestoreBalancesLot` | apps/api/internal/integration/service.go:502-515 | For every lot, remaining plus outstanding redemptions is unchanged by a restoration |
| `BonusRestore.RestoreConserves` | apps/api/internal/integration/service.go:502-515 | A restoration returns to live lots exactly what it does not leave over |
| `BonusRestore.FullRestoreCloses` | apps/api/internal/integration/service.go:503-515 | Restoring all that is outstanding closes every listed redemption and leaves the others alone |
| `BonusRestore.ListedIsWhole` | apps/api/internal/integration/service.go:478-481 | A listing of all reversible redemptions of a sale adds up to all that is outstanding on it |
| `BonusRestore.ConsumeThenRestore` | apps/api/internal/integration/service.go:477-522 | Round trip: consuming for a sale and restoring the sale in full puts every lot back to what it held |
| `BonusInvariants.SweepTakesWhatIsDue` | apps/api/internal/httpapi/bonus_liability.go:35-38 | In any consistent book the clamp never fires and the recorded amount is the amount deducted |
| `BonusInvariants.SweepKeeps` | apps/api/internal/httpapi/bonus_liability.go:30-43 | The expiry sweep keeps every account equal to its live lots |
| `BonusInvariants.RefundKeeps` | apps/api/internal/integration/service.go:325-366 | A refund, reversal then restoration, keeps every account equal to its live lots |
| `BonusInvariants.SaleKeeps` | apps/api/internal/integration/service.go:582-635 | A receipt that spends and earns keeps every account equal to its live lots |
| `BonusInvariants.StepKeepsAccounts` | apps/api/internal/httpapi/api.go:549-560 | Every transaction that touches points, from visits to approvals, partner bonuses and referral reversals, keeps the accounts: balance = sum of live lots, >= 0, lots within bounds and backed |
| `BonusInvariants.ApprovalKeeps` | apps/api/internal/httpapi/operation_approvals.go:124-150 | An approved request, credit or debit, keeps every account equal to its live lots |
| `BonusInvariants.ReversalKeeps` | apps/api/internal/integration/service.go:440-472 | Taking an issued referral reward back keeps every account equal to its live lots |
| `BonusInvariants.RunKeepsAccounts` | apps/api/internal/httpapi/customer_detail.go:157-188 | Points conservation over every run from an empty book: each balance is the sum of the customer's live lots and is never negative |
| `BonusLedger.ReplayIsBalancePlusDrift` | apps/api/internal/httpapi/bonus_liability.go:35-41 | Replaying a customer's ledger gives the balance plus exactly the sweeps whose ledger row the per-day key dropped |
| `BonusLedger.NoDriftIffSweptOnceADay` | apps/api/internal/httpapi/bonus_liability.go:39-41 | Replay equals the balance over a run if and only if no sweep found something due for a customer already swept that day |
| `BonusLedger.LastRowWithinDrift` | apps/api/internal/httpapi/customer_detail.go:163-174 | The last balance_after of a customer overstates the balance by at most the drift, and never understates it |
| `BonusLedger.OnlySweepsTakeExpiryKeys` | apps/api/internal/httpapi/bonus_liability.go:40 | The per-day expiry key of a customer is taken by a sweep of that customer on that day and by nothing else |
| `BonusInvariants.DueOwnersAre` | apps/api/internal/httpapi/bonus_liability.go:31-35 | The GROUP BY lists exactly the owners of due lots of the tenant, each once |
| `BonusReports.SweepLeavesReport` | apps/api/internal/httpapi/bonus_liability.go:13-22 | Running the sweep at a moment leaves issued, active, liability and expected cost at that moment unchanged |
| `BonusReports.SweepLeavesWallet` | apps/api/internal/httpapi/guest_engagement.go:55 | A customer's wallet value is the same before and after the sweep |
| `BonusReports.WalletsAddUpToLiability` | apps/api/internal/httpapi/guest_engagement.go:55 | The wallet values of all customers of a company add up to its liability |
| `BonusReports.RedeemedWithinIssued` | apps/api/internal/httpapi/bonus_liability.go:18-21 | Net redemptions never exceed issues, so the cap of the redemption rate is never exceeded |
| `BonusReports.ExpectedWithinLiability` | apps/api/internal/httpapi/bonus_liability.go:16-22 | 0 <= expected cost <= liability, and it is liability times the redeemed share of what was issued |
| `BonusReports.WalletIsBalanceLessDue` | apps/api/internal/httpapi/guest_engagement.go:55 | With lots priced at face value, a wallet's value is the balance less what the next sweep would take |
| `BonusCauses.RunKeepsCauses` | apps/api/migrations/000025_bonus_fifo_liability.up.sql:1-34 | In every reachable book ledger keys are unique, each lot names its own credit row, and every birthday or referral row stands on a lot of its full amount |
| `BonusCauses.CauseStep` | apps/api/internal/httpapi/loyalty_automation.go:148-168 | A birthday or referral key enters the ledger in the step that pays it and in no other |
| `BonusCauses.PaidAtMostOnce` | apps/api/internal/httpapi/loyalty_automation.go:82-92 | Over any run, a cause has paid exactly when its key is in the ledger |
| `BonusCauses.SingleCreditPerCause` | apps/api/internal/httpapi/loyalty_automation.go:71-180 | Over any run a referral reward or a birthday year pays at most once, with one ledger row and one lot that agree, or with nothing at all |
| `ReferralDesk.DeskRefinesBook` | apps/api/internal/httpapi/loyalty_automation.go:77-104 | Paying a reward, or taking one back, does to the book what one credit or debit does, or nothing |
| `ReferralDesk.DeskRunOk` | apps/api/internal/integration/service.go:407-475 | In every reachable desk, payments and refunds mixed: a reward not reversed is issued exactly when its key has paid, its link names that row, and a rewarded attribution has no pending reward |
| `ReferralDesk.LinkSurvivesFirstPassOnly` | apps/api/internal/httpapi/loyalty_automation.go:80-100 | The link from a reward to its ledger row survives exactly the pass that paid it; a repeat pays nothing and erases the link |
| `ReferralRuns.SecondWorkerErasesLink` | apps/api/internal/httpapi/loyalty_automation.go:82-99 | A run from the empty desk in which a second worker with the same list erases the link |
| `ReferralDesk.ReversedStaysIff` | apps/api/internal/httpapi/loyalty_automation.go:99-102 | A reversed reward stays reversed under a stale worker exactly when that transaction does not go through |
| `ReferralDesk.PayEffect` | apps/api/internal/httpapi/loyalty_automation.go:71-111 | Processing a reward of any status: when it is paid, linked without pay, or left alone, and when its attribution becomes rewarded |
| `ReferralDesk.TakeBackEffect` | apps/api/internal/integration/service.go:431-471 | Taking a reward back: when it is only marked, debited as far as the balance goes, or left alone |
| `ReferralDesk.QualifyAndCloseEffect` | apps/api/internal/integration/service.go:407-475 | An attribution is opened once, with new pending rewards, and closed as reversed when each of its rewards is |
| `ReferralRuns.StaleWorkerPaysReversed` | apps/api/internal/httpapi/loyalty_automation.go:49-50 | A run in which a worker whose list predates the refund pays the reward the refund reversed |
| `VisitThrottle.LogIsThrottled` | apps/api/internal/httpapi/api.go:517-551 | For any order of transaction start times, committed counter visits of a customer are at least two minutes apart and at most five in any half-open 24 hours |
| `VisitThrottle.ClosedWindowHoldsSix` | apps/api/internal/httpapi/api.go:539-543 | A closed 24-hour window can hold six |
| `VisitThrottle.RefusedIff` | apps/api/internal/httpapi/api.go:528-543 | A counter visit is refused if and only if the customer has a visit less than two minutes old or five less than 24 hours old |
| `VisitThrottle.OthersNeverThrottle` | apps/api/internal/httpapi/api.go:528-539 | What other customers do never changes whether a customer is admitted: the customer's visits are those of a log of the customer's own attempts |
| `BonusStore.WalkLots` | apps/api/internal/integration/service.go:679-692 | The loop over the listed lots, against the walk's specification |
| `BonusStore.ConsumeBonusLots` | apps/api/internal/integration/service.go:654-697 | Succeeds exactly when the spendable lots cover the amount; new lots and redemption rows, or no change |
| `BonusStore.RestoreBonusLots` | apps/api/internal/integration/service.go:477-522 | The loop over the listed redemptions and the lot for what is left over |
| `BonusStore.Store.CreateVisit` | apps/api/internal/httpapi/api.go:517-590 | Every outcome and the exact new store: not found, duplicate, limit, rolled back by any later statement, or one visit and one credit; keeps the accounts and the throttle |
| `BonusStore.Store.ManualTransaction` | apps/api/internal/httpapi/customer_detail.go:157-192 | Manual credit or debit: which outcome, and the exact new book |
| `BonusStore.Store.ManualBonus` | apps/api/internal/httpapi/customer_detail.go:120-195 | Every gate in order (amount, reason, approval threshold, 30-second repeat, branch), then the transaction; exact outcome and book; keeps the accounts |
| `BonusStore.Store.CustomerWheelSpin` | apps/api/internal/httpapi/guest_engagement.go:113-153 | For one request at a time: no second spin within the week; a prize is one credit, a spin without points only takes its place; otherwise no change |
| `BonusStore.Store.ExpireBonusLots` | apps/api/internal/httpapi/bonus_liability.go:30-46 | Every balance falls by exactly what was due, nothing of the tenant is due afterwards, and the count is the lots changed |
| `BonusStore.Store.SpinTransaction` | apps/api/internal/httpapi/guest_engagement.go:128-151 | Commits a spin exactly when its prize is none or can be credited; the exact new book and spin |
| `BonusStore.Store.SweepStatement` | apps/api/internal/httpapi/bonus_liability.go:31-45 | The grouping, the lowering with its ledger rows and the closing of the lots, as loops, make up the one statement; the count is the lots changed |
| `BonusStore.Store.ProcessBirthdayBonuses` | apps/api/internal/httpapi/loyalty_automation.go:141-181 | The loop over the candidates, one transaction each; counts the credits made |
| `BonusStore.Store.ProcessReferralRewards` | apps/api/internal/httpapi/loyalty_automation.go:71-111 | The loop over a possibly stale candidate list, one transaction each; keeps accounts and desk |
| `BonusStore.RewardPassTwice` | apps/api/internal/httpapi/loyalty_automation.go:82-86 | Processing the same reward again changes no balance, ledger or lot |
| `BonusStore.DebitCommitsIffSpendable` | apps/api/internal/httpapi/customer_detail.go:163-180 | A debit within the balance commits exactly when active, unexpired lots cover it |
| `BonusStore.BalanceMayNotBeSpendable` | apps/api/internal/httpapi/customer_detail.go:167-180 | Between a lot's expiry and the next sweep the balance shows points no debit can take |
| `BonusSweep.GroupDue` | apps/api/internal/httpapi/bonus_liability.go:31-35 | The loop over the lots finds each customer with something due, once, with the sum |
| `BonusSweep.LowerBalances` | apps/api/internal/httpapi/bonus_liability.go:35-41 | The loop over those customers lowers each balance, no further than to zero, and writes a row unless the day key is taken |
| `BonusSweep.CloseDue` | apps/api/internal/httpapi/bonus_liability.go:42-43 | The loop over the lots empties and expires exactly the due ones of the tenant, and counts them |
| `WheelSpins.CommitKeepsLimitIff` | apps/api/internal/httpapi/guest_engagement.go:115-148 | A spin keeps the weekly limit exactly when no spin of the customer was committed between its check and itself |
| `WheelSpins.OrderlyRunsKeepTheLimit` | apps/api/internal/httpapi/guest_engagement.go:115-148 | Over any run in which no request is overtaken by another of the same customer, spins are a week apart |
| `WheelSpins.TwoRequestsBothSpin` | apps/api/internal/httpapi/guest_engagement.go:115-117 | Two requests that pass the check together both win |
| `WheelSpins.PassesIff` | apps/api/internal/httpapi/guest_engagement.go:115-120 | The check passes exactly when every committed spin of the customer is seven days old or older |
| `WheelSpins.StepsDo` | apps/api/internal/httpapi/guest_engagement.go:115-148 | A passed check stands until its request commits its spin at that time, or is dropped |
| `Backoff.RetryDelayShape` | apps/api/internal/httpapi/integration_worker.go:158-160 | The retry delay is non-decreasing in the attempt, at most an hour, and an hour exactly from the twelfth attempt |
| `Backoff.RetryDelayDoubles` | apps/api/internal/httpapi/integration_worker.go:158-160 | The delay doubles from one second up to an hour |
| `WebhookFanout.BeginKeeps` | apps/api/internal/httpapi/integration_worker.go:60-62 | Rows selected with SKIP LOCKED are held by one transaction only |
| `WebhookFanout.FanoutExactlyOnce` | apps/api/internal/httpapi/integration_worker.go:54-97 | For any interleaving of workers, endpoint changes and rollbacks: an event is sent exactly when it was fanned out, and has one delivery per endpoint reached, an unsent one none |
| `WebhookFanout.SentToItsAudience` | apps/api/internal/httpapi/integration_worker.go:83-95 | The endpoints reached are those active, undeleted and subscribed when the transaction that sent the event read them |
| `WebhookFanout.BeginsIff` | apps/api/internal/httpapi/integration_worker.go:57-62 | A transaction takes at most fifty events: pending or failed, available, of a company, held by nobody, oldest first |
| `WebhookFanout.AudienceRead` | apps/api/internal/httpapi/integration_worker.go:83-95 | An event's audience is the company's outbound endpoints that are active, not deleted and subscribed to its kind or to every kind |
| `WebhookFanout.CommitPublishes` | apps/api/internal/httpapi/integration_worker.go:83-97 | A commit marks the events sent and inserts the missing deliveries, waiting, with eight attempts; existing ones stay |
| `WebhookFanout.FanoutGoesThrough` | apps/api/internal/httpapi/integration_worker.go:54-97 | From any state in which a transaction may begin, reading its events one by one and committing sends them all to their audiences |
| `WebhookFanout.TransactionSteps` | apps/api/internal/httpapi/integration_worker.go:83-97 | An open transaction reads each of its events once, commits when it has read all, and leaves nothing when rolled back |
| `WebhookFanout.OutsideSteps` | apps/api/internal/httpapi/integration_worker.go:54-97 | What happens around the transactions: time, new events, rewritten endpoints |
| `WebhookDelivery.StepKeeps` | apps/api/internal/httpapi/integration_worker.go:99-165 | Every step keeps the delivery rows and the holds of the workers consistent |
| `WebhookDelivery.BoundedDelivery` | apps/api/internal/httpapi/integration_worker.go:104-165 | In any run, crashes included: at most max_attempts posts (and at most 31), failed rows have attempts left, dead ones none, and a delivery has one worker at a time |
| `WebhookDelivery.ClaimedIff` | apps/api/internal/httpapi/integration_worker.go:104-110 | A delivery can be claimed exactly when waiting or failed, due, with an active endpoint, and none such has been due longer |
| `WebhookDelivery.FailureWrites` | apps/api/internal/httpapi/integration_worker.go:152-161 | A written failure: dead on the last attempt, otherwise due in 2^attempts seconds, an hour at most, by the new attempt count |
| `WebhookDelivery.OutsideSteps` | apps/api/internal/httpapi/integration_worker.go:83-97 | What happens around the workers: time, new endpoints, new deliveries |
| `WebhookProgress.AtRestForGood` | apps/api/internal/httpapi/integration_worker.go:104-108 | Succeeded, dead and orphaned processing rows never change and are never claimed again |
| `WebhookProgress.OrphanedByIff` | apps/api/internal/httpapi/integration_worker.go:104-165 | A delivery is left in processing by exactly two things: its worker stops, or its failure can no longer be written |
| `WebhookProgress.DeadIffBelowOverflow` | apps/api/internal/httpapi/integration_worker.go:152-160 | A delivery whose every attempt fails comes to rest dead if and only if it has thirty attempts or fewer; otherwise it stays in processing after thirty failures |
| `WebhookProgress.RetriesBackOff` | apps/api/internal/httpapi/integration_worker.go:104-160 | Over any run nobody claims a delivery again within 2^n seconds of its n-th failure, an hour from the twelfth on |
| `WebhookProgress.WaitsNeverShrink` | apps/api/internal/httpapi/integration_worker.go:152-160 | Of two failures of a delivery in a run the later is on a later attempt and waits at least as long |
| `WebhookProgress.BudgetConserved` | apps/api/internal/httpapi/integration_worker.go:145-160 | Completed attempts plus attempts left equal attempts left at the start plus those granted at insertion |
| `WebhookProgress.AttemptsAreBounded` | apps/api/internal/httpapi/integration_worker.go:152-161 | A run completes no more attempts than were left and granted |
| `WebhookProgress.ClaimsServeTheOldest` | apps/api/internal/httpapi/integration_worker.go:104-107 | While something has waited since d, each claim takes one of those and none joins them |
| `WebhookProgress.NoStarvation` | apps/api/internal/httpapi/integration_worker.go:104-107 | A delivery waiting since d is claimed within as many claims as deliveries were waiting since d, unless its endpoint stops being active |
| `WebhookProgress.SomethingToClaim` | apps/api/internal/httpapi/integration_worker.go:104-110 | A free worker can claim whenever something is due |
| `WebhookProgress.UnclaimedStays` | apps/api/internal/httpapi/integration_worker.go:104-108 | A waiting delivery nobody claims keeps its row |
| `WebhookBreaker.BreakerCountsTrailingFailures` | apps/api/internal/httpapi/integration_worker.go:147-162 | failure_count is the length of the trailing run of failed outcomes; the endpoint is in error exactly when some run reached 20; an active one is below |
| `WebhookBreaker.BreakerFromStart` | apps/api/internal/httpapi/integration_worker.go:147-162 | The same for every endpoint of every run from an empty table |
| `WebhookBreaker.BrokenForGood` | apps/api/internal/httpapi/integration_worker.go:104-108 | An endpoint in error stays there and nothing is claimed for it again |
| `WebhookBreaker.LongestRunIs` | apps/api/internal/httpapi/integration_worker.go:162 | Any run of consecutive failed outcomes is within the length the breaker looks at |
| `WebhookBreaker.LongestRunReached` | apps/api/internal/httpapi/integration_worker.go:162 | And some run of failed outcomes has that length |
| `WebhookStore.Store.FanoutOutbox` | apps/api/internal/httpapi/integration_worker.go:83-96 | The loop over the chosen events: each is sent, each audience gets one new delivery, existing ones stay |
| `WebhookStore.Store.FailWebhookDelivery` | apps/api/internal/httpapi/integration_worker.go:152-165 | Row and endpoint after a failed attempt; nothing at all once the delay overflows |
| `WebhookStore.Store.DeliverNextWebhook` | apps/api/internal/httpapi/integration_worker.go:99-150 | One pass over the delivery found: claimed, posted or not, written back |
| `WebhookStore.Store.ClaimAndPost` | apps/api/internal/httpapi/integration_worker.go:104-136 | The claim, and the request unless it could not be sent |
| `WebhookStore.Store.SucceedDelivery` | apps/api/internal/httpapi/integration_worker.go:145-148 | Row and endpoint after an accepted request |
| `WebhookStore.PassIsARun` | apps/api/internal/httpapi/integration_worker.go:99-165 | Such a pass is a run of the delivery protocol |
| `WebhookStore.PublishedColumns` | apps/api/internal/httpapi/integration_worker.go:83-96 | The deliveries a fan-out leaves: those there were, and a waiting one with eight attempts per endpoint of the audience |
| `WebhookStore.DeliveredRow` | apps/api/internal/httpapi/integration_worker.go:145-161 | What a pass leaves of the delivery, by outcome and attempt: status, attempts and due time |
| `WebhookStore.DeliveredEndpoint` | apps/api/internal/httpapi/integration_worker.go:147-163 | And of its endpoint: failures in a row, error from the twentieth on |
| `AutomationRuns.ClaimsAreCapped` | apps/api/migrations/000029_campaign_automation_delivery_retry.up.sql:6-9 | Whatever happens, the attempt counter counts the claims and never passes ten |
| `AutomationRuns.ClaimIsFreeKey` | apps/api/internal/httpapi/loyalty_automation.go:242-249 | While leases hold, a claim only takes a new key or a failed run whose retry is due, and nobody holds it |
| `AutomationRuns.LeaseHolds` | apps/api/internal/httpapi/loyalty_automation.go:242-279 | With no worker lost and each run completed within five minutes: one holder per key, at most three attempts, at most one ending sent, for any interleaving |
| `AutomationRuns.LeaseHoldsFromStart` | apps/api/internal/httpapi/loyalty_automation.go:242-279 | The same for every key of every timely run from an empty table |
| `AutomationRuns.FinishedForGood` | apps/api/internal/httpapi/loyalty_automation.go:247-249 | Sent, skipped and third-failure runs never change and are never claimed again |
| `AutomationRuns.SecondHolderIff` | apps/api/internal/httpapi/loyalty_automation.go:247 | A second worker can take a held key if and only if the clock is past the end of the holder's lease |
| `AutomationRuns.LateWorkerSendsTwice` | apps/api/internal/httpapi/loyalty_automation.go:276 | Past the lease two workers both send, and a sent run can be put back to failed with a retry |
| `AutomationRuns.BeyondThreeIff` | apps/api/internal/httpapi/loyalty_automation.go:244-249 | A claim goes past the third attempt exactly on a run left pending past its lease |
| `AutomationRuns.InterruptedRunReached` | apps/api/internal/httpapi/loyalty_automation.go:242-255 | Runs from the empty table reach every attempt count up to ten on a stale run, where the next claim is refused |
| `AutomationRuns.ClaimableIff` | apps/api/internal/httpapi/loyalty_automation.go:242-250 | A free worker can claim a key exactly when it has no run, a run pending over five minutes with attempts left of ten, or a failed run with tries left of three whose retry time has come |
| `AutomationRuns.CompleteEffect` | apps/api/internal/httpapi/loyalty_automation.go:270-276 | Completing writes the outcome, and a time to retry only for a failure of the first two attempts |
| `AutomationRuns.RetryComes` | apps/api/internal/httpapi/loyalty_automation.go:246-249 | A failed run with tries left can be claimed by any free worker from its retry time on, as the next attempt |
| `AutomationRuns.ThirdAttemptSends` | apps/api/internal/httpapi/loyalty_automation.go:242-276 | A run from the empty table whose transport fails twice reaches its third attempt and is sent |
| `AutomationStore.Store.ProcessCampaignAutomations` | apps/api/internal/httpapi/loyalty_automation.go:232-290 | The loop over the candidates, against the specification of a pass |
| `AutomationStore.CutShortIff` | apps/api/internal/httpapi/loyalty_automation.go:233-255 | A pass is cut short if and only if one of its candidates has a run pending past its lease with ten attempts |
| `AutomationStore.ExhaustedRunStopsThePass` | apps/api/internal/httpapi/loyalty_automation.go:253-255 | Such a pass does exactly what a pass over the candidates before the first such one does |
| `AutomationStore.IdleIff` | apps/api/internal/httpapi/loyalty_automation.go:233-252 | A pass changes and sends nothing exactly when none of its candidates can be claimed |
| `AutomationStore.RerunIsIdle` | apps/api/internal/httpapi/campaign_automation_api.go:81 | A forced rerun over the same keys within a minute sends nothing and changes nothing, if and only if no run the first pass found closed has opened since |
| `AutomationStore.SettleIsTwoSteps` | apps/api/internal/httpapi/loyalty_automation.go:242-276 | A settled candidate is a claim and a completion of the protocol |
| `AutomationStore.SettleEffect` | apps/api/internal/httpapi/loyalty_automation.go:242-276 | What a candidate becomes: skipped, sent or failed by channel, address and transport; the attempt; retries one and four minutes later |
| `AutomationStore.ThirdPassSends` | apps/api/internal/httpapi/loyalty_automation.go:232-276 | Three passes whose transport fails twice send on the third, when each comes at the retry time or later |
| `AnalyticsProjection.AppendAnnounces` | apps/api/internal/httpapi/customer_events.go:25-31 | A new event and its pending job appear together or, for a used key, not at all; a direct insert brings no job |
| `AnalyticsProjection.CoveredUnlessUnfinished` | apps/api/internal/httpapi/analytics_projection_worker.go:35-51 | With any workers, manual refreshes, failures, crashes and retries: an announced event is covered by its company's last committed refresh or its job has not succeeded; coverage never shrinks |
| `AnalyticsProjection.CoveredFromStart` | apps/api/internal/httpapi/analytics_projection_worker.go:35-51 | The same for every announced event of every run from an empty table |
| `AnalyticsProjection.DirectEventsHaveNoJob` | apps/api/internal/httpapi/loyalty_automation.go:281-283 | Events are never changed, and one inserted directly never gets a job |
| `AnalyticsProjection.NextRefreshCovers` | apps/api/internal/httpapi/analytics_projection_worker.go:79-87 | The next refresh of the company begun after an event and committed covers it, job or no job |
| `AnalyticsCoherence.ProjectionCoherent` | apps/api/internal/httpapi/analytics_projection_worker.go:124-138 | In every reachable state each group of covered events in the window has a fact row that matches the recomputation |
| `AnalyticsCoherence.SucceededJobHasItsRow` | apps/api/internal/httpapi/analytics_projection_worker.go:124-138 | A succeeded job's event has a row for its day and branch whose registrations and bonus sums are recomputed from the events last summed, that event included |
| `AnalyticsCoherence.UpdatedIsCoherent` | apps/api/internal/httpapi/analytics_projection_worker.go:129-136 | The summing statement makes every covered group's row match the events it reads |
| `AnalyticsCoherence.ReplacedKeepsOthers` | apps/api/internal/httpapi/analytics_projection_worker.go:88-90 | A refresh replaces no row of another company |
| `AnalyticsJobs.RunKeepsJobs` | apps/api/internal/httpapi/analytics_projection_worker.go:38-49 | Over any run a held job is processing and one worker holds it |
| `AnalyticsJobs.JobAtRestForGood` | apps/api/internal/httpapi/analytics_projection_worker.go:38-49 | An abandoned processing job and a succeeded one keep their row over any run and are never claimed again |
| `AnalyticsJobs.DeadUntilRetried` | apps/api/internal/httpapi/canonical_transactions.go:177-178 | A dead job changes by a manual retry and by nothing else |
| `AnalyticsJobs.AbandonedByIff` | apps/api/internal/httpapi/analytics_projection_worker.go:44-49 | A job is abandoned exactly by a worker that stops on it, or whose failure from the thirty-first attempt on cannot be written |
| `AnalyticsJobs.WaitingEventHasJobIff` | apps/api/internal/httpapi/analytics_projection_worker.go:38-49 | An announced event not yet covered has a job that can be claimed if and only if no worker holds it, it was not abandoned and it is not dead |
| `AnalyticsJobs.AppendEffect` | apps/api/internal/httpapi/customer_events.go:25-31 | An event under a new key is appended, with a job due at once with eight attempts when announced and without one when written directly |
| `AnalyticsJobs.JobClaimedIff` | apps/api/internal/httpapi/analytics_projection_worker.go:38-40 | A job can be claimed exactly when pending or failed, due, and none such has been available longer; the claim counts the attempt |
| `AnalyticsJobs.OutcomeWrites` | apps/api/internal/httpapi/analytics_projection_worker.go:44-49 | A failed refresh leaves its job dead on the last attempt, otherwise failed and due in 2^attempts seconds, an hour at most |
| `AnalyticsJobs.EightTries` | apps/api/internal/httpapi/analytics_projection_worker.go:38-49 | In every reachable state a job has had at most eight attempts since it was last retried by hand, and is dead after exactly eight |
| `AnalyticsJobs.JobsBackOff` | apps/api/internal/httpapi/analytics_projection_worker.go:38-45 | Over any run a failed job is not claimed within 2^n seconds of its n-th failure, unless retried by hand |
| `AnalyticsJobs.RetryEffect` | apps/api/internal/httpapi/canonical_transactions.go:175-188 | A manual retry is for failed and dead jobs and starts the attempts over |
| `AnalyticsJobs.ManualRefreshBegins` | apps/api/internal/httpapi/analytics_projection_worker.go:78-87 | A refresh by hand starts from what is committed and touches no job |
| `AnalyticsJobs.RefreshInOrder` | apps/api/internal/httpapi/analytics_projection_worker.go:78-145 | The statements come in order, the lock first, and it is granted only when no refresh of the company is between its lock and its end |
| `AnalyticsRefresh.DeleteWindow` | apps/api/internal/httpapi/analytics_projection_worker.go:88-90 | The loop deletes exactly the rows of the company in the window |
| `AnalyticsRefresh.InsertEventGroups` | apps/api/internal/httpapi/analytics_projection_worker.go:124-128 | The loop adds a zero row for each group of events that has none, and changes no row |
| `AnalyticsRefresh.SumEvents` | apps/api/internal/httpapi/analytics_projection_worker.go:129-135 | The loop over the events gives each group of the window its counts and sums |
| `AnalyticsRefresh.RunStatements` | apps/api/internal/httpapi/analytics_projection_worker.go:88-145 | The five statements in order rebuild the table |
| `AnalyticsStore.Store.AppendCustomerEvent` | apps/api/internal/httpapi/customer_events.go:20-33 | The append is the protocol's append step |
| `AnalyticsStore.Store.RefreshAnalyticsCompany` | apps/api/internal/httpapi/analytics_projection_worker.go:79-145 | After the statements every group of the company's events in the window has a row that matches them, and no row outside the window or of another company changes |
| `AnalyticsStore.Store.ProcessAnalyticsJobs` | apps/api/internal/httpapi/analytics_projection_worker.go:35-51 | At most ten rounds, fewer only when nothing is due; the pass is a run of the protocol and keeps coverage and coherence |
| `AnalyticsStore.Store.OldestDue` | apps/api/internal/httpapi/analytics_projection_worker.go:39 | The job picked has been available longest among those due |
| `AnalyticsStore.Store.IntegrationJobRetry` | apps/api/internal/httpapi/canonical_transactions.go:175-188 | Retries exactly failed and dead jobs, with fresh attempts |
| `AnalyticsRevenue.RevenueConserved` | apps/api/internal/httpapi/analytics_projection_worker.go:88-122 | After a refresh, net and gross revenue over the window's fact rows equal the refund-signed sums over the company's non-sandbox transactions of the window |
| `AnalyticsRevenue.GroupedOnePerDay` | apps/api/internal/httpapi/analytics_projection_worker.go:110-118 | The two tables grouped by day have one row a day |
| `AnalyticsRevenue.LeftJoinNeverDuplicates` | apps/api/internal/httpapi/analytics_projection_worker.go:119-120 | Joining with a table that has one row a day keeps exactly one row per row on the left |
| `AnalyticsRevenue.EachGroupOnce` | apps/api/internal/httpapi/analytics_projection_worker.go:110-120 | The statement with both joins selects each day and branch with transactions once, with the figures of its own day |
| `AnalyticsRevenue.SalesRowsAreDirect` | apps/api/internal/httpapi/analytics_projection_worker.go:91-120 | The inserted rows are the directly computed fact of every group, and nothing else |
| `AnalyticsRevenue.FirstDayIs` | apps/api/internal/httpapi/analytics_projection_worker.go:101-103 | A customer's first day is the earliest day of a purchase |
| `AnalyticsRevenue.BuyersWithinActive` | apps/api/internal/httpapi/analytics_projection_worker.go:95-109 | New plus repeat buyers never exceed active customers, and reach them exactly when each of those has a purchase by that day |
| `AnalyticsRevenue.RefreshIsIdempotent` | apps/api/internal/httpapi/analytics_projection_worker.go:88-145 | A second refresh on the same data leaves the fact table as it is, attributed revenue and expired bonuses included |
| `AnalyticsColumns.BuyerColumns` | apps/api/internal/httpapi/analytics_projection_worker.go:95-109 | In the table after a refresh: active is the row's distinct customers, new_buyers those with a purchase that day and none before, repeat_buyers those with an earlier one |
| `AnalyticsColumns.RowBuyersWithinActive` | apps/api/internal/httpapi/analytics_projection_worker.go:95-109 | In every fact row new plus repeat buyers are within active, and equal exactly when each has a purchase by that day |
| `AnalyticsColumns.MoneyColumns` | apps/api/internal/httpapi/analytics_projection_worker.go:96-98 | Net less refunds, gross and discounts without refunds, per row; nothing for a day and branch without transactions |
| `AnalyticsColumns.DiscountConserved` | apps/api/internal/httpapi/analytics_projection_worker.go:88-122 | Discounts over the window's rows are those of the company's non-sandbox transactions that are no refunds |
| `AnalyticsColumns.RowColumns` | apps/api/internal/httpapi/analytics_projection_worker.go:110-145 | Which rows there are, and where registrations, issued, redeemed, expired and attributed amounts of each come from |
| `AnalyticsColumns.OtherRowsStay` | apps/api/internal/httpapi/analytics_projection_worker.go:88-90 | Rows of other companies and from before the window stay as they are |
| `LoyaltyMechanics.StampsMakeTheTarget` | apps/api/internal/httpapi/guest_engagement.go:81-88 | Stamps held and missing make the target; the reward is due exactly when none is missing |
| `LoyaltyMechanics.OneRewardPerCard` | apps/api/internal/httpapi/guest_engagement.go:82-83 | Of the first n visits exactly floor(n / target) are eligible |
| `LoyaltyMechanics.NextStamp` | apps/api/internal/httpapi/guest_engagement.go:78-88 | Each visit adds a stamp, and the one after a full card starts the next; the target is at least two |
| `LoyaltyMechanics.DiscountGrows` | apps/api/internal/httpapi/guest_engagement.go:90-93 | The discount never falls and stays between start and maximum |
| `LoyaltyMechanics.MaximumReachedExactly` | apps/api/internal/httpapi/guest_engagement.go:90-92 | It is the maximum exactly from interval * ceil((maximum - start) / step) visits on |
| `LoyaltyMechanics.DiscountSteps` | apps/api/internal/httpapi/guest_engagement.go:90-93 | The start through the first interval, one step more each interval, up to the maximum, with the configured floors |
| `LoyaltyMechanics.LevelProgress` | apps/api/internal/httpapi/guest_engagement.go:16-40 | The loop finds the highest level reached and the next one, with progress and remaining points |
| `LoyaltyMechanics.LevelsAreMonotone` | apps/api/internal/httpapi/guest_engagement.go:16-40 | Level and progress are lexicographically non-decreasing in the points; progress is 100 only at the top level |
| `LoyaltyMechanics.LevelTable` | apps/api/internal/httpapi/guest_engagement.go:16-40 | Levels begin at 0, 500, 1000, 2500 and 5000 points; progress is whole percents of the way to the next |
| `Sessions.IndexComplete` | apps/api/internal/httpapi/auth.go:313-323 | With one role class per user, over any run every live token is in its user's set, which does not expire before it |
| `Sessions.IndexedFromStart` | apps/api/internal/httpapi/auth.go:313-323 | The same for every live token of every run from an empty store |
| `Sessions.IssueKeepsIndexIff` | apps/api/internal/httpapi/auth.go:314-321 | Issuing a token keeps the index exactly when no live token of the user reaches past the new one |
| `Sessions.RefreshReplacesOne` | apps/api/internal/httpapi/auth.go:99-113 | A successful refresh replaces one live session by exactly one of the same user and role; a refused one changes nothing |
| `Sessions.RevokeAllRevokes` | apps/api/internal/httpapi/password_recovery.go:109-116 | Revoking leaves no live token of the user and everyone else's alone |
| `Sessions.SpentForGood` | apps/api/internal/httpapi/auth.go:99-112 | A token that was issued and is no longer live never comes back |
| `Sessions.MixedRolesEscapeRevocation` | apps/api/internal/httpapi/auth.go:314-321 | With mixed roles a live token can outlast the set and escape revocation |
| `Sessions.LoginEffect` | apps/api/internal/httpapi/auth.go:313-323 | Issuing writes the token and adds it to the user's set; both last 90 days for a guest and 30 for others |
| `Sessions.RefreshEffect` | apps/api/internal/httpapi/auth.go:99-113 | A refresh of a token not past its time ends it and issues one to the same user and role; any other changes nothing |
| `Sessions.LivesItsTime` | apps/api/internal/httpapi/auth.go:313-323 | Over any run in which nothing ends it a session lives exactly 90 or 30 days |
| `Sessions.EndedSessionsAreDead` | apps/api/internal/httpapi/auth.go:110-142 | Refreshing, logging out, deleting and revoking all end a listed session |
| `SessionStore.Store.IssueTokens` | apps/api/internal/httpapi/auth.go:309-323 | SET, SADD and EXPIRE together |
| `SessionStore.Store.LogIn` | apps/api/internal/httpapi/auth.go:76-80 | A login is the issue of one token |
| `SessionStore.Store.RefreshToken` | apps/api/internal/httpapi/auth.go:99-113 | Succeeds exactly for a live token, and is the refresh step |
| `SessionStore.Store.LogOut` | apps/api/internal/httpapi/auth.go:135-142 | Exactly the presented token stops being live |
| `SessionStore.Store.DeleteOwnSession` | apps/api/internal/httpapi/password_recovery.go:97-107 | Only a session in the user's own set can be deleted |
| `SessionStore.Store.RevokeUserSessions` | apps/api/internal/httpapi/password_recovery.go:109-116 | The loop collects the set's tokens; they and the set are gone |
| `Subscriptions.OneLiveAndNewest` | apps/api/internal/httpapi/billing_admin.go:115-117 | Over serial updates and sweeps a company has at most one current subscription, and it is the newest |
| `Subscriptions.UpdateKeepsNewestIff` | apps/api/internal/httpapi/billing_admin.go:115-117 | An update leaves its current row the newest exactly when the new row is not current or began after all others |
| `Subscriptions.GateAndLookupAgree` | apps/api/internal/httpapi/entitlements.go:26-66 | When the write gate admits on a row, the entitlement lookup reads that same row |
| `Subscriptions.SweptGateIsStatus` | apps/api/internal/httpapi/subscription_worker.go:15-16 | Once a sweep has run at a time, the gate admits then exactly when the row is current |
| `Subscriptions.UpdateEffect` | apps/api/internal/httpapi/billing_admin.go:115-117 | An update cancels the trial, active and overdue rows, leaves the others, and appends the new one |
| `Subscriptions.SweepEffect` | apps/api/internal/httpapi/subscription_worker.go:15-16 | A sweep expires the trial and active rows whose end has come, and no others |
| `Subscriptions.AdmittedIff` | apps/api/internal/httpapi/entitlements.go:60-66 | The gate admits on a trial or active row through its end, and on an overdue one whatever its end |
| `Subscriptions.LookupFinds` | apps/api/internal/httpapi/entitlements.go:26 | The lookup finds something exactly when there is a trial, active or overdue row, and reads the newest of these |
| `Subscriptions.PaidThroughTheEnd` | apps/api/internal/httpapi/entitlements.go:60-66 | The newest active row is the one the gate reads; it admits through the last moment, or until the first sweep from that moment on |
| `Subscriptions.OverlappingUpdatesLockOut` | apps/api/internal/httpapi/billing_admin.go:109-117 | Overlapping updates can leave a live subscription that the gate does not see |
| `Subscriptions.Store.AdminUpdateSubscription` | apps/api/internal/httpapi/billing_admin.go:109-117 | Cancels every current row and appends the new one |
| `Subscriptions.Store.LifecycleSweep` | apps/api/internal/httpapi/subscription_worker.go:15-16 | Expires exactly the trial and active rows past their period |
| `SpendQuote.CanonicalTransactionQuote` | apps/api/internal/httpapi/canonical_transactions.go:72-91 | The clamps in sequence compute the specified quote |
| `SpendQuote.QuoteIsBest` | apps/api/internal/httpapi/canonical_transactions.go:76-86 | The quoted spend is the largest amount not above the request that is zero or within balance and net amount |
| `SpendQuote.QuoteWithinRequestIff` | apps/api/internal/httpapi/canonical_transactions.go:80-86 | The quote is within the request exactly when the request is not negative |
| `SpendQuote.CreateAcceptsTheQuote` | apps/api/internal/httpapi/canonical_transactions.go:115-120 | Closing the receipt at the same balance accepts the quote, and a positive spend exactly when its quote is itself |
| `SpendQuote.PayableAndSpentIff` | apps/api/internal/httpapi/canonical_transactions.go:87-91 | Payable plus spent is the net amount exactly when that is not negative |
| `SpendQuote.MaximumNegativeIff` | apps/api/internal/httpapi/canonical_transactions.go:76-79 | The advertised maximum is negative exactly when the net amount is minus one or less |
| `SpendQuote.MaximumIs` | apps/api/internal/httpapi/canonical_transactions.go:76-79 | For a net amount that is not negative the advertised maximum is the largest whole amount within balance and net |
| `SpendQuote.NothingToSpend` | apps/api/internal/httpapi/canonical_transactions.go:80-91 | A request of nothing or less spends nothing; a negative net amount neither spends nor charges |

## Left out

- BonusBook amounts: the refund ratio (a floating-point product) is not computed; reversed and restored amounts are parameters of the refund step.
- ReferralDesk.DeskRunOk: the refund and the reversal of each reward are one transaction in the code and separate steps here, so the states between them are covered as well.
- BonusStore: registration, receipts, refunds, approvals (operation_approvals.go:124-150), partner bonuses (partnerships.go:168-187) and referral reversals (service.go:407-475) are steps of the book, not methods of the store; the visit log and the book are separate for POS receipts.
- Reward evaluation, visit counts, tier levels and the queues of approval requests and partner offers; what they do to a transaction is whether it goes through, a parameter.
- BonusStore.Store.CustomerWheelSpin: one request at a time; requests that overlap are the subject of WheelSpins.
- Concurrent statements inside one sweep, reward payment or birthday credit: each is one atomic step, so two rewards of an attribution paid at the same moment are not interleaved statement by statement.
- WebhookDelivery: a claim is one atomic statement, so a claim that skips a row locked by another claim is ordered after it; outbound deliveries only.
- AnalyticsProjection: jobs queued by receipts and refunds share the queue but announce no customer event; here their refreshes are manual ones. Amounts with more than two decimals, which the column would round, are not modelled.
- AnalyticsStore.Store.ProcessAnalyticsJobs: a pass with no other worker under way, on a fixed clock; interleavings are the subject of AnalyticsProjection.
- AutomationStore.Store.ProcessCampaignAutomations: a pass of one worker on a fixed clock, so sending takes no time; interleavings and time between claim and completion are the subject of AutomationRuns.
- RFM scores, percentiles, churn, predicted value and the customer features table: database or floating-point arithmetic without a sharp claim.
- AutomationRuns: the candidate query, the message text and the `campaign.sent` event; candidates are parameters.
- Sessions: each call is one step; a call that Redis interrupts half way is not modelled. Access tokens, cookies, MFA and token hashing (distinct tokens have distinct hashes) are outside.
- Subscriptions: module switches, prices and plan limits; the readers are modelled as the row they read.
- Time zones: a day is a whole number of 24-hour spans of the clock.
- HTTP decoding and messages, SMTP, WhatsApp, Poster, signatures and encryption, list and export queries, the React application.
