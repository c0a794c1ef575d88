# ByteVault: a verified model of its stateful services

ByteVault is a file-storage backend. Most of its services are protocols over shared database rows: conditional
`UPDATE` statements, several callers at once, background sweeps, and retries. This project models those protocols and
proves what they keep, over every interleaving, every run, or every input.

How the source is represented:

- A table is a map, an SQL statement is one atomic step, and time is an integer parameter. Calls into Razorpay, the
  object store and password checking are parameters that say how the call ended.
- Where several callers overlap (guest uploads, notification timers, downloads of one share), each caller is a thread
  that stands between two statements, and runs are sequences of actions of any threads. The services themselves are
  classes that update their tables in place; each method is proved equal to the uninterrupted run, or to the operation,
  of the model it implements.
- What an operation does is also stated in terms of its rows alone, with the source's numbers written out, so that no
  definition of the model has to be taken on trust.
- Where a documented property does not hold, the model keeps the code's behaviour, a lemma exhibits a run or an input
  that breaks it, and another lemma gives the exact condition under which it holds.

| file | contents |
|---|---|
| `Totals.dfy`, `Options.dfy`, `Sets.dfy` | sums over maps, optional values, sizes of subsets |
| `InviteProtocol.dfy`, `InviteService.dfy`, `InviteOutcomes.dfy` | guest uploads through invites: statement-level protocol, the service class, and what whole calls come to in the tables |
| `Debounce.dfy`, `NoticeTimes.dfy` | the batched notification counter, its timers and the scheduler flush; how far apart notices come |
| `Billing.dfy`, `BillingPasses.dfy`, `BillingAgreement.dfy`, `PriceLock.dfy` | subscription rows, the scheduler passes, agreement of rows and limits, the upgrade lock |
| `BillingCalls.dfy`, `WebhookEffects.dfy` | what each call and each kind of event makes of rows, limits and ledger; scheduled cancellations and the ledger over runs |
| `Webhooks.dfy`, `WebhookRuns.dfy`, `WebhookAttempts.dfy` | webhooks as lists of writes, retries and duplicates, what an attempt does |
| `WebhookConvergence.dfy`, `WebhookMeetings.dfy`, `WebhookSameRow.dfy` | when runs of deliveries converge, and one event between an attempt and its retry |
| `BillingService.dfy` | the repository, service and handler classes |
| `Pricing.dfy` | GST pricing, the stored rate, and the base and tax split |
| `EphemeralShares.dfy`, `BurnProtocol.dfy`, `ShareOutcomes.dfy` | burn-after-download shares: lifecycle, purge, overlapping downloads, what completing and burning mean for later downloads |
| `RateLimiter.dfy` | the fixed-window API-key limiter |
| `FileNaming.dfy`, `PublicAncestors.dfy` | conflict-free names, public folders |
| `Telemetry.dfy`, `PrefixedStore.dfy`, `Thumbnails.dfy` | the request tracker, prefixed storage and the orphan sweep, nearest-neighbour thumbnails |

## What the proofs found

- **Releases can double when a completion is interrupted.** If a sweep claims a file between the checks of a failing
  completion and its status write, the file's capacity is given back twice (`RaceReleasesTwice`). One action breaks
  the accounts exactly when it is such a late status write (`AccountsKeptIffNotRacy`).
- **The upgrade lock is not written.** `Upgrade` stores the old *package* id in `upgraded_from_id`, a column that
  references `subscriptions(id)` (`cmd/api/migrations/026_create_subscriptions.sql:25`), and ignores the refusal. A
  row ends up locked only if it already was, or if that package id happens to be a subscription id
  (`UpgradeLocksIff`); otherwise a downgrade in the same cycle is possible exactly when `UpgradeUndoneIff` says.
- **A scheduled downgrade of an active row does not survive its own run.** The first pass applies it, and the second
  pass expires the row in the same run and resets the limits to the free tier (`AppliedDowngradeExpires`).
- **A charge may not split back into the package's price.** The taxed price is computed with the rate as asked for,
  but the column keeps two decimals (`cmd/api/migrations/025_create_packages.sql:10`) and a charge is split at the
  stored rate (`TinyRateSplitsWrong`, `DriftSplitsWrong`). It splits back exactly when the tax fits the stored rate
  (`StoredRateInvertsIff`), always for positive rates of whole hundredths (`WholeHundredthsInvert`). `UpdatePackage`
  also keeps a rate that is not positive, while `RecordCharge` replaces it by 18 (`OtherRatesInvertIff`).
- **A late completion reopens a burned share**, because the status write of `CompleteMultipartUpload` is
  unconditional. The comment that no second request can get a link holds only without overlap: with k requests in
  flight and n late completions the limit can be exceeded by exactly k - 1 + k * n links (`LinksBounded`,
  `BoundReached`), so late completions are exactly what breaks the limit plus k - 1 (`KeepsLimitIff`).
- **A retried webhook can end differently from a clean run** when another event comes in between. Over any run whose
  events in between are on other rows, it does exactly when a completed delivery is disturbed: the event goes live and
  unfinished attempts have changed whether the user has another live row, or it records a payment an unfinished event
  of another row has charged (`DeliveriesConvergeIff`). For one event f between a failed attempt at e and its retry:
  on another row of the user, exactly when f goes live and the attempt has turned the row of e (`OneUserConvergesIff`;
  input in `CrossedDeliveriesDiverge`); for another user, only through one payment id (`TwoUsersConvergeIff`); on the
  same row, only through a charge booked on another package or amount (`SameRowConvergesIff`; input in
  `PackageChargeDiverges`). Limits never make the difference.
- **A callback that comes late leaves two timers.** It forgets whichever timer the map names, so the next upload does
  not stop that one (`StaleCallbackLeavesTwo`, reached as `OvertakenReached` shows). Uploads are still reported once
  (`ReportedExactlyOnce`).
- **Taking a downgrade back can lose a cancellation time**: exactly when it was to the free package and the row kept one
  from an earlier cancellation (`DowngradeUndoneIff`).
- **The purge aborts an upload only in a narrow window**: when the share expires after the marking update of its batch,
  or that update failed, and before the listing (`AbortedIff`; input in `ExpiresBetween`). At a fixed time with
  successful marking it aborts none (`CleanupEphemeral`).
- **Waiting the advertised seconds may not be enough** after a refused API request, as the wait is rounded down
  (`WaitSufficesIff`).
- **The public folder page and file download disagree** when the nearest public folder is the sixth to tenth one up
  (`QueryWithoutWalkIff`).
- **A very long image has an empty thumbnail** (`EmptyTargetIff`).

## Model

| member | source | states |
|---|---|---|
| InviteProtocol.CapacityConserved | internal/service/upload_invite_service.go:435-465 | for any interleaving of creates, sweeps and uninterrupted completions: usage = capacity held by threads + linked files not FAILED, it stays within the invite's limits, and no file is released twice |
| InviteProtocol.AccountsKeptIffNotRacy | internal/service/upload_invite_service.go:472-518 | in every shaped, accounted state, an action keeps the accounts if and only if it is not the status write of a completion whose file was claimed since its check |
| InviteProtocol.RaceReleasesTwice | internal/service/upload_invite_service.go:496-510 | a run in which a claim between check and write makes one file's capacity come back twice |
| InviteProtocol.ClampIdle | internal/repository/upload_invite_repository.go:170-180 | in an accounted state a thread about to release holds at most what is stored, so GREATEST(..., 0) never changes a value |
| InviteProtocol.LimitsKept | internal/repository/upload_invite_repository.go:148-168 | no statement of any thread, racy or not, takes usage, of bytes or files, out of 0..limit |
| InviteProtocol.AtMostOneRelease | internal/repository/file_repository.go:286-295 | releases done and due for a file are at most one, only for linked FAILED files, and two sweepers never both hold a claim on it |
| InviteProtocol.ReleasedOnceKeptIff | internal/service/upload_invite_service.go:645-653 | an action keeps "releases done plus releases due is one for a linked FAILED file, none for any other" if and only if it is not racy |
| InviteProtocol.ShapeKept | internal/repository/upload_invite_repository.go:257-266 | every action keeps threads and rows consistent: an unlinked file row belongs to exactly the thread that made it |
| InviteProtocol.QuiescentUsage | internal/service/upload_invite_service.go:376-518 | with nothing in flight, stored usage is the size and number of the linked files not FAILED |
| InviteService.CreateSound | internal/service/upload_invite_service.go:376-468 | one whole guest create keeps all invariants, whichever of its steps fails |
| InviteService.CompleteSound | internal/service/upload_invite_service.go:472-518 | one whole guest completion keeps all invariants, on every branch |
| InviteService.SweepSettles | internal/service/upload_invite_service.go:637-655 | a sweep keeps all invariants and leaves every file it does not fail untouched; which it fails, SweepFails states |
| InviteService.UploadInviteService.GuestCreateUploadSession | internal/service/upload_invite_service.go:376-468 | the method ends in the state of the uninterrupted protocol run, and is accepted exactly when everything succeeded and the invite had room |
| InviteService.UploadInviteService.GuestCompleteUpload | internal/service/upload_invite_service.go:472-518 | the method ends in the state of the uninterrupted protocol run, and accepts exactly a valid, running upload of an active, unexpired invite |
| InviteService.UploadInviteService.CleanupAbandonedUploads | internal/service/upload_invite_service.go:640-655 | the loop ends in the state of the uninterrupted sweep, which SweepFails and SweepReleases describe in the tables |
| InviteService.UploadInviteService.ReserveUsage | internal/repository/upload_invite_repository.go:148-168 | reserves exactly when the invite is active, unexpired and has room for the file and its bytes |
| InviteService.UploadInviteService.RevokeInvite | internal/service/upload_invite_service.go:271-283 | revokes exactly an active invite of the caller, and otherwise changes nothing, as the protocol's action does |
| InviteService.UploadInviteService.ExpireStaleInvites | internal/repository/upload_invite_repository.go:284-292 | expires exactly the active invites past their time |
| InviteOutcomes.SweepFails | internal/repository/upload_invite_repository.go:331-336 | of the files the sweep is shown it fails exactly the linked UPLOADING ones linked more than 7200 seconds before its time; every other file keeps its status, and no link or size changes |
| InviteOutcomes.SweepReleases | internal/service/upload_invite_service.go:640-655 | from a sound state each invite's usage, in files and in bytes, falls by exactly its uploads so failed |
| InviteOutcomes.SweepSpares | internal/repository/upload_invite_repository.go:331-336 | an invite whose listed uploads were all linked within two hours is left as it was |
| InviteOutcomes.GraceOverRuns | internal/repository/upload_invite_repository.go:331-336 | over every interleaving, no statement of a sweep fails a file linked within two hours of the latest time a sweep began |
| InviteOutcomes.CreateOutcome | internal/service/upload_invite_service.go:376-468 | one whole create links the file and counts it exactly when the invite is active, unexpired and has room and the storage steps succeed; otherwise no usage and no link is left |
| InviteOutcomes.CompleteOutcome | internal/service/upload_invite_service.go:472-518 | one whole completion of a running upload: to the scan, FAILED with its capacity back, or untouched, by the invite's state and the content's validity; anything else changes nothing |
| InviteOutcomes.RevokeOutcome | internal/service/upload_invite_service.go:271-283 | only the owner revokes, only an active invite, and only its status changes |
| InviteOutcomes.ExpireOutcome | internal/repository/upload_invite_repository.go:284-292 | exactly the active invites at or past their time expire and nothing else changes |
| Debounce.ReportedExactlyOnce | internal/service/upload_invite_service.go:513-549 | over any interleaving of increments, triggers, stale callbacks and scheduler flushes: sent + pending = increments; a positive counter is attended; once unattended, everything has been sent |
| Debounce.RunKeeps | internal/repository/upload_invite_repository.go:182-254 | conservation and attendance hold in every reachable state |
| Debounce.BurstNotifiesOnce | internal/service/upload_invite_service.go:520-540 | any run in which an invite's uploads come less than ten seconds apart, with other invites, timers and flushes interleaved, leaves one live timer; its callback sends one notice of what is pending, which without a flush is the whole burst |
| Debounce.BurstHeld | internal/service/upload_invite_service.go:523-531 | along such a run the one live timer of the invite is due ten seconds after its last upload |
| Debounce.NoCallbackInBurst | internal/service/upload_invite_service.go:527-531 | at no point of such a run does a callback of the invite start |
| Debounce.NoEarlyCallback | internal/service/upload_invite_service.go:527-531 | before that deadline firing any timer of the invite changes nothing |
| Debounce.Notifier.TriggerDebouncedNotification | internal/service/upload_invite_service.go:523-540 | stops the timer the map names and installs the new one, as the protocol's action does |
| Debounce.Notifier.FlushPendingNotifications | internal/service/upload_invite_service.go:619-630 | the loop is the protocol's scheduler flush, whose outcome SchedulerSends states |
| NoticeTimes.SchedulerSends | internal/repository/upload_invite_repository.go:190-211 | a scheduler flush sends, once and whole, the positive counter of every listed invite never notified or last notified more than 120 seconds ago, and leaves none pending; every other invite keeps counter and time and gets no notice |
| NoticeTimes.NoticesSpaced | internal/repository/upload_invite_repository.go:196 | over any interleaving with ordered database times, a notice of the scheduler comes more than 120 seconds after every earlier notice of its invite |
| NoticeTimes.SentSpaced | internal/repository/upload_invite_repository.go:188-196 | the same for all notices a run from the start has sent, in the order they were sent |
| NoticeTimes.UploadsReported | internal/repository/upload_invite_repository.go:182-186 | what was sent for an invite plus its counter is the number of completed uploads |
| NoticeTimes.StaleCallbackLeavesTwo | internal/service/upload_invite_service.go:523-540 | a callback that clears the map late leaves two live timers of one invite, the first of which reports everything |
| BillingAgreement.AgreementOverRuns | internal/service/subscription_service.go:67-782 | over every run of the ten operations whose calls pass their checkable conditions: one live row a user, pending only on active rows, active packages agree with stored limits |
| BillingAgreement.VerifyKeepsIff | internal/service/subscription_service.go:182-270 | Verify keeps agreement if and only if the limits it grants are not taken from another active row of the user |
| BillingAgreement.VerifyLiveRowHarmless | internal/service/subscription_service.go:205-251 | on the user's live row that condition always holds |
| BillingAgreement.AdminCancelKeepsIff | internal/service/subscription_service.go:578-618 | AdminCancel keeps agreement if and only if the row has nothing pending and no other active row of the user is limited otherwise |
| BillingAgreement.AdminAssignKeepsIff | internal/service/subscription_service.go:622-668 | AdminAssign keeps agreement if and only if the user's live row has nothing pending |
| BillingAgreement.SubscribeKeeps | internal/service/subscription_service.go:67-178 | Subscribe keeps agreement |
| BillingAgreement.UpgradeKeeps | internal/service/subscription_service.go:274-361 | Upgrade keeps agreement |
| BillingAgreement.FlagCallsKeep | internal/service/subscription_service.go:365-543 | Downgrade, Cancel and CancelPendingDowngrade keep agreement |
| BillingAgreement.ActivatedKeeps | internal/handler/webhook_handler.go:205-216 | the activated webhook keeps agreement |
| BillingAgreement.PassKeeps | internal/service/subscription_service.go:718-792 | the two scheduler passes keep agreement |
| BillingPasses.PassSettles | internal/service/subscription_service.go:718-792 | after the passes no active row is overdue, no overdue row keeps a pending package, rows not overdue are untouched, users of rows just expired have free limits, and a second pass changes nothing |
| BillingPasses.PassRows | internal/repository/subscription_repository.go:224-342 | what the two passes make of each row, whatever order the rows are listed in |
| BillingPasses.PassSparesOthers | internal/service/subscription_service.go:771-792 | a user without an overdue active or pending row keeps the stored limits |
| BillingPasses.AppliedDowngradeExpires | internal/service/subscription_service.go:721-792 | a downgrade applied to an active row is expired by the second pass of the same run, and the user ends on the free limits |
| BillingCalls.CancelHolds | internal/service/subscription_service.go:474-509 | after an accepted Cancel every upgrade and downgrade of the user is refused, over any run of calls and webhooks, cut short or not, until the user takes a downgrade back, the administrator assigns a package, or a payment or webhook concerns a row of the user with no cancellation scheduled |
| BillingCalls.CancelOutcome | internal/service/subscription_service.go:474-509 | Cancel on the active current row sets cancel_at_cycle_end, clears cancelled_at and changes nothing else; otherwise it changes nothing |
| BillingCalls.UpgradeOutcome | internal/service/subscription_service.go:274-361 | with every guard written out: the row and the limits move to the dearer package, or nothing changes |
| BillingCalls.DowngradeOutcome | internal/service/subscription_service.go:365-470 | with every guard written out: the cheaper package is only noted, and for the free one the end is scheduled |
| BillingCalls.CancelPendingOutcome | internal/service/subscription_service.go:512-543 | the note is cleared and with it a scheduled cancellation |
| BillingCalls.DowngradeUndoneIff | internal/service/subscription_service.go:365-543 | a downgrade taken back restores every table if and only if it was not to the free package or the row kept no cancellation time |
| BillingCalls.SubscribeThenVerify | internal/service/subscription_service.go:67-270 | a checkout that is paid for leaves the user exactly one current row, active, of the package bought, for the period given, with that package's limits, and no other user's row changed |
| BillingCalls.SubscribeAgain | internal/service/subscription_service.go:67-178 | a user with a current row that is not an unpaid checkout is refused; an unpaid one is cancelled and replaced |
| BillingCalls.VerifyOutcome | internal/service/subscription_service.go:196-251 | which status, period, payment and limits are written, from the gateway's answer or the clock, and when none is |
| BillingCalls.AdminCancelOutcome | internal/service/subscription_service.go:578-618 | the row ends at once, dated, and its user has the free limits, five and two gibibytes without a free package |
| BillingCalls.AdminAssignOutcome | internal/service/subscription_service.go:622-668 | the user's only current row is the new one as given, with its limits; the one before has ended; no other row changes |
| BillingCalls.PassOutcome | internal/service/subscription_service.go:718-792 | what the passes make of a row whose end is at or before now, column by column; any other row is untouched |
| PriceLock.CheaperOverRuns | internal/service/subscription_service.go:382-396 | in every reachable state, partly handled webhooks included, a pending package is strictly cheaper and never next to a lock |
| PriceLock.LockProtectsPrice | internal/service/subscription_service.go:291-325 | once locked, no run of calls, passes and webhooks other than charged and updated lowers the package price |
| PriceLock.UpgradeLocksIff | internal/repository/subscription_repository.go:207-222 | after Upgrade the row is locked if and only if it was before or the old package id is a subscription id |
| PriceLock.UpgradeUndoneIff | internal/service/subscription_service.go:317-325 | after Upgrade some run of user actions and of passes that list every row once lowers the price if and only if no lock was written, the row has a period end, and a cheaper package can be a downgrade target |
| Webhooks.RetryConverges | internal/handler/webhook_handler.go:169-441 | any prefix of an event's writes followed by all of them ends as all of them would have from the start, refused writes included |
| WebhookRuns.RetryEqualsCleanRun | internal/handler/webhook_handler.go:122-145 | for every event kind and every point of failure, the retry recomputes its writes and gives the same rows, limits, ledger and answer as one clean run |
| WebhookRuns.RecordedOnce | internal/repository/webhook_event_repository.go:21-42 | along a run of deliveries each event key is recorded at most once and stays recorded |
| WebhookRuns.DuplicatesVanish | internal/handler/webhook_handler.go:122-129 | a delivery of a recorded event can be dropped anywhere without a trace |
| WebhookRuns.WritesStable | internal/handler/webhook_handler.go:175-195 | after any part of an attempt, the retry finds the same row and computes the same writes |
| WebhookConvergence.DeliveriesConvergeIff | internal/handler/webhook_handler.go:122-145 | over any run in which failed attempts are retried, events in between are on other rows, and no event is delivered to its end twice: rows, limits, ledger and recorded events end as after the completed deliveries alone if and only if no completed delivery goes live with the user's other rows crossed, or records a payment charged elsewhere |
| WebhookConvergence.DeliveriesConverge | internal/handler/webhook_handler.go:122-145 | undisturbed deliveries converge with repeated deliveries too, whatever limits the events grant and however many wait for their retries |
| WebhookMeetings.UnmetDeliveriesConverge | internal/handler/webhook_handler.go:169-441 | so do deliveries of which no completed one, going live, meets an unfinished event that turns a row of its user, or one that charges its payment |
| WebhookMeetings.OneUserConvergesIff | internal/handler/webhook_handler.go:122-145 | a failed attempt at e, an event f on another row of the user, and the retry end as f and e alone if and only if f does not go live or the attempt has not turned the row of e |
| WebhookMeetings.TwoUsersConvergeIff | internal/service/transaction_service.go:42-115 | for different users they do unless f is accepted and the attempt has newly charged the payment of f |
| WebhookSameRow.SameRowConvergesIff | internal/handler/webhook_handler.go:205-260 | for one and the same row they do unless a new payment is charged with the package changed in between, or charged by both events with different amounts |
| WebhookMeetings.AnswerMovesIff | internal/repository/subscription_repository.go:134-152 | an unfinished event changes the answer to an event on another row of its user if and only if it has turned its own row live or not live and the other goes live |
| WebhookMeetings.CrossedDeliveriesDiverge | internal/handler/webhook_handler.go:122-145 | a cut cancellation, a resumption of the user's other row and the retry leave that row active, the completed deliveries alone leave it halted |
| WebhookMeetings.RepeatMends | internal/repository/webhook_event_repository.go:21-42 | a second complete delivery of that resumption makes the ends agree again, so the equivalence needs events delivered to their end once |
| WebhookSameRow.PackageChargeDiverges | internal/service/transaction_service.go:42-115 | a payment between a cut package update and its retry is booked on the new package, by the completed deliveries alone on the old one |
| BillingService.Database.UpdateStatus | internal/repository/subscription_repository.go:134-152 | writes the COALESCEd columns exactly when the row exists and the live-row index allows the status |
| BillingService.Database.Create | internal/repository/subscription_repository.go:28-52 | inserts exactly when neither unique index is violated, and keeps both |
| BillingService.Database.RecordCharge | internal/service/transaction_service.go:42-115 | a new payment is booked once, for the row's user, subscription and package, with base and tax adding up to the total; an existing entry never changes |
| BillingService.SubscriptionService.Subscribe | internal/service/subscription_service.go:67-178 | the statements end in the model's state, other tables untouched; created exactly when the new row exists |
| BillingService.SubscriptionService.Verify | internal/service/subscription_service.go:196-270 | the statements end in the model's state; succeeds exactly for the user's own row that is active already or may take the status |
| BillingService.SubscriptionService.Upgrade | internal/service/subscription_service.go:274-361 | the statements end in the model's state; succeeds exactly under the model's guards |
| BillingService.SubscriptionService.Downgrade | internal/service/subscription_service.go:365-470 | the statements end in the model's state; succeeds exactly under the model's guards |
| BillingService.SubscriptionService.Cancel | internal/service/subscription_service.go:474-509 | the statements end in the model's state; succeeds exactly for an active live row, which then has its cancellation scheduled and not dated, and nothing else differs |
| BillingService.SubscriptionService.CancelPendingDowngrade | internal/service/subscription_service.go:512-543 | the statements end in the model's state; succeeds exactly when a downgrade is pending on an active live row |
| BillingService.SubscriptionService.AdminCancel | internal/service/subscription_service.go:578-618 | the statements end in the model's state; succeeds exactly for an existing row |
| BillingService.SubscriptionService.AdminAssign | internal/service/subscription_service.go:622-668 | the statements end in the model's state; succeeds exactly for a known package |
| BillingService.SubscriptionService.ProcessScheduledDowngrades | internal/service/subscription_service.go:718-792 | the two loops over listed copies end in the model's state |
| BillingService.WebhookHandler.ProcessEvent | internal/handler/webhook_handler.go:169-441 | the statements of every branch end, in state and answer, as the event's list of writes |
| BillingService.WebhookHandler.HandleRazorpayWebhook | internal/handler/webhook_handler.go:122-145 | a delivery that runs to its end leaves the model's tables and recorded events |
| WebhookEffects.StatusEvents | internal/handler/webhook_handler.go:339-389 | authenticated, pending, halted, paused and resumed write their own status and the times and payment they bring, and nothing else |
| WebhookEffects.TermEvents | internal/handler/webhook_handler.go:205-302 | activated grants the limits of a known package; completed and expired those of the free one |
| WebhookEffects.CancelledEvent | internal/handler/webhook_handler.go:304-337 | cancelled ends and dates the row, clears the flag, and resets the limits at once if and only if the event names no end or one not after now |
| WebhookEffects.UpdatedMoves | internal/handler/webhook_handler.go:391-435 | updated with a known plan moves row and limits to that package and clears a pending one |
| WebhookEffects.RefusedMove | internal/handler/webhook_handler.go:391-435 | when the index refuses its status, the package, the pending column and the limits have changed all the same, and the event is answered with an error |
| WebhookEffects.ChargedEvent | internal/handler/webhook_handler.go:218-262 | charged activates and unlocks the row, makes the reminders of 7, 5, 3, 2 and 1 days due again, and books a new payment for the row; a known payment changes no entry |
| WebhookEffects.ChargeBooksPrice | internal/service/transaction_service.go:66-102 | a new payment of a price and the whole tax nearest to the rate on it is booked with that price as base and that tax as tax, at every positive rate |
| WebhookEffects.LedgerOverRuns | internal/service/transaction_service.go:42-115 | over every run of calls and webhooks, cut short or not, base and tax of every entry add up to its total and no entry is changed or removed |
| Pricing.SplitInvertsPricing | internal/service/transaction_service.go:66-73 | for every price and positive rate, splitting the taxed price gives back exactly the price and its tax |
| Pricing.TaxedPriceIs | internal/service/package_service.go:40-60 | the tax on a positive price is the whole number nearest to so many parts in a hundred of it; a price that is not positive is taxed to 0 |
| Pricing.BaseNearest | internal/service/transaction_service.go:66-73 | the base of a charge is the whole number nearest to what, taxed at the rate (18 when it is not positive), comes to the charge |
| Pricing.SavableIff | cmd/api/migrations/025_create_packages.sql:9-11 | a row can be saved if and only if its rate is under 999.995 either way and its prices are 32-bit |
| Pricing.StoredRateInvertsIff | internal/service/transaction_service.go:66-73 | for every rate asked for, the split at the stored rate gives back the price if and only if the tax charged is within half a taxed unit of the exact tax at the stored rate |
| Pricing.WholeHundredthsInvert | cmd/api/migrations/025_create_packages.sql:10 | a positive rate of whole hundredths is stored as it is, so the price splits back |
| Pricing.SmallDriftInverts | cmd/api/migrations/025_create_packages.sql:10 | so does any price small enough for the rounding of its rate |
| Pricing.TinyRateSplitsWrong | internal/service/transaction_service.go:66-73 | a rate of 0.004 is stored as 0, the default takes its place, and a price of 1000 splits to 847 |
| Pricing.DriftSplitsWrong | internal/service/transaction_service.go:71-73 | a rate of 18.004 is stored as 18, and a price of 10000000 does not split back |
| Pricing.OtherRatesInvertIff | internal/service/package_service.go:81-89 | for a rate asked for that is not positive the split gives back the price if and only if the price is at most 3 and its tax rounds to nothing |
| Pricing.SplitAddsUp | internal/service/transaction_service.go:71-73 | base and tax of any charge are non-negative and add up to it |
| Pricing.CreatePackage | internal/service/package_service.go:40-79 | the row holds the price, the rate asked for or the default rounded to two decimals, and the price taxed at the unrounded rate; refused exactly when a column cannot hold its value or the gateway makes no plan for a paid tier; a charge splits back exactly when the tax fits |
| Pricing.UpdatePackage | internal/service/package_service.go:81-89 | the same for an existing row, with no default rate in its place and no plan made |
| EphemeralShares.LifecycleOverRuns | internal/service/ephemeral_service.go:298-485 | over any run of whole operations a share past its upload stays in the table, BURNED stays BURNED, EXPIRED can only become BURNED, a cleared key stays cleared |
| EphemeralShares.DrainSpares | internal/repository/ephemeral_share_repository.go:151-196 | draining touches no unexpired unburned share and leaves nothing eligible |
| EphemeralService.CleanupEphemeral | internal/notification/scheduler/scheduler.go:329-381 | for any clock readings of its statements, and markings that may fail, the drain loop ends; each row is handed out at most once, by a batch that found it eligible, and cleared; all other rows are as marking leaves them; nothing eligible at the last listing is left; objects are deleted or uploads aborted accordingly. At a fixed time with successful marking: the drained table, exactly the eligible rows, nothing aborted |
| EphemeralService.AbortedIff | internal/notification/scheduler/scheduler.go:359-368 | a listed row's upload is aborted if and only if the share was uploading with an upload id, no marking up to its batch ran after it expired, and its listing did |
| EphemeralService.ExpiresBetween | internal/repository/ephemeral_share_repository.go:153-170 | a share that expires between the two statements of a batch is listed as uploading, and aborted |
| EphemeralService.EphemeralShareRepository.PurgeExpiredAndBurned | internal/repository/ephemeral_share_repository.go:151-196 | a batch, with a clock reading for each statement, marks what is past due unless the update fails, returns up to 100 distinct eligible rows, all of them when fewer, and clears exactly their keys |
| EphemeralService.EphemeralService.RequestDownload | internal/service/ephemeral_service.go:395-460 | the statements end in the model's table; a link is given exactly when every guard and the signing pass |
| EphemeralService.EphemeralService.CompleteMultipartUpload | internal/service/ephemeral_service.go:298-338 | the statements end in the model's table; succeeds exactly for an assembled object of its own open session that is not oversized, and then the share is ACTIVE and otherwise as it was; the only other change it makes is BURNED; it drops its progress entry |
| ShareOutcomes.CompletionOutcome | internal/service/ephemeral_service.go:298-338 | an accepted completion leaves the row ACTIVE and otherwise as it was, one larger than declared or than two gibibytes leaves it BURNED, a refusal changes no row |
| ShareOutcomes.CompletedServes | internal/service/ephemeral_service.go:298-449 | after an accepted completion a download in time gets its link, through any calls that neither burn nor expire the share and fewer attempts than the limit |
| ShareOutcomes.BurnedServesNone | internal/service/ephemeral_service.go:326-485 | after an oversized completion, an oversized or the last download, or an administrator's burn, no download gets a link over any run of whole operations |
| ShareOutcomes.CompletionIsRun | internal/service/ephemeral_service.go:298-338 | the whole completion is its check and its one write, run without interruption |
| ShareOutcomes.OversizedSignsNone | internal/service/ephemeral_service.go:321-329 | after an oversized completion no link is signed in any interleaving, until another completion reopens the share |
| ShareOutcomes.ShutUntilReopened | internal/service/ephemeral_service.go:395-449 | once a share is over, at most the requests already past the check get a link, one each, until a completion reopens it |
| ShareOutcomes.DownloadOutcome | internal/service/ephemeral_service.go:395-449 | a download counts before it is signed; signed and at the limit it burns and dates the share; an object too large burns it uncounted; a refusal changes nothing |
| ShareOutcomes.PurgeOutcome | internal/repository/ephemeral_share_repository.go:151-196 | one batch, row by row: past due is marked, and of the rows handed out those expired, past due, or burned more than 900 seconds ago lose their key |
| EphemeralService.EphemeralService.AbortMultipartUpload | internal/service/ephemeral_service.go:340-362 | removes the row exactly for its own running session |
| BurnProtocol.LinksBounded | internal/service/ephemeral_service.go:395-449 | with at most k requests in flight and n completions written after the share is over, links signed never exceed max(1, max_downloads) - 1 + k * (1 + n) |
| BurnProtocol.SequentialLinksBounded | internal/service/ephemeral_service.go:439-441 | without overlap links never exceed max(1, max_downloads) by more than the number of late completions |
| BurnProtocol.BoundReached | internal/repository/ephemeral_share_repository.go:75-95 | for every limit, every k and every n some run with at most k requests in flight and n late completions signs exactly that many links |
| BurnProtocol.KeepsLimitIff | internal/service/ephemeral_service.go:304-337 | of an upload still running, all runs with at most n late completions keep to max(1, max_downloads) - 1 + k if and only if n is 0 |
| BurnProtocol.DownloadIsRun | internal/service/ephemeral_service.go:395-449 | the whole operation is its statements run without interruption |
| RateLimiter.SlidingBound | internal/middleware/api_key_rate_limiter.go:45-75 | any half-open interval of m minutes admits at most (m + 1) * L - 1 requests of a key with limit L, cleanups included |
| RateLimiter.BoundReached | internal/middleware/api_key_rate_limiter.go:54-61 | for every limit and every m some run admits exactly that many |
| RateLimiter.RefusedOnlyWhenFull | internal/middleware/api_key_rate_limiter.go:63-70 | a request is refused only if exactly L were admitted in the window that began less than a minute ago |
| RateLimiter.AdmittedBelowLimit | internal/middleware/api_key_rate_limiter.go:45-75 | a request is admitted whenever fewer than L were admitted in the minute up to it |
| RateLimiter.CleanupInvisible | internal/middleware/api_key_rate_limiter.go:32-41 | a limiter with cleanups at arbitrary times gives the answers of one that never cleans up |
| RateLimiter.WaitSufficesIff | internal/middleware/api_key_rate_limiter.go:63-66 | waiting the returned seconds is enough if and only if what was left of the window was a whole number of seconds or less than one |
| RateLimiter.APIKeyRateLimiter.Allow | internal/middleware/api_key_rate_limiter.go:45-75 | the method answers and updates as the model's step |
| RateLimiter.AskOutcome | internal/middleware/api_key_rate_limiter.go:45-75 | one request with the source's numbers: admitted, what is left and how long to wait, in a window of 60 seconds and a limit of 60 when none is set |
| RateLimiter.RemainingExact | internal/middleware/api_key_rate_limiter.go:54-75 | after any run, what an admitted client is told is left is the limit less the requests admitted in the running window |
| RateLimiter.APIKeyRateLimiter.Cleanup | internal/middleware/api_key_rate_limiter.go:32-41 | the loop deletes exactly the windows older than two minutes |
| FileNaming.DecimalInjective | internal/service/file_service.go:313 | different counters print differently |
| FileNaming.DecimalIs | internal/service/file_service.go:313 | the digits printed stand for the counter, without a leading zero |
| FileNaming.CandidateIs | internal/service/file_service.go:313 | the k-th name is the base, a blank, k in parentheses and the extension, and base and extension make up the name |
| FileNaming.ExtIs | internal/service/file_service.go:301-302 | the extension runs from the last dot when no slash follows it, and is empty otherwise |
| FileNaming.TakenIff | internal/repository/file_repository.go:769-803 | a name is taken exactly by a file of the user in the folder that is not deleted, NULL and the empty id both standing for the root |
| FileNaming.CandidatesDistinct | internal/service/file_service.go:301-314 | no two names tried are the same |
| FileNaming.AlwaysFreshNumbered | internal/service/file_service.go:300-319 | with fewer than 100 active names the result is the first free one of the original and its 99 numbered forms, and the random form is unreachable |
| FileNaming.RandomFormIff | internal/service/file_service.go:315-317 | the random form is used if and only if all 100 candidates are taken |
| FileNaming.FileService.ResolveNonConflictingFilename | internal/service/file_service.go:300-319 | the loop returns the first free candidate, or the random form |
| FileNaming.FileService.FindByFilenameAndFolder | internal/repository/file_repository.go:769-803 | finds a row exactly when the name is active in the folder, and then the newest such row |
| PublicAncestors.IsAccessiblePublicly | internal/service/file_service.go:686-710 | true exactly when the file or one of its first five live ancestors is public |
| PublicAncestors.AncestorIff | internal/service/file_service.go:693-707 | the n-th ancestor is x if and only if n parent links lead from the folder to x through live folders |
| PublicAncestors.HierarchyExact | internal/repository/folder_repository.go:64-73 | on any graph, cycles included, the recursive table is exactly the first ten live ancestors with their distances |
| PublicAncestors.QueryExact | internal/repository/folder_repository.go:62-79 | the folder is found if and only if one of its first ten live ancestors is public |
| PublicAncestors.WalkImpliesQuery | internal/service/file_service.go:693-707 | what the walk shows, the query shows |
| PublicAncestors.QueryWithoutWalkIff | internal/service/file_service.go:695 | they disagree if and only if the nearest public folder is the sixth to the tenth |
| PublicAncestors.WalkAndQueryDecide | internal/repository/folder_repository.go:64-78 | with at most five (ten) different folders above, the walk (the query) decides unbounded reachability |
| Telemetry.TelemetryTracker.Record | internal/monitoring/telemetry.go:44-81 | after any history the ring read from durIndex is its last min(n, 1000) durations, and counters and routes are those of the history |
| Telemetry.TallyIs | internal/monitoring/telemetry.go:66-101 | a route is listed if and only if it had a request, an empty one counting as "unknown", with its number, its failures and its total duration |
| Telemetry.ClassesAre | internal/monitoring/telemetry.go:47-54 | the counters are the numbers of statuses 200 to 299, 400 to 499, and 500 or more |
| Telemetry.CountsAddUp | internal/monitoring/telemetry.go:67-77 | route counts sum to the number of requests |
| Telemetry.ErrorsWithinCounts | internal/monitoring/telemetry.go:76-80 | no route has more errors than requests |
| Telemetry.ClassesAddUp | internal/monitoring/telemetry.go:47-54 | every request falls in exactly one status class |
| Telemetry.TelemetryTracker.GetSnapshot | internal/monitoring/telemetry.go:143-229 | P50 <= P95 <= P99 <= Max, each the window value at its rank: no more than its share of the window lies strictly below it and more than its share at or below it; no omitted route has more hits than a listed one |
| Telemetry.CutIsTop | internal/monitoring/telemetry.go:223-229 | sorting by count and cutting at ten lists the busiest routes |
| PrefixedStore.UploadView | internal/storage/prefixed.go:32-34 | an upload through the prefix is an upload in the store it shows |
| PrefixedStore.DeleteView | internal/storage/prefixed.go:40-42 | a deletion through the prefix is a deletion in the store it shows |
| PrefixedStore.SharedKeyIff | internal/storage/prefixed.go:18-30 | two prefixes share a key if and only if one is a prefix of the other |
| PrefixedStore.EnvironmentsIsolated | internal/storage/prefixed.go:18-42 | uploads and deletions in one slash-free environment are invisible in every other |
| PrefixedStore.PrefixedStorageProvider.List | internal/storage/prefixed.go:56-71 | lists each key of the store shown once: stripping is the inverse of prefixing |
| PrefixedStore.PrefixedStorageProvider.Upload | internal/storage/prefixed.go:32-34 | refines the plain store's upload |
| PrefixedStore.PrefixedStorageProvider.Delete | internal/storage/prefixed.go:40-42 | refines the plain store's deletion |
| PrefixedStore.GetAllStorageKeys | internal/repository/file_repository.go:521-541 | the keys collected are exactly those some row references |
| PrefixedStore.Scheduler.CleanupOrphans | internal/notification/scheduler/scheduler.go:192-247 | below "user/" exactly the stored keys some row references remain, below "avatars/" the active ones; nothing else in the environment and nothing outside it changes |
| Thumbnails.TargetFits | internal/notification/worker/media_worker.go:584-593 | the target exceeds neither the source nor the limit |
| Thumbnails.TargetKeepsShape | internal/notification/worker/media_worker.go:584-593 | of a larger source the longer side becomes maxDim and the shorter its exact share of that, rounded down |
| Thumbnails.SampleIs | internal/notification/worker/media_worker.go:598-599 | the source coordinate sampled is the exact quotient rounded down: the image is scaled, not cropped |
| Thumbnails.EmptyTargetIff | internal/notification/worker/media_worker.go:584-595 | the target has no pixel if and only if the source has none or one side is more than maxDim times the other |
| Thumbnails.SampleInside | internal/notification/worker/media_worker.go:598-600 | every sampled coordinate lies inside the source |
| Thumbnails.PixelsInjective | internal/notification/worker/media_worker.go:596-602 | distinct target pixels sample distinct source pixels |
| Thumbnails.SmallSourceCopied | internal/notification/worker/media_worker.go:584-602 | a source within the limit is copied pixel by pixel |
| Thumbnails.ResizeImage | internal/notification/worker/media_worker.go:579-602 | the loops divide by nothing zero and copy to every target pixel the source pixel it samples |

## Left out

- InviteProtocol.CapacityConserved: completions are uninterrupted, because RaceReleasesTwice shows the property false otherwise; a completion that fails because the owner soft-deleted the file, and owner edits of linked files, are not modelled.
- BillingAgreement.AgreementOverRuns: each Verify, AdminCancel and AdminAssign meets its exact condition; webhooks other than subscription.activated are not calls of these runs, as they may revive an old row without granting its limits.
- WebhookConvergence.DeliveriesConvergeIff: events of the same subscription between a failed attempt and its retry are covered for one event (SameRowConvergesIff), not over runs; with repeated complete deliveries only DeliveriesConverge holds, as RepeatMends shows; `now` is fixed; timestamps, invoice numbers, audit rows and notifications are ignored.
- Pricing.CreatePackage: the other columns of a package, such as its unique name, and the plan id kept with it.
- Pricing.StoredRateInvertsIff: a charge is of the row's own taxed price; UpdatePackage does not change the amount of an existing Razorpay plan, and such a charge is only covered by SplitAddsUp.
- BurnProtocol.LinksBounded: no action deletes the row, as AbortMultipartUpload does to a running upload; a request on a deleted row gets no link.
- PriceLock.LockProtectsPrice: package prices do not change.
- Database statements that fail although the row allows them, where the source logs the error and goes on (UpdateStorageLimits after a webhook, for one), and the check or recording of a webhook event failing.
- Two packages that share a Razorpay plan: FindByRazorpayPlanID would return either.
- Signature checks, HMAC, passwords, passcodes and guest sessions, per-IP limits: library behaviour or single-counter bounds.
- The fallback key of getEventID: the event carries its key.
- SyncWithRazorpay, GetCurrentSubscription, customer registration, and renewal reminders (part 3 of ProcessScheduledDowngrades).
- A quota cap as an invariant: usage skips files waiting for their scan.
- Folder acyclicity: the source only rejects a self-move, and the ancestor results hold on cyclic graphs.
- A purge that removes an object while its storage key is shared by another row.
- Paths in which a file's row and its object differ after a failed storage call.
- Concurrent use of the request tracker: its counters are incremented outside its lock, and the model takes each Record as one step.
- Averages, uptime, memory and pool figures of the snapshot; floating-point rounding of percentile indices and prices, for which exact arithmetic is used.
- A source image whose bounds do not start at zero: coordinates are taken from its corner; JPEG encoding.
- Upload progress figures, preview links, bandwidth records and the delayed deletion after a burn.
- MIME and extension tables, settings, activity logs, contact and consent forms, the Redis job queue: table lookups and single statements, with nothing to prove across several of them.
- Pagination: cursors are cut to whole seconds, so completeness does not hold.
