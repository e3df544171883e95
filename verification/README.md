# Verified model of the account, billing and quota logic

The system is a multi-tenant feedback service: workspaces with public boards, accounts identified by
an email, one subscription per account at an outside payment provider (Paddle), offers and promo
codes, device sessions, and a cache and burst counters in front of the public pages. This project
models the code with the deepest state and proves what it keeps, over every run rather than one call.

`dafny verify dfyconfig.toml` checks everything. Tables are maps or sequences, time is an integer
(seconds, or milliseconds where the code uses them), money is whole cents, and a database or provider
that stops answering is a number of calls that succeed before one fails.

| file | what it models |
|---|---|
| `Plans.dfy` | tiers, limits, list prices, provider price ids and their inverses |
| `Accounts.dfy` | account rows, the seven mirrored columns on workspaces, writes and workspace creation as rolled-back transactions |
| `Paddle.dfy`, `Billing.dfy` | each billing handler: as a function of one account and its subscription, and as a method over the shared tables proved equal to that function |
| `PaddleColumns.dfy` | what each billing handler leaves in the account row, the item, the bill and the term, column by column |
| `PaddleRuns.dfy`, `PaddleExact.dfy` | the invariant between account row and subscription over all runs, and the exact conditions under which each handler is right |
| `Deferred.dfy` | a recorded yearly-to-monthly change and the sweep that must catch it before the renewal |
| `Scheduler.dfy` | any number of workers sweeping under an advisory lock, interleaved call by call |
| `PromoLedger.dfy` | promo redemption, statement by statement, under any interleaving |
| `Offers.dfy` | the advertised price against the charged price, through two lookups |
| `PromoPercent.dfy` | the bound on percent-off codes |
| `WriteCounters.dfy`, `TtlCache.dfy` | fixed-window burst caps; the size- and time-bounded cache against its history |
| `Rows.dfy`, `PublicBoard.dfy` | result sets as sequences; the batched board query against the same page computed post by post |
| `AccountPurge.dfy` | erasing an account in one transaction over cascading and restricting foreign keys |
| `Quotas.dfy`, `Sessions.dfy`, `CommentThread.dfy`, `FormToken.dfy` | seats and workspace caps, device sessions, the walk to a thread's root, the signed form token |
| `Options.dfy`, `Text.dfy`, `Sets.dfy`, `Rounding.dfy` | an optional value, string trimming, sizes of sets, rounding |

## What the proofs found

Where the code keeps a property only under a condition, the condition is proved exact.

- **Billing.** The app shows the billed tier after every completed reconcile, in every run that respects six conditions on
  change requests; each is shown to be exact or needed. Requests are split at the provider's answer, so that webhooks, sweeps
  and the clock may come between their two calls. A downgrade is held correctly exactly when the stored period end is the
  provider's (`DowngradeHeldExactlyWhenDateRight`), when its second call does not fail
  (`DowngradeSafeExactlyWhenNotHalfDone`), and when no reconcile completes between the two calls
  (`DowngradeHeldExactlyWhenUndisturbed`): the provider's own webhook for the first call runs one, and if it gets in between,
  the lower tier is shown for the rest of the term that was paid at the higher one. An upgrade is shown exactly when nothing
  is pending, because the upgrade branch does not clear the markers (`UpgradeShownExactlyWhenNothingPending`). Taking a change
  back is right exactly before its date, which the handler does not check (`CancelRightExactlyWhenInTime`), and when no sweep
  swaps the item again between its two calls (`CancelRightExactlyWhenNoSweepBetween`).
- **Scheduler.** The comment at `src/common/billingScheduler.js:14-17` says that the sweep skips an item that already matches,
  so that a failure of the lock only wastes work. `WithoutLockTwoUpdates` builds, from any account that is due, an
  interleaving of two unlocked workers that both send the update, so the skip does not prevent the second one. That the two
  together bill at most once, as the comment promises, rests on the provider billing nothing for an item already in place.
- **Missed sweeps.** Sweeps at most the lead apart always swap in time; with any longer gap a further year can be billed
  (`LongerGapBillsAnotherYear`).
- **Promo codes.** A usage reset breaks the ledger exactly when its second statement finds a claim in flight or a new row, and
  lowering a cap breaks it exactly when the cap is below current usage.
- **Offers.** Stored price and provider discount are rounded separately, so a new offer is charged as shown exactly when the
  price entered is not at half a cent; 5.125 dollars is shown as 5.13 and charged as 5.12. A deactivation cut short after archiving leaves an offer on show that checkout no
  longer applies.
- **Purge.** Posts in workspaces of others always survive. Comments there survive exactly when no row that goes with the
  account or its workspaces wrote a comment elsewhere; `CommentElsewhereIsLost` is a concrete case. The header comment
  (`src/common/accountDeletion.js:23-26`) does not mention it.
- **Sessions.** A request in the last 14 minutes keeps a session live only when strictly less than 14 minutes have passed.
- **Threads.** Public replies keep threads two levels deep; the dashboard's insert does not check its parent, and keeps
  them exactly when that parent opens a thread of the same post.
- **Board.** The schema comment at `feedboard_db.sql:288-290` says public reads show only published posts; the code also
  shows pending ones, and so does the model.

## Model

| member | source | states |
|---|---|---|
| Plans.LimitsGrowWithRank | src/consts/plans.js:32-106 | A higher tier never admits fewer seats, owned workspaces or joined workspaces than a lower one |
| Plans.DirectionReverses | src/main/billing/paddleBilling.js:41-46 | The reverse of a plan change has the opposite direction, except exactly between two distinct unranked plans on one interval |
| Plans.PricesRoundTrip | src/consts/plans.js:166-186 | The plan and interval read back from a price id are those it was made for, exactly when the configured ids are distinct |
| Plans.LookupRoundTrips | src/consts/plans.js:173-186 | A known price id leads to a plan and interval that lead back to it |
| Plans.YearIsFourFifths | src/consts/plans.js:120-142 | A year costs twelve times four fifths of a month, each month to the nearest dollar, and only the paid plans cost anything |
| Accounts.WriteKeepsMirror | src/common/accountBilling.js:51-132 | A billing write mirrors the seven columns onto the account's active workspaces and changes no other account or workspace |
| Accounts.OwnersAfterAdd | src/main/users/workspaces.js:151-195 | A new workspace is owned by its creator's account alone, and no other workspace changes owner |
| Accounts.AddKeepsMirror | src/main/users/workspaces.js:162-205 | A new workspace shows its owner's account from the start, and no account changes |
| Accounts.CreatorOwnsNewWorkspace | src/main/users/workspaces.js:162-205 | The new workspace is active and owned by its creator, through the claimed row or one new active owner row, shows the creator's account, and no other row moves |
| Accounts.MemberKeepsMirror | src/main/invitations/invitations.js:233-244 | A member who joins changes nobody's ownership and no mirrored column |
| Accounts.RemoveKeepsMirror | src/common/accountDeletion.js:163-174 | Deleting rows, workspaces with their users, and the billing row of an email that owns nothing any more keeps the mirror |
| Accounts.MirrorHoldsOnEveryRun | src/common/accountBilling.js:51-132 | Along every run of writes, new workspaces, joins and deletions, each active workspace's seven columns equal its owner's account, or the free defaults |
| Accounts.Store.InsertIgnore | src/common/accountBilling.js:37-44 | An account row is created with the free defaults if missing and otherwise left alone |
| Accounts.Store.MirrorAccountToTenants | src/common/accountBilling.js:51-77 | Afterwards exactly the active workspaces that the email owns show its account's seven columns, and every other one is as it was |
| Accounts.Store.SetAccountPlan | src/common/accountBilling.js:85-132 | Writes the given columns and the mirror together, or, if any statement fails, nothing |
| Accounts.Store.ResetAccountToFree | src/common/accountBilling.js:135-149 | Free plan, given status, no interval, period end or pending change; the subscription id is kept |
| Accounts.Store.CreateWorkspace | src/main/users/workspaces.js:131-209 | Claims the pending row or adds an owner row, with the inherited plan, or changes nothing on a taken name, unknown caller or failing statement |
| Billing.Biller.WriteAccount | src/common/accountBilling.js:85-132 | One account write keeps every mirror and touches no other account |
| Billing.Biller.FetchSubscription | src/main/billing/paddleBilling.js:155-179 | Looks up by the stored id first, else finds a live one and remembers its id; every failing call ends it there |
| Billing.Biller.Reconcile | src/main/billing/paddleBilling.js:185-239 | Leaves account and subscription where the reconcile function says, for any number of calls that succeed, and touches no other account |
| Billing.Biller.UpdateSubscription | src/main/billing/paddleBilling.js:511-530 | Succeeds exactly for a live subscription, a known id and a known price, and then changes only the subscription's item, bill and term |
| Billing.Biller.ApplyChange | src/main/billing/paddleBilling.js:478-553 | Every refusal, the upgrade and the downgrade end in the state and answer of the change function |
| Billing.Biller.UpgradeNow | src/main/billing/paddleBilling.js:511-521 | Bills the new price at once and reconciles; the markers are not cleared by the branch itself |
| Billing.Biller.DowngradeLater | src/main/billing/paddleBilling.js:522-545 | Swaps the item unbilled and records the change with the stored period end; stopped half way, only the item has moved |
| Billing.Biller.CancelScheduledChange | src/main/billing/paddleBilling.js:560-596 | Puts the shown plan's item back unless it is there, then forgets the markers |
| Billing.Biller.CancelSubscription | src/main/billing/paddleBilling.js:599-619 | Marks the subscription to end with its term and leaves the account row alone |
| Billing.Biller.ResumeSubscription | src/main/billing/paddleBilling.js:622-637 | Takes that mark back and leaves the account row alone |
| Billing.Biller.ApplyRow | src/main/billing/paddleBilling.js:747-786 | Skips a matching item, moves a stale date without touching the provider's item, else swaps and reconciles |
| Billing.Biller.ApplyRows | src/main/billing/paddleBilling.js:747-792 | In whatever order the rows come, every selected account ends where its own sweep says, whatever fails on the others, and the applied ones are counted |
| Billing.Biller.ApplyDuePendingChanges | src/main/billing/paddleBilling.js:733-792 | Sweeps exactly the due, subscribed, not comped accounts, and leaves all others as they were |
| PaddleColumns.ReconcileGetsThrough | src/main/billing/paddleBilling.js:185-239 | Three answered calls complete a reconcile, except exactly when another subscription's id is stored |
| PaddleColumns.ReconcileIsWhole | src/main/billing/paddleBilling.js:155-239 | Wherever it stops, a reconcile has written everything or nothing but the id it found, and never touches the subscription |
| PaddleColumns.ReconcileRecords | src/main/billing/paddleBilling.js:222-238 | With no future change pending, a live paid subscription gives the row its item's plan and interval, its status, id and term end, and empty pending markers |
| PaddleColumns.ReconcileHolds | src/main/billing/paddleBilling.js:202-220 | While a change is pending, plan, interval and markers stay, status and id are the provider's, and only a missing period end is filled in |
| PaddleColumns.ReconcileEnds | src/main/billing/paddleBilling.js:194-200 | When nothing known is billed any more, an account with a status becomes free with no interval, period end or pending change |
| PaddleColumns.ReconcileSparesComped | src/main/billing/paddleBilling.js:188-192 | A comped account stays as it is until its period has ended, and is then free |
| PaddleColumns.ChangeRefusals | src/main/billing/paddleBilling.js:478-506 | Not an owner, no subscription that is paid for, already there, or an interval that cannot change: each refusal exactly for its own reason, and nothing is touched |
| PaddleColumns.FailedChangeWritesNothing | src/main/billing/paddleBilling.js:507-550 | A change that fails leaves the account row as it was |
| PaddleColumns.UpgradeBillsAndShows | src/main/billing/paddleBilling.js:511-521 | An upgrade swaps the item and bills it at once; unless a change is held, the row shows the new plan, interval and term |
| PaddleColumns.DowngradeSwapsAndNotes | src/main/billing/paddleBilling.js:522-545 | A downgrade swaps the item with the same bill and term, keeps the shown plan, and notes the lower one for the stored period end |
| PaddleColumns.TakingBackRestores | src/main/billing/paddleBilling.js:560-596 | Taking a change back puts the shown plan's item in place and clears the three markers, or leaves the row alone |
| PaddleColumns.CancelMarksTheEnd | src/main/billing/paddleBilling.js:599-619 | Accepted exactly for an owner's live, paid subscription; then it is marked to end, and nothing else changes |
| PaddleColumns.CancelledEndsWithTerm | src/main/billing/paddleBilling.js:599-619 | After a cancellation the term's end bills nothing and the next reconcile shows the free plan |
| PaddleColumns.ResumeUndoesCancel | src/main/billing/paddleBilling.js:622-637 | Cancelling and resuming gives back what was there, and the term's end renews the subscription |
| PaddleColumns.ResumeTakesBackTheMark | src/main/billing/paddleBilling.js:622-637 | Resuming is accepted under the same conditions and takes back nothing but the mark |
| PaddleColumns.SweepTouchesOnlyDue | src/main/billing/paddleBilling.js:733-756 | A sweep touches an account only when its change is due, it pays for itself and its item is not the one aimed at |
| PaddleColumns.SweepCatchesDue | src/main/billing/paddleBilling.js:757-786 | Such an account gets a stale date moved to the term end, or its item swapped, billed exactly when the interval changes, and reconciled |
| PaddleRuns.ChangeInTwoParts | src/main/billing/paddleBilling.js:507-545 | A change request is its first part, up to the provider's answer, and then the note of a downgrade or the reconcile of an upgrade |
| PaddleRuns.CancelInTwoParts | src/main/billing/paddleBilling.js:568-592 | Taking a change back is its first part and then the write that forgets the markers |
| PaddleRuns.ReconcileKeeps | src/main/billing/paddleBilling.js:185-239 | A reconcile keeps the relation between row and subscription and never touches the subscription |
| PaddleRuns.BeginKeeps | src/main/billing/paddleBilling.js:507-530 | The first part of a guarded change request leaves a state that its outstanding write, if any, brings back to the relation |
| PaddleRuns.BeginCancelKeeps | src/main/billing/paddleBilling.js:568-590 | So does the first part of taking a change back before its date, wherever it stops |
| PaddleRuns.SweepKeeps | src/main/billing/paddleBilling.js:733-792 | A sweep keeps the relation, wherever it stops |
| PaddleRuns.SweepSkipsNoted | src/main/billing/paddleBilling.js:753-756 | Between a downgrade's two calls a sweep finds the item in place and does nothing |
| PaddleRuns.ReconcileStepKeeps | src/main/billing/paddleBilling.js:202-220 | Between a handler's two calls a reconcile keeps the state as required, if it does not complete on an unnoted downgrade |
| PaddleRuns.StepKeeps | src/main/billing/paddleBilling.js:185-792 | Every step keeps it, renewals, period-end cancellations and the steps between two calls included: a future pending change means item swapped or not yet, date at the term end, billed tier shown |
| PaddleRuns.RunKeeps | src/main/billing/paddleBilling.js:185-792 | It holds at every moment of every run |
| PaddleRuns.ReconcileIsTruthful | src/main/billing/paddleBilling.js:185-239 | From a related state a reconcile shows the billed tier, and the free plan once the subscription has ended |
| PaddleRuns.EveryReconcileIsTruthful | src/main/billing/paddleBilling.js:185-239 | In every run each completed reconcile leaves the plan at the tier the current term was billed at |
| PaddleRuns.CancelledRunTurnsFree | src/main/billing/paddleBilling.js:599-637 | A run that cancels bills nothing at the term's end and then shows the free plan; resuming before, it is billed once more |
| PaddleRuns.ChangeIsShownAfterDate | src/main/billing/paddleBilling.js:202-238 | Before the date of a change in place at the provider a reconcile holds the old plan, and from it on shows the new one |
| PaddleRuns.ReportedStatusIsShown | src/main/billing/paddleBilling.js:194-238 | A status the provider reports is on the account after the next reconcile, and one that ends the billing frees it |
| PaddleRuns.LandsEitherWay | src/main/billing/paddleBilling.js:530-592 | The outstanding write of a request moves the pending columns only; if it fails nothing moves, and either way another change may be asked for |
| PaddleRuns.FreshPurchaseIsConsistent | src/main/billing/paddleBilling.js:249-339 | A new purchase not yet recorded is a start that the run theorems apply to |
| PaddleExact.DowngradeHeldExactlyWhenDateRight | src/main/billing/paddleBilling.js:530-540 | After a downgrade the shown tier is the billed one throughout this term and the next, exactly when the stored period end is the provider's term end |
| PaddleExact.DowngradeSafeExactlyWhenNotHalfDone | src/main/billing/paddleBilling.js:524-540 | A downgrade keeps the relation exactly when it does not stop between its two calls; then the app would show a tier not billed |
| PaddleExact.UpgradeShownExactlyWhenNothingPending | src/main/billing/paddleBilling.js:511-521 | An accepted upgrade is billed at once, and shown exactly when no change is pending |
| PaddleExact.CancelRightExactlyWhenInTime | src/main/billing/paddleBilling.js:560-592 | Taking back a swapped downgrade leaves the app truthful exactly when its date is still to come |
| PaddleExact.HeldThroughQuietRun | src/main/billing/paddleBilling.js:202-220 | Reconciles, webhooks and sweeps before the date leave a scheduled downgrade exactly as it was recorded |
| PaddleExact.DowngradeHeldThenTakenBack | src/main/billing/paddleBilling.js:560-592 | After any number of them, cancelling restores item, term, charges and an account with nothing pending |
| PaddleExact.DowngradeHeldExactlyWhenUndisturbed | src/main/billing/paddleBilling.js:524-540 | Whatever reconciles, sweeps and status reports come between a downgrade's two calls, it is held exactly when no reconcile among them completes; otherwise a tier not billed is shown |
| PaddleExact.CancelRightExactlyWhenNoSweepBetween | src/main/billing/paddleBilling.js:580-592 | Whatever comes between the two calls of taking a change back in time, the app is left truthful exactly when no sweep among them swaps the item again |
| Deferred.WaitingStep | src/main/billing/paddleBilling.js:733-786 | Before the swap nothing moves, no renewal can come, and a sweep inside the lead swaps |
| Deferred.SwappedStep | src/main/billing/paddleBilling.js:202-220 | After the swap the provider bills the monthly price only, and the year's plan is shown until the date |
| Deferred.RenewalIsAtTermEnd | src/main/billing/paddleBilling.js:202-238 | A renewal comes exactly at the term's end, and a reported status is shown by the next reconcile |
| Deferred.NoFurtherYearIsBilled | src/common/billingScheduler.js:19-81 | With completed sweeps no further apart than the lead, and any number that fail part way among them, every charge after the recording is monthly, one has come by the date, and the year's plan shows until then |
| Deferred.MonthlyShownAfterDate | src/main/billing/paddleBilling.js:202-239 | From the date on a reconcile shows the monthly plan |
| Deferred.LongerGapBillsAnotherYear | src/common/billingScheduler.js:19-26 | With a longer gap there is a run that bills a further year |
| Scheduler.SwapKeeps | src/main/billing/paddleBilling.js:768-782 | An accepted update is of an account not updated before, and puts its item at its target |
| Scheduler.StepKeeps | src/common/billingScheduler.js:38-52 | Every step of every worker, reconcile and clock keeps exclusion and the list of updates |
| Scheduler.RunKeeps | src/common/billingScheduler.js:38-52 | They hold at every moment of every interleaving |
| Scheduler.SweepsUpdateAtMostOnce | src/common/billingScheduler.js:38-66 | Under the lock at most one worker sweeps, no account's item is updated twice, and each update comes with at most the lead and a day of the term left |
| Scheduler.RetargetOnlyMovesDate | src/main/billing/paddleBilling.js:755-766 | In every run, acting on a stale date writes one more than a day later, with no provider update |
| Scheduler.LockHeldExactlyWhileSweeping | src/common/billingScheduler.js:38-52 | In every run the lock is taken exactly while a worker sweeps, and after a release or a crash any worker can acquire it |
| Scheduler.AloneSweepsEverything | src/common/billingScheduler.js:38-66 | A worker left alone with a free lock takes every account, from any selection of the due rows, to where that account's own sweep does, and gives the lock back |
| Scheduler.PassingTimeMakesDue | src/main/billing/paddleBilling.js:733-746 | As time passes, every change of a paying account is due once its date is within the lead |
| Scheduler.WithoutLockTwoUpdates | src/common/billingScheduler.js:14-17 | Without the lock two workers can both update the same account's item; as the provider bills only a new item, at most one charge follows |
| PromoLedger.CommitKeeps | src/main/billing/redeemPromo.js:67-98 | A committed claim adds one row and one redemption within the cap |
| PromoLedger.ReleaseDecrementKeeps | src/main/billing/redeemPromo.js:101-108 | A release gives back one standing redemption, and never finds the counter at zero |
| PromoLedger.StepKeeps | src/main/billing/redeemPromo.js:67-108 | Every statement of every client and administrator keeps the ledger invariant |
| PromoLedger.RunKeeps | src/main/billing/redeemPromo.js:67-108 | It holds at every moment of every interleaving |
| PromoLedger.LedgerAgreesWithCounter | src/main/billing/redeemPromo.js:67-108 | No account has two rows, and every row is of a workspace that exists; rows, redemptions and cap are in order; they agree while nothing is lost or being released; the clamp never fires |
| PromoLedger.RevokedIsNotRedeemed | src/main/billing/redeemPromo.js:67-80 | Once a code is revoked, no statement of any client adds a row or a redemption until it is switched on again, in any interleaving |
| PromoLedger.ReactivatedOpensExactly | src/main/admin/promo.js:322-345 | Reactivating lets a client claim exactly while the new date and the new cap leave room |
| PromoLedger.ResetReopens | src/main/admin/promo.js:322-345 | After both statements of a reset every account can redeem the code again, up to the whole new cap |
| PromoLedger.DoneIsAway | src/main/billing/redeemPromo.js:67-108 | A client that has finished, released or given up may claim again, and nobody else's place moves |
| PromoLedger.WorkspaceTakesItsRows | feedboard_db.sql:160 | A deleted workspace takes exactly its own rows along and leaves the counter alone |
| PromoLedger.ReactivateKeepsCapExactly | src/main/admin/promo.js:322-345 | Reactivating keeps redemptions within the cap exactly when the new cap is not below them |
| PromoLedger.ResetKeepsExactlyWhenNobodyInFlight | src/main/admin/promo.js:322-333 | The second statement of a reset keeps the invariant exactly when no claim is in flight and no row has come since the first |
| PromoLedger.Redemptions.ClaimRedemption | src/main/billing/redeemPromo.js:67-98 | Exhausted exactly when the code is off, over or used up, already redeemed exactly when the account has a row; a claim adds its one row and one redemption, and otherwise nothing changes |
| PromoLedger.Redemptions.ReleaseRedemption | src/main/billing/redeemPromo.js:101-108 | Removes the row and then gives the slot back, as far as the database answers, and touches no other row |
| Offers.RoundsTogetherExactly | src/main/admin/offers.js:94-131 | Rounded price and rounded discount make up the list price, and a cent more exactly at half a cent |
| Offers.SameRows | src/common/offers.js:82-114 | Both lookups read the same rows of a plan and interval in the same order |
| Offers.LookupsAgreeExactly | src/common/offers.js:82-114 | Page and checkout find the same offer exactly when the newest row in its window has a discount or none has |
| Offers.LookupsAgree | src/common/offers.js:82-114 | With one active row per plan and interval they always do |
| Offers.CheckoutFindsNewest | src/common/offers.js:82-114 | Checkout finds the newest active offer of the plan and interval in its window, and none exactly when there is none |
| Offers.PageFindsNewest | src/common/offers.js:82-104 | The page shows the newest such offer that has a discount, and none exactly when none has |
| Offers.ShownIsChargedExactly | src/main/billing/paddleBilling.js:301-304 | The advertised price is the list price less the discount checkout applies, and none is applied when none is advertised; the one exception is an archived discount on an active row |
| Offers.AcceptableIsBelowList | src/main/admin/offers.js:42-49 | An accepted offer is stored at least a cent below the list price |
| Offers.AcceptedExactly | src/main/admin/offers.js:35-49 | An offer is accepted exactly for a paid plan and a positive price with at least half a percent off the list price |
| Offers.NewDiscountFits | src/common/discounts.js:23-41 | A new offer's discount is exactly the list price less the stored price, restricted to its own price |
| Offers.BackfillFits | scripts/backfill-offer-discounts.js:59-86 | So is one created by the backfill, from the stored price |
| Offers.RetireKeeps | src/main/admin/offers.js:124-128 | Retiring leaves no active row for the plan and interval |
| Offers.CreateKeeps | src/main/admin/offers.js:35-144 | A creation, wherever it stops, keeps one active row per plan and interval and every discount fitting |
| Offers.CreationTouchesOneSlot | src/main/admin/offers.js:124-128 | After a creation every earlier row of another plan or interval is unchanged, and every earlier one of its own is off, and otherwise unchanged, once the update is answered |
| Offers.CreationAddsRow | src/main/admin/offers.js:94-134 | The offer is appended as entered, its price to the nearest cent, with a discount of the rest of the list price on its own price id |
| Offers.CreationKeepsOtherPrices | src/main/admin/offers.js:35-144 | Wherever a creation stops, what every other plan and interval is advertised and charged at stays as it was |
| Offers.DeactivationTouchesOneRow | src/main/admin/offers.js:147-174 | A deactivation switches off one row, archives at most its discount, and moves no other price |
| Offers.BackfillTouchesOneRow | scripts/backfill-offer-discounts.js:59-86 | The backfill gives a discount exactly to a row that is on, not over and below the list price, if it has none or is forced, and changes nothing else |
| Offers.StepKeeps | src/main/admin/offers.js:35-174 | So does every creation, deactivation and backfilled row |
| Offers.RunKeeps | src/main/admin/offers.js:35-174 | And every run of them |
| Offers.EveryPriceShownIsCharged | src/common/offers.js:82-114 | In every state reached from an empty table by completed handlers, every price shown at any time is the price charged |
| Offers.CreatedShownIsChargedExactly | src/main/admin/offers.js:94-131 | While a new offer is on sale it is charged as shown, and a cent less exactly when its price was entered at half a cent |
| Offers.HalfCentIsChargedLess | src/common/discounts.js:23-41 | Pro by the month for 5.125 dollars is accepted, shown at 5.13 and charged at 5.12 |
| Offers.CutShortDeactivationOvercharges | src/main/admin/offers.js:147-166 | A deactivation cut short after archiving shows the offer and charges the list price |
| Offers.Desk.CreateOffer | src/main/admin/offers.js:35-144 | Refused offers change nothing; else each failing call stops it there, every row of another plan or interval is as it was, and the new row is the offer entered |
| Offers.Desk.DeactivateOffer | src/main/admin/offers.js:147-174 | Archives first, then deactivates; unknown rows are refused |
| Offers.Desk.GetActiveOffers | src/common/offers.js:82-104 | The loop yields, for every plan and interval, the newest offer in its window that has a discount |
| PromoPercent.LowestApplicablePrice | src/main/admin/promo.js:24-32 | The least positive price among the plans and intervals in scope, or none exactly when there is none |
| PromoPercent.AppliesExactly | src/main/admin/promo.js:24-32 | A code for any plan is for Pro and Business, any other for its one plan, and only at a price above zero |
| PromoPercent.RefusedExactlyAboveMax | src/main/admin/promo.js:38-51 | For every whole-dollar table a whole percentage is refused exactly when it is above the hint |
| PromoPercent.AcceptedExactlyWhenChargeable | src/main/admin/promo.js:38-44 | It is accepted exactly when every price it can apply to keeps at least 70 cents |
| PromoPercent.RefusedExactlyBelow | src/main/admin/promo.js:38-44 | Any percentage is refused exactly when less than 69.5 cents would be left of the cheapest price |
| WriteCounters.WindowIsUnique | src/common/writeCounters.js:41-44 | The window start is aligned and its window is the only aligned one holding the moment |
| WriteCounters.AcceptedIsCounted | src/common/writeCounters.js:56-70 | A window accepts no more bumps than it counted, nor more than the cap |
| WriteCounters.AtMostCapPerWindow | src/common/writeCounters.js:88-126 | For any interleaving of bumps a scope accepts at most its cap in an aligned window |
| WriteCounters.AtMostTwiceCapPerInterval | src/common/writeCounters.js:46-54 | Any interval one window long accepts at most twice the cap |
| WriteCounters.TwiceCapIsReached | src/common/writeCounters.js:49-50 | Twice the cap can be reached across a boundary |
| WriteCounters.PruneSparesChargedExactly | src/common/writeCounters.js:136-144 | Pruning removes no window still being charged by a worker that lags, exactly when the lag and the database zone ahead of UTC leave room for the window in two days; a day's zone is within that |
| WriteCounters.Counters.Bump | src/common/writeCounters.js:56-70 | Whatever the order of the workers' moments, the upsert hands back the bump's place among those of its window, unless that window was pruned |
| WriteCounters.Counters.PruneCounters | src/common/writeCounters.js:136-144 | Counts of the windows that pruning leaves stay right, and no other window than those before its horizon goes |
| WriteCounters.Counters.ChargePublicWrite | src/common/writeCounters.js:88-126 | The voter's hour, the workspace's hour and the domain's day are each bumped in the aligned window of now, even once one has tripped, and the first count above its own cap is the one reported |
| TtlCache.EvictedForEnoughOthers | src/common/cache.js:30-34 | Whatever eviction drops has had as many other keys written since as the cache holds |
| TtlCache.WriteKeepsOrder | src/common/cache.js:46-53 | A write keeps the cap and the order of last writes |
| TtlCache.WriteMissesEnough | src/common/cache.js:46-53 | A fresh value that a write leaves missing has at least the cap of other keys written since |
| TtlCache.WriteKeeps | src/common/cache.js:46-53 | A write keeps the cache sound against its history |
| TtlCache.DropKeeps | src/common/cache.js:71-83 | So does every invalidation |
| TtlCache.Cache.Get | src/common/cache.js:36-44 | A hit is the latest write, unexpired and not dropped; a miss of such a value means the cap of other keys was written since |
| TtlCache.Cache.Set | src/common/cache.js:46-53 | A write with a positive lifetime becomes its key's latest; any other changes nothing |
| TtlCache.Cache.Invalidate | src/common/cache.js:71-73 | Forgets exactly the key |
| TtlCache.Cache.InvalidatePrefix | src/common/cache.js:75-79 | Forgets exactly the keys with the prefix, deleting while iterating |
| TtlCache.Cache.Clear | src/common/cache.js:81-83 | Forgets everything |
| TtlCache.Cache.WrapLoaded | src/common/cache.js:64-67 | Once the loader is done, whatever happened to the cache meanwhile: a value is cached and served, failures and empty values are not cached |
| TtlCache.Cache.Wrap | src/common/cache.js:61-68 | A fresh value that has not had the cap of other keys written since is served without loading or writing; else the cached value or the loader's |
| PublicBoard.OneRowForEach | src/main/public/getPublicBoard.js:84-95 | Joined, filtered and selected, each post gives one row with its own author and vote count |
| PublicBoard.ListQueryRows | src/main/public/getPublicBoard.js:84-95 | The joins lose and duplicate no post |
| PublicBoard.VotesOfPost | src/main/public/getPublicBoard.js:90-94 | The pre-aggregated vote group of a post holds the number of its votes, and no post has two groups |
| PublicBoard.PageRows | src/main/public/getPublicBoard.js:84-97 | Sorting and cutting rows and then completing them is the page of the board computed post by post |
| PublicBoard.ListedExactly | src/main/public/getPublicBoard.js:47-72 | A post has a card on the board exactly when it is of the workspace, not spam, and of the asked status, type and tag, with the search text in its title or description |
| PublicBoard.CardIsRight | src/main/public/getPublicBoard.js:84-187 | A card's author, votes, tags, visible comments, attachments and lowest-id image are those of its own post |
| PublicBoard.BoardCounts | src/main/public/getPublicBoard.js:99 | The board has as many cards as posts are asked for |
| PublicBoard.BoardFollowsSort | src/main/public/getPublicBoard.js:15-33 | Pinned first, then by date or by votes with the newest first on a tie; any other name of a sort is newest first |
| PublicBoard.PagingIsBounded | src/main/public/getPublicBoard.js:34-42 | One to fifty cards a page, twenty without a number, whole numbers rounded down, at an offset of at most 100000 |
| PublicBoard.SearchIsCut | src/main/public/getPublicBoard.js:43-45 | The search is the search box, or else the paging filter, trimmed and cut at 100 characters |
| Text.TrimExactly | src/main/public/getPublicBoard.js:43-45 | Trimming takes away spaces only, and all of them at both ends |
| PublicBoard.TagsAgree | src/main/public/getPublicBoard.js:130-158 | The tags batched for a page are each post's own |
| PublicBoard.CommentsAgree | src/main/public/getPublicBoard.js:137-163 | The grouped counts are each post's comments that are not spam |
| PublicBoard.AttachmentsAgree | src/main/public/getPublicBoard.js:149-177 | The fold gives each post's attachment count and its image with the lowest id |
| PublicBoard.FoldTags | src/main/public/getPublicBoard.js:151-158 | Collects for every post its tags in row order |
| PublicBoard.FoldComments | src/main/public/getPublicBoard.js:160-163 | Indexes each group's count |
| PublicBoard.FoldAttachments | src/main/public/getPublicBoard.js:165-177 | Counts each post's rows and keeps the first image met |
| PublicBoard.AddLookups | src/main/public/getPublicBoard.js:119-187 | The three batched lookups complete every row to its post's own card |
| PublicBoard.GetPublicBoard | src/main/public/getPublicBoard.js:33-207 | For every database, filter and paging the page is its part of the board, each card is of a post asked for with that post's own details, in the order asked for, and the total is the number of posts asked for |
| PublicBoard.BoardInOrder | src/main/public/getPublicBoard.js:15-20 | The board has one card for each post shown, pinned first, then in the requested order |
| PublicBoard.PagesTile | src/main/public/getPublicBoard.js:35-43 | Paging through shows each card once and in order, and all of them exactly when the board is short enough for the largest offset |
| Rows.JoinOnKey | src/main/public/getPublicBoard.js:89-94 | A left join on a key gives each left row once, with its one partner or none |
| Rows.GroupCounts | src/main/public/getPublicBoard.js:90-94 | GROUP BY gives each key once, with its number of rows |
| AccountPurge.ThreadsExactly | feedboard_db.sql:375-378 | Deleting comments takes along exactly those with a deleted ancestor |
| AccountPurge.ThreadsTogether | feedboard_db.sql:375-378 | Two deletions in turn cascade as one |
| AccountPurge.HeirStays | src/common/accountDeletion.js:134-139 | The owner who takes over is never erased by the same purge |
| AccountPurge.NothingLeft | src/common/accountDeletion.js:129-180 | After a committed purge no row of any account-keyed table is under the email and no author, creator, post or parent reference dangles |
| AccountPurge.PostsAndAssetsStay | src/common/accountDeletion.js:141-162 | Every post, changelog entry, API key and upload of other workspaces is still there, apart from its author or creator |
| AccountPurge.LeftAfterPurge | src/common/accountDeletion.js:129-180 | Exactly the owned workspaces go; every user row of another email outside them stays unchanged, every keyed row of another email and no owned workspace stays, posts, comments and uploads elsewhere are only unsigned or handed to an owner |
| AccountPurge.ErasableExactly | src/common/accountDeletion.js:133-173 | Where uploads are by rows of their workspace, a purge is possible exactly when it leaves no post or upload naming a row that went |
| AccountPurge.CommentLostExactly | src/common/accountDeletion.js:144-173 | A comment is lost exactly when it or a comment it answers is in an owned workspace or was written by a row that goes unanonymised |
| AccountPurge.CommentsStayExactly | src/common/accountDeletion.js:144-173 | Where threads stay within workspaces, all comments elsewhere survive exactly when no such row wrote a comment elsewhere |
| AccountPurge.CommentElsewhereIsLost | src/common/accountDeletion.js:166-173 | A purge that succeeds and loses a comment on somebody else's board |
| AccountPurge.LeavingNext | src/common/accountDeletion.js:133-163 | Leaving workspaces one by one amounts to leaving them together |
| AccountPurge.WithoutTwice | src/common/accountDeletion.js:165-173 | Deleting the owned workspaces and then the remaining rows amounts to one deletion |
| AccountPurge.DoomedAfterLeaving | src/common/accountDeletion.js:165-173 | What is deleted after leaving is everybody in the owned workspaces and the email's rows without one |
| AccountPurge.Database.Leave | src/common/accountDeletion.js:133-163 | Anonymises posts and comments, hands the rest to the owner, deletes the row; fails exactly when nobody can take over what must have a creator |
| AccountPurge.Database.LeaveAll | src/common/accountDeletion.js:133-163 | All memberships, in any order |
| AccountPurge.Database.DeleteRest | src/common/accountDeletion.js:165-180 | Owned workspaces, remaining rows and every account-keyed table; restricted exactly by outside references to the rows that go |
| AccountPurge.Database.PurgeAccount | src/common/accountDeletion.js:102-194 | Commits the whole erasure, with everything of others left as stated for each table, or leaves every table as it was; refused exactly for an admin or an unknown email; with a database that answers, it succeeds exactly when no restricting reference stands in the way |
| Quotas.InviteFits | src/main/invitations/invitations.js:75-96 | An invitation is sent only into a free seat |
| Quotas.JoinFits | src/main/invitations/invitations.js:233-244 | Joining turns an open invitation into a member, and the seats taken stay the same |
| Quotas.JoinFitsAccount | src/main/invitations/invitations.js:361-370 | An existing account joins only within its cap |
| Quotas.NewAccountCanJoin | src/main/invitations/invitations.js:278-291 | A new account needs no cap check, since every plan lets an account join once |
| Quotas.CreateFitsAccount | src/main/users/workspaces.js:125-130 | A workspace is created only within the owner's cap |
| Quotas.CreateKeeps | src/main/users/workspaces.js:125-188 | Creating one disturbs no seat count and no other account |
| Quotas.CountedExactly | src/common/planGuard.js:33-42 | Which users, invitations and rows count against seats and caps: active, in an active workspace, not the owner, not expired |
| Quotas.InvitedExactly | src/main/invitations/invitations.js:27-96 | Each refusal exactly for its own reason: every seat of the plan can be invited to, the last one included, and an invitation is open for seven days |
| Quotas.RevokedExactly | src/main/invitations/invitations.js:148-172 | Revoking marks one pending invitation and gives a live one's seat back |
| Quotas.ExpiryFreesSeat | src/main/invitations/invitations.js:75-78 | An invitation holds its seat until it expires, and then gives it back |
| Quotas.RaiseGivesRoom | src/common/planGuard.js:4-25 | A new tier is at once that of the account and of every active workspace it owns |
| Quotas.NewUserJoinsExactly | src/main/invitations/invitations.js:251-291 | A new account joins exactly through an open invitation to an email that has none; one active member row is added and the invitation is spent |
| Quotas.ExistingUserJoinsExactly | src/main/invitations/invitations.js:331-385 | An account joins exactly through an open invitation to its own email, once, while its own plan has room |
| Quotas.CreatesExactly | src/main/users/workspaces.js:125-205 | A workspace is made exactly while the caller's plan has room for one more |
| Quotas.InvCounts | src/consts/plans.js:32-106 | The invariant in numbers: at most two, five or any number of seats, and one, three or any number of workspaces |
| Quotas.RaiseKeeps | src/common/accountBilling.js:85-132 | A plan that does not go down keeps every workspace and account within limits |
| Quotas.StepKeeps | src/main/invitations/invitations.js:27-424 | So does inviting, revoking, accepting, expiring, creating and raising |
| Quotas.QuotasHoldOnEveryRun | src/common/planGuard.js:33-57 | Along every run members and open invitations fit the seats, and owned and joined workspaces the account's caps |
| Quotas.Desk.CreateInvitation | src/main/invitations/invitations.js:27-105 | Each refusal in the source's order, else one pending invitation for seven days |
| Quotas.Desk.RevokeInvitation | src/main/invitations/invitations.js:148-172 | Only an owner, and only a pending invitation of the workspace |
| Quotas.Desk.JoinWorkspace | src/main/invitations/invitations.js:233-244 | The member row and the spent invitation |
| Quotas.Desk.AcceptAsNewUser | src/main/invitations/invitations.js:251-324 | A live invitation and an email without account, or nothing changes |
| Quotas.Desk.AcceptAsExistingUser | src/main/invitations/invitations.js:331-401 | A live invitation of that account, not yet a member, within its cap, or nothing changes |
| Sessions.StepKeepsOne | src/common/sessions.js:126-141 | A sign-in on a single-device plan leaves one unrevoked session |
| Sessions.SignInOpensSession | src/common/sessions.js:126-141 | A sign-in that is not refused opens a live session under its email, revokes the account's others on a single-device plan, and changes no other row |
| Sessions.FirstSignInOpensSession | src/common/sessions.js:67-75 | A first sign-in opens a live session and changes no other row |
| Sessions.OneSessionOnEveryRun | src/common/sessions.js:126-141 | An account that signs in on single-device plans only never has two |
| Sessions.EndsExactly | src/common/sessions.js:45-61 | A session ends exactly by a sign-out, or a sign-in that forces or finds none live |
| Sessions.LiveEndsOnPurpose | src/common/sessions.js:45-61 | A live session ends exactly by a sign-out or a forced single-device sign-in |
| Sessions.SeenOnRun | src/common/sessions.js:93-103 | Since a request its session counts as seen no more than a minute before it |
| Sessions.RecentRequestKeepsSession | src/common/sessions.js:24-51 | With a request less than 14 minutes ago only a sign-out or a forced sign-in ends the session; every other single-device sign-in is refused |
| Sessions.FourteenMinutesCanBeTooLong | src/common/sessions.js:93-103 | At exactly 14 minutes an ordinary sign-in can replace it |
| Sessions.Table.GetLiveSessionForEmail | src/common/sessions.js:32-42 | A live session of the account seen last, if it has one |
| Sessions.Table.RevokeSessionsForEmail | src/common/sessions.js:45-51 | Afterwards the account has no open session, no other row or column has moved, and the count is of the rows that changed |
| Sessions.Table.RevokeSession | src/common/sessions.js:54-61 | Revokes one session |
| Sessions.Table.TouchSession | src/common/sessions.js:93-103 | Afterwards an open session counts as seen within the last minute; only its time can move, and only if it was older |
| Sessions.Table.StartSession | src/common/sessions.js:126-141 | Refused exactly when a single-device account has a live session and does not force; else the id is an open session of the email seen now, the account's only open one on a single-device plan, and on any other plan no other row changes |
| CommentThread.TopIsUnique | src/main/public/createPublicComment.js:99-122 | A comment's chain has at most one top-level ancestor |
| CommentThread.TopExactly | src/main/public/createPublicComment.js:110-120 | A comment is on top exactly when it has no parent, or its parent is gone or of another workspace |
| CommentThread.LeadsToCycle | src/main/public/createPublicComment.js:110-120 | A chain that comes back to a comment has none |
| CommentThread.FindRoot | src/main/public/createPublicComment.js:99-122 | The walk ends on every parent graph, at an ancestor, and at the top-level one exactly when there is one |
| CommentThread.InsertKeepsLevelsExactly | src/main/comment/createComment.js:7-28 | An insert keeps threads two levels deep exactly when it opens a thread or answers a comment of its post that does |
| CommentThread.TopOfTwoLevels | src/main/public/createPublicComment.js:96-98 | In two-level threads the top is the comment itself or its parent, on the same post |
| CommentThread.Board.CreatePublicComment | src/main/public/createPublicComment.js:99-201 | Refuses a parent of another post, attaches to the thread's top within the workspace, and keeps threads two levels deep |
| FormToken.ParseOfPrint | src/common/formToken.js:42-49 | Reading a printed timestamp gives it back |
| FormToken.PrintOfParseExactly | src/common/formToken.js:66-68 | Digits survive reading and printing exactly when they have no needless leading zero |
| FormToken.SignedVerdict | src/common/formToken.js:70-88 | The verdict on a signed token depends on its age alone |
| FormToken.RefusedExactly | src/common/formToken.js:55-79 | Missing exactly when only spaces, malformed exactly when it is not digits, a dot and a rest, badly signed exactly when that rest is not their signature |
| FormToken.AcceptedExactly | src/common/formToken.js:55-89 | A token is accepted exactly when, trimmed, it is digits, a dot and their signature, with an age in bounds |
| FormToken.IssuedIsAcceptedExactly | src/common/formToken.js:42-89 | A token issued at t is too fast, accepted or expired exactly by its age |

## Left out

- Billing assumptions: Paddle is configured and is the active provider; the provider keeps the term on a same-interval update, starts a fresh one otherwise, renews exactly at the term end, and an account has one subscription per run. An update to the item already in place bills nothing. Comped accounts and a paused subscription coming back are not steps of the runs.
- Billing columns: the customer id and its creation, the Stripe columns, and the discounts attached on plan changes and renewals are not in the billing machine; stored times are exact rather than rounded to the second.
- PaddleRuns.EveryReconcileIsTruthful: assumes the guards of the step relation, which `PaddleExact.dfy` takes up one by one. An account has one change request under way at a time; a handler's reads and the provider update they lead to are one step, and so are a reconcile and one account's share of a sweep, which `Scheduler.dfy` splits further.
- Change previews, the portal session, deleting a promo code, webhook signatures and the Stripe handlers.
- Accounts.Store.SetAccountPlan: the building of the SQL text; an empty patch and a failing statement are modelled. Emails are compared as they are, the database also ignores case.
- Scheduler.SweepsUpdateAtMostOnce: assumes that no renewal falls in between and that a worker whose connection drops, and with it the lock, stops sweeping.
- PromoLedger.LedgerAgreesWithCounter: follows one code, since no statement touches another; the preliminary checks, which decide nothing, and the grant itself are left out.
- Offers.EveryPriceShownIsCharged: handlers run one at a time, since no unique index stops two concurrent creations from leaving two active rows; deactivations are answered; no price is at half a cent, which `CreatedShownIsChargedExactly` covers; prices are exact reals, not binary floating point; list prices do not change under an offer. How many periods an offer lasts, and checkouts with a promo code, are not modelled.
- Offers.ShownIsChargedExactly: assumes that the provider charges the list price when a checkout names an archived discount; if it refused the transaction, nothing would be charged at the price shown either. The same goes for Offers.CutShortDeactivationOvercharges.
- Rows.SortBy: rows that tie keep their table order, where the database leaves their order open; text comparison ignores no case.
- PublicBoard.GetPublicBoard: LIKE is a parameter; a sort name that happens to be a built-in property name of an object fails in the source and is not modelled; the priority column is passed through only.
- PromoPercent.RefusedExactlyAboveMax: arithmetic is exact rather than binary floating point; codes already stored are not checked again when prices change.
- WriteCounters.Counters.ChargePublicWrite: promises nothing about a window that was pruned already, which `PruneSparesChargedExactly` rules out for workers that lag little; the branch that lets a write through when the database fails; scope keys are not cut to 100 characters.
- TtlCache.Cache.Wrap: nothing else runs while its loader is awaited; `WrapLoaded` holds whatever did.
- TtlCache.Cache.Get: the clock does not go back, the size limit is a positive integer, and the cache of another process is not modelled.
- AccountPurge.Database.PurgeAccount: cancelling the subscription beforehand; the tables that only cascade or are set to null with a user (votes, notifications, audit logs, support sessions); promo redemptions, which are kept on purpose.
- Quotas.QuotasHoldOnEveryRun: activity flags stay fixed, plans are not lowered, and handlers that check and then insert run one at a time; email delivery, password rules and subdomain rules are left out.
- Sessions.OneSessionOnEveryRun: the statements of one sign-in run together; a first sign-in by invitation finds no session, as its email had no account.
- Sessions.SeenOnRun: the best-effort mark of a request succeeds.
- CommentThread.Board.CreatePublicComment: spam evaluation, rate limits, notifications and the honeypot.
- FormToken.AcceptedExactly: the signature is an arbitrary function of the digits; timestamps beyond 2^53 would lose precision in the source.
- `roadmapSync.js`, `spamScore.js`, simple create-read-update-delete handlers, routing, response shaping, localisation, email templates and uploads: no deep state.
