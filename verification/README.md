# Verification of the money engine and its neighbours

A Dafny 4.11 model of the parts of the backend where several stored figures must agree,
with proofs over every input and every run. `dafny verify dfyconfig.toml` checks all of it.

## What is modelled

**The money engine** is one transition system over integer kobo: wallets (balance, held
balance, ledger account), ledger accounts 1100 (bank clearing) and 1200 (Bachs settlement),
withdrawals, holds, pending payments, payments, due assignments and journal entries. Each database
transaction is one atomic step; steps come in any order, any number of times.

| file | content |
|---|---|
| `Tables`, `Books` | sums over tables; the rows, the ledger primitives, the quantities of the invariants |
| `Charges` | withdrawal fees, the binary search for the greatest withdrawal, the quote |
| `Withdrawals`, `Collections` | the steps as functions on the state, each written as the code writes it |
| `MoneyStore` | the same operations as methods that update tables in place, loops included, each proved equal to its step |
| `Invariants`, `PayoutProofs`, `RefundProofs`, `CollectionProofs`, `Steps` | what one step keeps |
| `Conservation` | what no order of events changes, and payouts leaving collections alone |
| `Runs`, `Replays`, `Undo`, `Holds`, `Reconciliation` | what whole runs keep |
| `Balances` | what each outcome moves, and each wallet's balance in closed form |
| `Checkouts`, `Dues` | pending payments and student dues over whole runs: closing, retrying, paying once |
| `Payouts`, `Openings` | what each step answers and writes, said of the rows themselves; when COMPLETED ends |
| `Exactness`, `FailingRuns` | where the code does not keep a property: the exact condition, and runs from an empty database that meet it |
| `JournalReuse` | what posting an entry does, and the line comparison that lets a settlement reuse an existing one |

The invariants come in layers, because the code keeps them under different conditions.
`Sound` (wallet = ledger account, rows and entries belong together) and *wallets + 1100 =
what the payments brought in* hold in every order of every event. That this is also what
account 1200 says, and that every entry balances, needs credits on their rows' terms.
`Settled` (1100 = money in transit, earnings report = platform wallet, every ledger balance
follows from the journal) and `Reserved` (held = pending withdrawals) need the provider's
payout webhooks to meet rows in the provider's own order; a failed payout that was still
PROCESSING is in order. Each of these conditions is exact, for every step and for every run.

**Around it**: the CSV export with an RFC 4180 reader (`Csv`), decimal amounts on the wire
(`BachsAmount`), the sliding-window limiter (`RateLimiter`), the idempotency protocol as
interleaved commands (`Idempotency`), sessions and refresh tokens (`RefreshTokens`), the
guest claim (`GuestClaims`, `GuestCodes`, `GuestStore`) and the tagged cache (`TagCache`).

## Where the code and its intent differ

- Reusing a pending payment keeps the row's amount but charges the new call's amount
  (bachs.service.ts:187-191, 352-365). `Exactness.ReuseLosesMoney` is the run, `AttachTermsExactly`
  the condition on a row, `Runs.WorthStaysExactly` and `Runs.EntriesBalanceExactly` what it does to the totals.
- The failed-payout webhook acts on COMPLETED withdrawals and releases the hold of an already
  debited one again; the pending-payout webhook moves PENDING to PROCESSING without a debit
  (withdrawal-webhook.service.ts:247-482). A pending notice reaches a request that was never submitted because
  the handler looks rows up by the id or reference it carries, whatever their status (416-445, 484-500).
  `Exactness` says exactly when each event, and each run, keeps each layer, `Replays.RefundedUndebitedExactly` when
  a withdrawal is refunded that was never debited; `FailingRuns` has a run for each.
- `reconcileAccounts` (ledger.service.ts:717-771) counts debits as positive, while a Bachs
  collection raises the wallet's account on its credit line. A wallet that was ever paid through Bachs
  is reported off by twice the amount collected (`Reconciliation.WholeJournalReconcilesExactly`), besides
  what lies outside the report's dates (`Reconciliation.ReconcilesExactly`).
- The two approval routes look for different hold texts (finance.service.ts:3324, 3483);
  `Holds.SettleFollowsExactly` says when the ACTIVE holds still match.
- The clean-up overwrites a row's metadata and with it the count of its retries (bachs.service.ts:1076-1090), so the
  limit of three starts again: `Checkouts.RetriesAreBounded`, `Checkouts.RetriesAreUnbounded`. So does a checkout
  attached late, because its call writes back the metadata it had read before asking the provider
  (bachs.service.ts:352-365): `Checkouts.LateCallsRestart`.
- A retry does not look at the due (bachs.service.ts:1101-1139), so a failed checkout of a due that was paid
  meanwhile can be retried and credited again: `Dues.NoneStaleExactly`, `Dues.DuePaidTwice`. Nothing in the source
  calls the retry yet.
- The payment service compares no amount with the assignment (bachs.service.ts:740-773), only the users' route does
  (finance.service.ts:1415). A payment below it would shut the due for good: `Dues.PartPaymentShuts`.
- A reference stays unique even though the webhook handlers overwrite COMPLETED: credits are
  guarded by the payment row, not by the status (`Replays.CreditedAtMostOnce`).
- Two refreshes of one session within the same second mint the same token text, which can then be
  used again (`RefreshTokens.ReplayExactly`, `RefreshTokens.ReplayHappens`).
- Logging out, of one or of all devices, with a token that does not verify filters on no user
  (auth.service.ts:719-838, token.service.ts); `RefreshTokens.LogoutReachesExactly` and
  `RefreshTokens.LogoutAllReachesExactly` say exactly whose sessions end.
- A late processor deletes somebody else's lock (`Idempotency.LateReleaseOverlaps`;
  `Idempotency.NeverOverlapExactly` is the condition), and a caller that looked before the first store
  may run the processor again (`Idempotency.EarlyLookupRunsAgain`).
- A plain cache write after an invalidation is out of reach of the tags the key had before
  (`TagCache.PlainWriteEscapes`).
- An export row without cells reads back as one empty cell (`Csv.ExportReadsBack`).

## Model

| member | source | states |
|---|---|---|
| `Runs.BooksAgree` | src/v1/finance/finance.service.ts:3259-3360 | From an empty database, in any order of any events: wallets + 1100 is exactly what the recorded payments brought in, every wallet equals its ledger account, and all entries balance if and only if every credit was on its row's terms, which also makes the total equal 1200. In the provider's order 1100 is the money in transit, the earnings report is the platform wallet, and every ledger balance follows from the posted entries. If no webhook releases what others hold, held balances are the pending withdrawals; if fees and shares taken are spendable too, 0 <= held <= balance |
| `Runs.CoreBooksAgree` | src/v1/finance/finance.service.ts:3711-3722 | Runs without failed and pending payout webhooks need no further condition for these figures; fees within the quote give 0 <= held <= balance, and checkouts for their rows' own amounts give wallets + 1100 = 1200 |
| `Runs.RunConserves` | src/v1/finance/finance.service.ts:3587-3772 | In any order of every event, webhooks and pending payments reused for another amount included, what wallets and 1100 hold grows by exactly what the recorded payments bring in, and wallets keep agreeing with their ledger accounts |
| `Runs.WorthStaysExactly` | src/v1/bachs/bachs.service.ts:607-641 | Over any run, wallets + 1100 - 1200 is the same all along if and only if no payment is credited whose expected settlement is not its amount and fee |
| `Runs.EntriesBalanceExactly` | src/v1/finance/ledger.service.ts:436-539 | From an empty database, every journal entry has equal debits and credits at the end of a run if and only if no such payment was credited |
| `Runs.SameTermsMatch` | src/v1/bachs/bachs.service.ts:352-365 | Checkouts opened for their rows' own amounts are enough for that, clean-ups that wipe the metadata and late answers of earlier calls included |
| `Runs.RunSettles` | src/v1/finance/finance.service.ts:3573-3660 | 1100 equals the money in transit and the earnings report equals the platform wallet through every run in the provider's order: no failure of a COMPLETED payout, no pending notice on a PENDING one, no fee moved by a submission that is accepted after a refund |
| `Runs.RunReserves` | src/v1/finance/finance.service.ts:3333-3342 | Each wallet's held balance equals the total of its pending withdrawals through every run in which a failed payout releases no hold that others still need and no pending notice meets a PENDING withdrawal |
| `Runs.RunStaysSolvent` | src/v1/finance/finance.service.ts:2730-2742 | In such a run no wallet ever holds more than it has, as long as provider fees above the quoted fee and shares taken back are spendable |
| `Runs.CoreRunIsOrderly` | src/v1/finance/finance.service.ts:3711-3722 | Without failed and pending payout webhooks, every run from empty keeps the provider's order and the reserves by itself: a submission never meets a refunded row |
| `Runs.QuotedRunIsAffordable` | src/v1/finance/finance.service.ts:3573-3586 | When the provider never takes more than the quoted fee, every step of such a run is affordable |
| `Steps.StepKeepsSound` | src/v1/finance/finance.service.ts:3540-3709 | Each single event, in any order, keeps the books sound; no payout event changes wallets + 1100 - 1200 |
| `Conservation.StepKeepsSurplus` | src/v1/bachs/bachs.service.ts:480-641 | Each single event leaves wallets + 1100, less what the recorded payments brought in, as it was, and moves wallets + 1100 - 1200 by exactly what a completion's settlement exceeds its amount and fee |
| `Conservation.StepConservesExactly` | src/v1/bachs/bachs.service.ts:463-475 | A single event keeps wallets + 1100 - 1200 if and only if it credits no payment on other terms than its row's |
| `Conservation.StepBalancesExactly` | src/v1/bachs/bachs.service.ts:607-641 | All entries of collections balance after an event if and only if they did before and it credits no such payment |
| `Conservation.PayoutKeepsCollections` | src/v1/finance/finance.service.ts:3259-3772 | No payout event writes a pending payment, a payment, a due or account 1200 |
| `Steps.StepKeepsSettled` | src/v1/finance/finance.service.ts:2618-2665 | Each single event in order keeps 1100, the earnings report and the journal in agreement with the rows |
| `Steps.StepKeepsReserved` | src/v1/finance/finance.service.ts:2994-3043 | Each single event that releases no hold of others keeps held balances equal to the pending withdrawals |
| `Balances.StepMoney` | src/v1/finance/finance.service.ts:3259-3360 | In any order of events, each event changes each wallet's balance by exactly what its outcome reports: amount and fee on a credit, the cost on a debit, the cost less the share on a refund, the fee correction on a submission, the share when a COMPLETED payout fails, and nothing otherwise |
| `Balances.BalancesFollowRows` | src/v1/finance/finance.service.ts:3573-3660 | From an empty database, after any run in the provider's order, each wallet's balance is what its recorded payments brought in, less the cost of its withdrawals that are paid now, plus the platform's allocated shares |
| `Balances.AccountsExactly` | src/v1/finance/finance.service.ts:3573-3660 | From an empty database, balances follow payments and withdrawals like that all along a run if and only if it is in the provider's order |
| `Replays.CreditedAtMostOnce` | src/v1/bachs/bachs.service.ts:396-453 | Over any run of duplicated notifications, polls, late failures and retries, a reference has at most one payment, one for each credit, and what all its completions together did to any wallet's balance is exactly what that payment is worth to it |
| `Replays.StepPayments` | src/v1/bachs/bachs-webhook.controller.ts:239-351 | Only a first completion adds a payment; status overwrites, cancellations and clean-ups add none |
| `Replays.MovedAtMostOnce` | src/v1/finance/finance.service.ts:3711-3772 | Over any run, in any order, a withdrawal becomes paid at most once, by a debit or an early pending notice, and stops being so at most once, by a refund or a late failure; what began and did not end is paid now |
| `Replays.RefundedUndebitedExactly` | src/v1/finance/withdrawal-webhook.service.ts:416-482 | From an empty database a withdrawal is refunded without having been debited if and only if a pending notice met it while PENDING, no failure met it while COMPLETED, and it is paid no more |
| `Replays.RefundsMatchDebits` | src/v1/finance/withdrawal-webhook.service.ts:247-414 | When a withdrawal's own events come in the provider's order, whatever order others come in, its debits minus its refunds is exactly whether it is paid now, and all its events together moved exactly its cost, less the platform's share, from each wallet while it is paid, and nothing once it is refunded |
| `Replays.DebitedOnceInMoney` | src/v1/finance/finance.service.ts:3259-3360 | In any order of any events, all debits of a withdrawal together take exactly the cost it was requested with, or nothing if it was never debited, and only from its own wallet |
| `Replays.CompletedLeftExactly` | src/v1/finance/withdrawal-webhook.service.ts:247-290 | A single event takes a withdrawal out of COMPLETED if and only if it is the provider's notice that this withdrawal failed |
| `Replays.FinalStays` | src/v1/finance/withdrawal-webhook.service.ts:145-245 | Over any run a failed withdrawal stays failed, and a completed one stays completed if and only if no failed-payout notice names it; otherwise it is failed |
| `Undo.CompensationUndoes` | src/v1/finance/finance.service.ts:3711-3772 | Request, settle, compensate brings back balance, held, ledger balance and 1100 exactly, and leaves one reversed entry, if and only if the wallet did not hold a negative amount before |
| `Undo.RejectionUndoes` | src/v1/finance/finance.service.ts:3851-3896 | Request then reject brings everything back and posts nothing, under the same condition |
| `Undo.CompensationStopsAtPayout` | src/v1/finance/finance.service.ts:3711-3722 | Once a provider payout id is recorded compensation moves no money and changes no other row |
| `Exactness.FailedPayoutSettlesExactly` | src/v1/finance/withdrawal-webhook.service.ts:247-414 | A failed-payout event keeps the books if and only if the withdrawal was not COMPLETED |
| `Exactness.PendingPayoutSettlesExactly` | src/v1/finance/withdrawal-webhook.service.ts:416-482 | A pending-payout event keeps the books if and only if the withdrawal was not PENDING |
| `Exactness.FailedPayoutReservesExactly` | src/v1/finance/withdrawal-webhook.service.ts:291-340 | The second release of a hold keeps reserves if and only if the wallet holds nothing |
| `Exactness.PendingPayoutReservesExactly` | src/v1/finance/withdrawal-webhook.service.ts:416-482 | A pending-payout event keeps held balances equal to the pending withdrawals if and only if the withdrawal was not PENDING |
| `Exactness.FailedPayoutSolventExactly` | src/v1/finance/withdrawal-webhook.service.ts:341-414 | A failed-payout event leaves every wallet solvent if and only if a share it takes back is spendable in the platform's wallet |
| `Exactness.LateSubmissionSettlesExactly` | src/v1/finance/finance.service.ts:3587-3660 | A submission that ends after its withdrawal failed keeps 1100, the report and the journal in agreement if and only if it moves no fee |
| `Exactness.SubmissionSolventExactly` | src/v1/finance/finance.service.ts:3629-3660 | A fee correction keeps every wallet solvent if and only if the excess is spendable |
| `Exactness.StepSettlesExactly` | src/v1/finance/finance.service.ts:3573-3772 | Any single event keeps 1100, the earnings report and the journal in agreement if and only if it comes in the provider's order |
| `Exactness.StepReservesExactly` | src/v1/finance/withdrawal-webhook.service.ts:291-340 | Any single event keeps held balances equal to the pending withdrawals if and only if it releases no hold of others and is no pending notice on a PENDING withdrawal |
| `Exactness.StepSolventExactly` | src/v1/finance/finance.service.ts:2730-2742 | With the other layers in place, any single event leaves every wallet solvent if and only if the fee or share it takes is spendable |
| `Exactness.SettlesExactly` | src/v1/finance/finance.service.ts:3573-3772 | Over a run from an empty database 1100, the report and the journal agree all along if and only if the run is in the provider's order |
| `Exactness.ReservesExactly` | src/v1/finance/withdrawal-webhook.service.ts:291-340 | Over a run from an empty database held balances are the pending withdrawals all along if and only if no event releases what others hold |
| `Exactness.FineExactly` | src/v1/finance/finance.service.ts:2730-2742 | Over a run from an empty database all of this and solvency hold all along if and only if the three conditions hold of every event |
| `Exactness.AttachTermsExactly` | src/v1/bachs/bachs.service.ts:352-365 | Attaching a checkout keeps settlement = amount + fee in every row if and only if its amount is the row's own |
| `Exactness.ReuseLosesMoney` | src/v1/bachs/bachs.service.ts:187-191 | For any two amounts and any fee: from an empty database, reusing a row with another amount credits the first amount although the second was paid, changes the total worth by their difference, and posts an entry that balances if and only if they are equal |
| `FailingRuns.LateFailureBreaks` | src/v1/finance/withdrawal-webhook.service.ts:247-414 | From an empty database: collected, requested, settled, submitted, reported paid, all in order; then reported failed, which breaks the settled layer |
| `FailingRuns.EarlyPendingBreaks` | src/v1/finance/withdrawal-webhook.service.ts:416-482 | From an empty database: a pending notice that names a request not yet approved breaks the settled layer and the reserves |
| `FailingRuns.RefundedWithoutDebit` | src/v1/finance/withdrawal-webhook.service.ts:247-482 | From an empty database: requested, noticed as pending, noticed as failed; the wallet is refunded a cost it never paid, and 1100 is negative by as much |
| `FailingRuns.LateSubmissionBreaks` | src/v1/finance/finance.service.ts:3587-3660 | From an empty database: the failure arrives while the settling call is still submitting, and the submission then moves a fee of a refunded withdrawal |
| `FailingRuns.SecondReleaseBreaks` | src/v1/finance/withdrawal-webhook.service.ts:291-340 | From an empty database: a failed payout releases its hold again while another request holds money |
| `FailingRuns.QuotedFeeIsShared` | src/v1/finance/finance.service.ts:3573-3586 | From an empty database: an organisation's withdrawal whose provider reports no fee; the quoted fee counts and the platform's wallet ends with 5,000 more |
| `FailingRuns.ShareTakenBackBreaks` | src/v1/finance/ledger.service.ts:652-711 | From an empty database: the platform requests all it has, then a payout fails and its share is taken back |
| `FailingRuns.HigherFeeBreaks` | src/v1/finance/finance.service.ts:3629-3660 | From an empty database: the provider charges more than was quoted to a wallet with nothing left |
| `FailingRuns.WrongRouteBreaks` | src/v1/finance/finance.service.ts:3321-3331 | From an empty database: the users' route settles a platform withdrawal, reserves hold and its hold stays ACTIVE |
| `FailingRuns.FirstCollectionUnreconciled` | src/v1/finance/ledger.service.ts:717-771 | From an empty database: after one collection the report of its day has the wallet's account off by twice the amount |
| `CollectionProofs.AttachKeepsTerms` | src/v1/bachs/bachs.service.ts:260-266 | Writing this call's terms over any metadata keeps a row's expected settlement at amount plus fee if and only if the amount is the row's |
| `CollectionProofs.CompletionConservesExactly` | src/v1/bachs/bachs.service.ts:607-641 | A completion conserves money, and its entry balances, if and only if the expected settlement is amount plus fee |
| `CollectionProofs.CollectionKeeps` | src/v1/bachs/bachs.service.ts:352-1139 | Every collection event, in any order and for any amount, keeps soundness and the payout layers |
| `CollectionProofs.CollectionKeepsTerms` | src/v1/bachs/bachs.service.ts:1076-1090 | Every collection event that attaches no checkout for another amount keeps each row's expected settlement at amount plus fee, clean-up that wipes the metadata included |
| `Openings.OpeningRefusedFirst` | src/v1/bachs/bachs.service.ts:149-158 | An amount that is too small, or a due with a recorded payment, is refused before any row is looked at |
| `Openings.FirstOpeningExactly` | src/v1/bachs/bachs.service.ts:237-270 | With nothing open for the purpose exactly one row is created, if and only if the keys and indexes admit it |
| `Openings.OpeningExactly` | src/v1/bachs/bachs.service.ts:160-280 | With an open row for the purpose, the newest one counts: it is reused if and only if it is younger than an hour and has no checkout or an open one; closed as expired or cancelled and replaced if and only if its age or the provider says so and the new row is admitted; refused with nothing changed in every other case |
| `Openings.SecondOpening` | src/v1/bachs/bachs.service.ts:160-280 | From an empty database, for every age of the first checkout and every answer of the provider, attached or not: the rows after the same purpose is opened again |
| `Openings.AttachedExactly` | src/v1/bachs/bachs.service.ts:352-365 | Attaching writes one row: the checkout, this call's fee and settlement, and the rest of the metadata as the call had read it; refused if and only if another row has the checkout |
| `Openings.TermsRead` | src/v1/bachs/bachs.service.ts:455-475 | What a completion expects: the metadata's settlement unless it is missing or zero, else amount and fee, and no fee where none is recorded |
| `Openings.CreditedExactly` | src/v1/bachs/bachs.service.ts:432-475 | A completion is credited if and only if the notification identifies the row, its reference is unpaid, it is PENDING, amount and checkout agree, the wallets are active, the charge is new, and an unpaid due has no payment |
| `Openings.UncreditedChangesNothing` | src/v1/bachs/bachs.service.ts:432-475 | A completion that is not credited leaves the whole state equal, and is answered rather than refused if and only if it identifies a row whose reference is paid |
| `Openings.CreditedWrites` | src/v1/bachs/bachs.service.ts:480-730 | A credit moves amount and fee to the two wallets, posts exactly that entry, records one payment, completes one row, and holds nothing |
| `Openings.CreditedDueExactly` | src/v1/bachs/bachs.service.ts:740-790 | It records the payment for exactly the row's own unpaid assignment, and marks it paid if and only if the amount covers it |
| `Openings.CompletedLeftExactly` | src/v1/bachs/bachs-webhook.controller.ts:239-351 | A single event, whatever it is, takes a pending payment out of COMPLETED if and only if it is a failure or expiry notice that finds the row, or the late end of a poll that had read it as PENDING |
| `Openings.CompletedStaysExactly` | src/v1/bachs/bachs-webhook.controller.ts:239-351 | Over any run a completed payment is COMPLETED all along if and only if no such event meets it |
| `Openings.DuplicatesChangeNothing` | src/v1/bachs/bachs.service.ts:396-453 | Any number of notifications of references that are paid leave the whole state equal |
| `Openings.CancelledExactly` | src/v1/bachs/bachs.service.ts:877-907 | A cancellation closes exactly a PENDING row of the caller, or of anybody when the service calls; any other is refused |
| `Openings.PolledExactly` | src/v1/bachs/bachs.service.ts:912-994 | A poll of the payer closes a row it had read as PENDING with a checkout, as the provider says, whatever the row is by then |
| `Openings.CleanedExactly` | src/v1/bachs/bachs.service.ts:1071-1096 | The clean-up expires exactly the PENDING rows older than the cutoff and wipes their metadata; every other row stays |
| `Openings.RetriedExactly` | src/v1/bachs/bachs.service.ts:1101-1139 | A retry reopens exactly a FAILED row retried less than three times whose due has no other PENDING row, and counts it |
| `Openings.NoticedExactly` | src/v1/bachs/bachs-webhook.controller.ts:239-351 | A failure or expiry notice overwrites the status of the row it finds, whatever it was, and of no other |
| `Holds.SettleFollowsExactly` | src/v1/finance/finance.service.ts:3321-3331 | Settling keeps one ACTIVE hold for each pending withdrawal if and only if the route is the withdrawal's own |
| `Holds.StepFollowsExactly` | src/v1/finance/withdrawal-webhook.service.ts:291-340 | Any single event keeps one ACTIVE hold for each pending withdrawal if and only if it does not take a PENDING withdrawal by a route other than its own: wrong approval, a failed notice on a platform's request, a pending notice |
| `Holds.HoldsFollowExactly` | src/v1/finance/finance.service.ts:3321-3331 | Over a run from an empty database there is one ACTIVE hold for each pending withdrawal all along if and only if every event takes its withdrawal's own route |
| `Holds.ActiveHoldsAreHeld` | src/v1/finance/finance.service.ts:3479-3502 | Over any run with withdrawals on their own routes in which no webhook releases what others hold, the ACTIVE holds of a wallet add up to its held balance |
| `Reconciliation.ReconcilesExactly` | src/v1/finance/ledger.service.ts:717-771 | After any run in the provider's order, for any date range: the report misses what the posted entries outside the range add up to and, for a wallet, twice what Bachs ever paid into it; the account reconciles if and only if the two cancel |
| `Reconciliation.WholeJournalReconcilesExactly` | src/v1/finance/ledger.service.ts:717-771 | Over the whole journal an account reconciles if and only if it is no wallet or Bachs never paid into it |
| `JournalReuse.MatchIsMultisetEquality` | src/v1/finance/finance.service.ts:3195-3226 | For pairwise distinct expected lines the reuse test accepts exactly the posted, balanced-flagged entries with the same multiset of lines |
| `JournalReuse.DistinctExactly` | src/v1/finance/finance.service.ts:3195-3226 | The reuse test accepts only entries with the same multiset of lines if and only if the expected lines are pairwise distinct |
| `JournalReuse.PayoutMatchesExactly` | src/v1/finance/finance.service.ts:3268-3293 | For the two lines both callers expect, it accepts exactly the posted, balanced-flagged entries with just a debit of 1100 and a credit of the wallet's account, each of the total |
| `JournalReuse.ReusedEntryBalances` | src/v1/finance/finance.service.ts:3294-3314 | A reused payout entry has the withdrawal's total on both sides |
| `JournalReuse.ExistingEntryExactly` | src/v1/finance/finance.service.ts:3268-3314 | A settlement that finds an entry of the withdrawal posts nothing: it debits the wallet alone if the entry is posted with just these two lines, and is refused otherwise |
| `JournalReuse.EntryPostedExactly` | src/v1/finance/ledger.service.ts:436-539 | An entry is refused if and only if debits and credits differ or an account is missing; otherwise it is posted with its lines, each account moves by its own debits less its credits, and no wallet balance changes |
| `Charges.FeeIsMonotone` | src/v1/finance/ledger.service.ts:349-390 | Fees are non-negative and never fall as the amount rises |
| `Charges.DisabledIsFree` | src/v1/finance/ledger.service.ts:354-362 | Without an enabled policy, as shipped, a withdrawal of any amount is free |
| `Charges.EnabledFeeExactly` | src/v1/finance/ledger.service.ts:364-381 | With a policy whose bounds are in order, the fee less the flat fee lies within the bounds that are set and, unless it is one of them, is the integer nearest to the percentage of the amount |
| `Payouts.FeeOfOwner` | src/v1/finance/finance.service.ts:2726-2727 | An organisation pays 10,000 kobo, the platform 5,000, and a user nothing while the policy is disabled |
| `Payouts.RequestAcceptedExactly` | src/v1/finance/finance.service.ts:2730-2742 | A request is accepted if and only if it is large enough and amount and fee are spendable; a refused one leaves every balance and row |
| `Payouts.RequestWritesExactly` | src/v1/finance/finance.service.ts:2744-2788 | An accepted one holds exactly amount and fee, writes one PENDING row and one ACTIVE hold, quotes the provider fee to organisations and the platform only, and moves no money |
| `Payouts.ApprovedExactly` | src/v1/finance/finance.service.ts:3390-3538 | An approval settles if and only if the withdrawal is PENDING and the platform's is not approved by who asked for it, unless that is allowed; any other changes nothing |
| `Payouts.SettledExactly` | src/v1/finance/finance.service.ts:3259-3360 | A settlement is accepted if and only if the withdrawal is PENDING; any other changes nothing |
| `Payouts.SettlementWrites` | src/v1/finance/finance.service.ts:3259-3360 | A settlement moves the cost from the wallet to 1100, posts exactly that entry, ends the reserve, and marks the row as submitting |
| `Payouts.HoldsReleasedExactly` | src/v1/finance/finance.service.ts:3321-3331 | A hold stops being ACTIVE if and only if it is of that withdrawal and wallet and has the text looked for |
| `Payouts.SubmittedExactly` | src/v1/finance/finance.service.ts:3540-3572 | A submission is accepted if and only if the row is submitting and no other withdrawal has the payout; any other changes nothing |
| `Payouts.OneFeeIsTaken` | src/v1/finance/finance.service.ts:3573-3575 | Whatever the answer and the quote, exactly one amount is what the provider took |
| `Payouts.OrganizationSubmission` | src/v1/finance/finance.service.ts:3587-3628 | The provider took what it reported, else what was quoted, else what was charged: of an organisation's fee the rest goes to the platform, posted, credited and recorded on the row |
| `Payouts.PlainSubmission` | src/v1/finance/finance.service.ts:3629-3660 | A user or the platform pays exactly that fee: the difference moves between the wallet and 1100, and the row has the new fee |
| `Payouts.PlainSubmissionReposts` | src/v1/finance/finance.service.ts:3661-3689 | Exactly the withdrawal's entry is rewritten, to amount and new fee on both lines, when the fee differs |
| `Payouts.CompensatedExactly` | src/v1/finance/finance.service.ts:3711-3772 | A failed submission refunds amount and fee and reverses the entry if and only if the row is PROCESSING without a payout; otherwise only the submitting mark goes |
| `Payouts.RejectedExactly` | src/v1/finance/finance.service.ts:3830-3939 | A rejection fails exactly a PENDING withdrawal, frees what it held, moves no balance, and releases its holds whatever their text |
| `Payouts.SucceededExactly` | src/v1/finance/withdrawal-webhook.service.ts:145-245 | A success notice completes a PROCESSING withdrawal, changes nothing on a COMPLETED one, and is refused otherwise |
| `Payouts.NoticedPendingExactly` | src/v1/finance/withdrawal-webhook.service.ts:416-482 | A pending notice makes a withdrawal PROCESSING exactly when it has not ended |
| `Payouts.FailedExactly` | src/v1/finance/withdrawal-webhook.service.ts:247-414 | A failed notice fails any other withdrawal, whatever its status, and refunds if and only if it was PROCESSING |
| `Payouts.FailedMoves` | src/v1/finance/withdrawal-webhook.service.ts:291-414 | It gives back amount and fee from PROCESSING only, takes an allocated share from the platform whatever the status, and takes the cost off what is held |
| `Payouts.FailedReverses` | src/v1/finance/ledger.service.ts:652-711 | Exactly the withdrawal's entry and that of its share are reversed: the share's is the recorded one, else the last one posted |
| `Charges.CalculateMaximumWithdrawal` | src/v1/finance/finance.service.ts:2851-2871 | Returns the greatest amount that fits together with its fee, 0 if none, in both branches |
| `Charges.GetWithdrawalQuote` | src/v1/finance/finance.service.ts:2907-2972 | canWithdraw says exactly whether the request step accepts the amount, or any amount when none is given |
| `MoneyStore.Store.CreateJournalEntry` | src/v1/finance/ledger.service.ts:436-539 | Refuses unbalanced lines and missing accounts with nothing changed; otherwise each account moves by its signed lines and one entry is added |
| `MoneyStore.Store.WriteEntry` | src/v1/finance/ledger.service.ts:476-529 | The loop over lines writes every line and balance, or rolls back all of them |
| `MoneyStore.Store.CreateOrReuseWithdrawalJournal` | src/v1/finance/finance.service.ts:3181-3227 | Finds the entry of the withdrawal, reuses it when its lines match, refuses otherwise, posts one when there is none |
| `MoneyStore.Store.RequestWithdrawal` | src/v1/finance/finance.service.ts:2710-2814 | The whole new state of a request: refused below the minimum or beyond what is available, else row, hold and held balance |
| `MoneyStore.Store.SettleWithdrawal` | src/v1/finance/finance.service.ts:3259-3360 | The whole new state of a settlement, in the code's order of writes |
| `MoneyStore.Store.ApprovePlatformWithdrawal` | src/v1/finance/finance.service.ts:3390-3538 | As settlement, with the platform's hold text and the check against approving one's own request |
| `MoneyStore.Store.SubmitPayout` | src/v1/finance/finance.service.ts:3540-3709 | The whole new state after the provider answers, with the organisation's fee split or the correction of the fee |
| `MoneyStore.Store.SubmitOrganizationPayout` | src/v1/finance/finance.service.ts:3587-3628 | The platform's share is posted, credited and recorded, once |
| `MoneyStore.Store.SubmitPlainPayout` | src/v1/finance/finance.service.ts:3629-3689 | The fee difference moves between wallet and 1100, and both lines of the entry are rewritten |
| `MoneyStore.Store.ReverseOrganizationWithdrawalPlatformFee` | src/v1/finance/ledger.service.ts:652-711 | Takes a recorded share back and reverses its entry; does nothing without one |
| `MoneyStore.Store.CompensateFailedPayoutSubmission` | src/v1/finance/finance.service.ts:3711-3772 | The whole new state of a compensation |
| `MoneyStore.Store.RejectUserWithdrawal` | src/v1/finance/finance.service.ts:3830-3939 | The whole new state of a rejection |
| `MoneyStore.Store.HandleWithdrawalFailed` | src/v1/finance/withdrawal-webhook.service.ts:247-414 | The whole new state of a failed-payout webhook |
| `MoneyStore.Store.InitiatePayment` | src/v1/bachs/bachs.service.ts:147-280 | The row transaction of a checkout: refused for a due with a recorded payment, else reuse, close and replace, or refuse; a refused insert rolls the closing back |
| `MoneyStore.Store.CompletePayment` | src/v1/bachs/bachs.service.ts:396-730 | The whole new state of a completion, due payment and due assignment included, and every reason to refuse one, a second payment of an unpaid due included |
| `Checkouts.ClosedUntilRetried` | src/v1/bachs/bachs.service.ts:446-450 | Over any run, a pending payment that was cancelled, expired, failed or completed by any route stays closed and is never credited until a retry of it is accepted |
| `Checkouts.ReopensExactly` | src/v1/bachs/bachs.service.ts:1101-1139 | A single event, whatever it is, makes a closed pending payment PENDING if and only if it is an accepted retry of that row |
| `Checkouts.RetriesAreBounded` | src/v1/bachs/bachs.service.ts:1113-1120 | Over any run a row is retried at most three times, plus three for each event that restarts its count: a clean-up that expires it, or a checkout attached by a call that had read the row before its last retries |
| `Checkouts.RetriesAreUnbounded` | src/v1/bachs/bachs.service.ts:1076-1090 | For every n there is a run from an empty database in which one row is retried n times: a failure notice, a retry, and a clean-up that overwrites the metadata, over and over |
| `Checkouts.LateCallsRestart` | src/v1/bachs/bachs.service.ts:352-365 | For every n there is a run from an empty database without any clean-up in which one row is retried n times: n calls reuse it before a checkout is attached, and each one's late answer writes the metadata it had read back |
| `Checkouts.RunKeepsIndexes` | src/v1/bachs/bachs.service.ts:187-270 | Over any run references stay unique and a due has at most one PENDING checkout |
| `Dues.DuesPaidExactly` | src/v1/bachs/bachs.service.ts:740-773 | Over any run, an assignment is marked paid if and only if its recorded due payment covers it, every due payment is the amount of a recorded payment, and no payment counts for two assignments |
| `Dues.RecordedIsFinal` | src/v1/bachs/bachs.service.ts:748-773 | Once a payment is recorded for an assignment neither changes again, and if it falls short no later payment for that due is credited |
| `Dues.NoneStaleExactly` | src/v1/bachs/bachs.service.ts:149-158 | A run never has a payable checkout for a due with a recorded payment if and only if it never retries one |
| `Dues.DueCreditedOnce` | src/v1/bachs/bachs.service.ts:1101-1139 | A run without such a retry credits each due at most once, and exactly once if a payment is recorded for it |
| `Dues.DuePaidTwice` | src/v1/bachs/bachs.service.ts:1123-1133 | From an empty database: a failed checkout of a due that was paid meanwhile is retried and paid too; the money is credited twice and one due payment remains |
| `Dues.PartPaymentShuts` | src/v1/bachs/bachs.service.ts:744-773 | A first payment below the assigned amount is accepted by the service, and over any later run the due stays unpaid and is credited no more |
| `Csv.ExportReadsBack` | src/common/utils/csv.util.ts:16-27 | An RFC 4180 reader returns exactly the header and row texts, formula-guarded and with null as empty, if and only if no row is without cells |
| `Csv.FieldReadsBack` | src/common/utils/csv.util.ts:5-14 | Any printed field is read back as its text and the reader stops right after it |
| `Csv.NoFormulaComesBack` | src/common/utils/csv.util.ts:10-11 | No field a reader recovers starts with a formula character |
| `Csv.ShownExactly` | src/common/utils/csv.util.ts:5-12 | A text gets an apostrophe in front if and only if it starts with one of the formula characters |
| `BachsAmount.RoundTrip` | src/v1/bachs/bachs.client.ts:92-101 | Reading a printed amount gives the same kobo, for every integer |
| `BachsAmount.PrintsTwoDecimals` | src/v1/bachs/bachs.client.ts:92-94 | A printed amount is digits, a point and exactly two digits |
| `BachsAmount.RoundIsNearest` | src/v1/bachs/bachs.client.ts:99-101 | Rounding gives k if and only if the number lies in [k - 1/2, k + 1/2) |
| `BachsAmount.UnsignedReads` | src/v1/bachs/bachs.client.ts:96-101 | Digits, a point and digits read as that decimal number, whatever text but an exponent follows |
| `BachsAmount.SignedReads` | src/v1/bachs/bachs.client.ts:96-101 | Blanks in front of a number are skipped, and a sign is applied to it |
| `BachsAmount.ExponentReads` | src/v1/bachs/bachs.client.ts:96-101 | An exponent scales by that power of ten, either sign, whatever follows its digits |
| `BachsAmount.KoboIsHundredth` | src/v1/bachs/bachs.client.ts:99-101 | Kobo are hundredths of the number read: exact with two decimals or none, to the nearest with three |
| `BachsAmount.CreditedExactly` | src/v1/bachs/bachs.service.ts:455-475 | A completion is credited if and only if the row is ready and the reported text lies within half a kobo of the expected settlement |
| `BachsAmount.EchoIsCredited` | src/v1/bachs/bachs.service.ts:303-303 | A provider echoing the checkout amount always passes the settlement check |
| `RateLimiter.WindowIsBounded` | src/redis/redis.service.ts:275-304 | No window of the limiter's length holds more than `limit` allowed requests, whatever the times |
| `RateLimiter.TrimmingIsSafe` | src/redis/redis.service.ts:284-288 | What is left after trimming counts exactly the recent requests of the whole history |
| `RateLimiter.ExpiryIsSafe` | src/redis/redis.service.ts:293-294 | Expiring the key a window or more after its last request never changes an answer |
| `RateLimiter.CallFollows` | src/redis/redis.service.ts:280-294 | One call keeps the stored set standing for the whole history |
| `RateLimiter.Limiter.RateLimit` | src/redis/redis.service.ts:275-304 | The answer depends on the full history of requests only: allowed exactly when fewer than `limit` came in the last window |
| `Idempotency.ProcessorsNeverOverlap` | src/redis/idempotency.service.ts:45-66 | If every caller releases within the lock's lifetime, no two callers are ever inside the lock, in any interleaving: the timely case of `NeverOverlapExactly` |
| `Idempotency.StepIsExclusiveExactly` | src/redis/idempotency.service.ts:45-66 | One command keeps the lock exclusive if and only if it is not an acquire that finds the lock gone past a holder whose lifetime is over |
| `Idempotency.NeverOverlapExactly` | src/redis/idempotency.service.ts:45-66 | In any interleaving, no two callers are ever inside the lock together if and only if no caller takes it past an expired holder |
| `Idempotency.LateReleaseOverlaps` | src/redis/idempotency.service.ts:62-66 | A run in which one late caller lets two others run at once |
| `Idempotency.LookupReturnsNewest` | src/redis/idempotency.service.ts:95-100 | For a day after the first store a lookup returns the newest response and runs nothing |
| `Idempotency.RepeatsLookedBeforeStore` | src/redis/idempotency.service.ts:85-128 | With truthy results, every execution belongs to a caller whose lookup came before the first store |
| `Idempotency.EarlyLookupRunsAgain` | src/redis/idempotency.service.ts:102-128 | A run in which the processor runs twice |
| `Idempotency.EachCallerRunsOnce` | src/redis/idempotency.service.ts:115-128 | Each call runs its processor at most once, whatever the timing |
| `Idempotency.AcquireExactly` | src/redis/idempotency.service.ts:45-57 | A lock that is free or has run out is taken for 30 seconds; any other makes the caller wait |
| `Idempotency.RetryExactly` | src/redis/idempotency.service.ts:102-128 | A caller that finds the lock taken looks for the response once more, returns it if it is there, and is refused otherwise, without running its processor |
| `Idempotency.AnswersWereStored` | src/redis/idempotency.service.ts:104-124 | Every returned value was computed by some processor and stored |
| `Idempotency.EntriesAreSeparate` | src/redis/idempotency.service.ts:45-80 | Response and lock entries of different users and keys are different, except for a user called "lock" |
| `RefreshTokens.AcceptedAtMostOnce` | src/v1/auth/auth.service.ts:579-685 | Over any run whose refreshes come in a later second than their token, no token is accepted twice |
| `RefreshTokens.ReplayExactly` | src/v1/auth/auth.service.ts:655-685 | A used token is accepted again if and only if it was refreshed within the second it was issued in, and token and session have not expired |
| `RefreshTokens.ReplayHappens` | src/v1/auth/auth.service.ts:655-685 | From an empty database: one login, then its token twice within the second it was issued in; both refreshes are accepted |
| `RefreshTokens.RefreshExact` | src/v1/auth/auth.service.ts:607-662 | A refresh is accepted if and only if the token verifies, fits the application, and is the current token of its own live session: the search over other sessions never accepts anything |
| `RefreshTokens.AcceptedExactly` | src/v1/auth/auth.service.ts:579-662 | Spelled out: signed, not older than 30 days, of the application asked for, and the current token of an active session of the same user and application that is not past its time |
| `RefreshTokens.RefreshWrites` | src/v1/auth/auth.service.ts:664-685 | An accepted refresh replaces the session's token by one of this second and records its use; any other changes nothing |
| `RefreshTokens.TargetExactly` | src/v1/auth/auth.service.ts:608-649 | The session a refresh looks at: the token's own if usable, else of the usable ones that hold the token the one used last, else the one used last of all usable ones |
| `RefreshTokens.LoginExactly` | src/v1/auth/auth.service.ts:505-518 | A login adds one active session of 30 days, or one day for administrators, unless an unfinished one is there |
| `RefreshTokens.FinishExactly` | src/v1/auth/auth.service.ts:520-538 | A finished login gives its session a token of this second, and changes no other |
| `RefreshTokens.AcceptedWhereMinted` | src/v1/auth/auth.service.ts:596-606 | In any run a token is only accepted for the session, user and application it was minted for |
| `RefreshTokens.NeverAfterRevocation` | src/v1/auth/auth.service.ts:387-411 | After logout with its token, logout of all devices, revocation or password reset, nothing that follows accepts a token of the session |
| `RefreshTokens.RevokedStaysRevoked` | src/v1/auth/auth.service.ts:1130-1151 | An inactive session stays inactive and accepts no token, over any run |
| `RefreshTokens.RevocationEndsExactly` | src/v1/auth/auth.service.ts:1130-1151 | A revocation ends the named session if it is the caller's, and no other |
| `RefreshTokens.ResetEndsExactly` | src/v1/auth/auth.service.ts:387-411 | A password reset ends every session of its user and none of anybody else |
| `RefreshTokens.LogoutEndsOwn` | src/v1/auth/auth.service.ts:719-790 | A logout with a token that verifies ends the token's own session, if it is active and fits the application, and no other |
| `RefreshTokens.LogoutEndsNewest` | src/v1/auth/auth.service.ts:742-781 | Any other logout ends exactly one session, the one used last of all active ones of the application asked for and, if the token verifies, of its user; or none if there is none |
| `RefreshTokens.LogoutAllEndsExactly` | src/v1/auth/auth.service.ts:796-830 | A logout of all devices with such a token ends every session of its user and no other |
| `RefreshTokens.LogoutIgnored` | src/v1/auth/auth.service.ts:719-740 | Without a cookie, or for another application than the one asked for, no session ends |
| `RefreshTokens.LogoutAllReachesExactly` | src/v1/auth/auth.service.ts:796-830 | Other users' sessions are left alone if and only if the token verifies, or they have none active |
| `RefreshTokens.LogoutReachesExactly` | src/v1/auth/auth.service.ts:719-790 | A single logout leaves another user's sessions alone if and only if the token verifies, or the call is ignored, or none of them is the session used last of all that fit |
| `RefreshTokens.UnverifiedLogoutEnds` | src/v1/auth/auth.service.ts:719-838 | From an empty database: after one login either logout with a token that does not verify ends the session |
| `SessionStore.AuthService.FindTarget` | src/v1/auth/auth.service.ts:608-649 | The loop over candidate sessions finds the session the rule names |
| `SessionStore.AuthService.Refresh` | src/v1/auth/auth.service.ts:579-685 | The whole new state of a refresh, and the new token the session now holds |
| `SessionStore.AuthService.Login` | src/v1/auth/auth.service.ts:505-518 | Creates a session under a placeholder hash, and fails while another placeholder is there |
| `SessionStore.AuthService.StoreFirstHash` | src/v1/auth/auth.service.ts:520-538 | The new session holds the hash of the returned token |
| `SessionStore.AuthService.Logout` | src/v1/auth/auth.service.ts:719-790 | The whole new state of a logout: the token's session, else the caller's newest one |
| `GuestClaims.ClaimMeans` | src/v1/finance/guest-payment.service.ts:387-461 | After a claim everything of the claimed guests belongs to the user with amounts and organisations unchanged, the count is the payments moved, claimed placeholders own nothing, due payments stay unique, and an assignment is paid exactly when it was or a claimed payment settles it |
| `GuestCodes.ClaimedExactly` | src/v1/finance/guest-payment.service.ts:352-385 | A submission claims if and only if the user is verified and the code sent last of all that are unused, unexpired, below five attempts and sent for an unclaimed guest of this address carries this code and this user |
| `GuestCodes.CodesAfterExactly` | src/v1/finance/guest-payment.service.ts:373-386 | A claim uses up that code and touches no other, a wrong submission changes nothing but one attempt more on it, and any other submission changes nothing |
| `GuestCodes.CodeIsGoodOnce` | src/v1/finance/guest-payment.service.ts:359-386 | Over any run a code claims at most once and is missed at most five times, its attempts count its misses, and once used or missed five times no submission reaches it |
| `GuestCodes.SentExactly` | src/v1/finance/guest-payment.service.ts:289-327 | A code is sent to a verified user for the first unclaimed guest of the address unless an unused one was sent within a minute, is good for ten minutes, and replaces none |
| `GuestCodes.NotSent` | src/v1/finance/guest-payment.service.ts:289-302 | No code is written when no guest of the address is unclaimed |
| `GuestCodes.CreditedExactly` | src/v1/finance/guest-payment.service.ts:410-447 | A completed payment for a live due of its organisation marks the assignment paid, at the payment's own time if it has one, with the due's amount if the assignment is new, and is recorded if and only if none was |
| `GuestCodes.NotCredited` | src/v1/finance/guest-payment.service.ts:410-421 | A payment that is not completed, names no live due, or is of another organisation credits nothing |
| `GuestCodes.SettlesExactly` | src/v1/finance/guest-payment.service.ts:410-421 | A payment settles a due if and only if it is completed and the due it names is there, not deleted, and of the organisation paid |
| `GuestCodes.RecordedElsewhereAborts` | src/v1/finance/guest-payment.service.ts:432-443 | A payment already recorded for another assignment makes the claim fail |
| `GuestCodes.ClaimLeavesDuePayments` | src/v1/finance/guest-payment.service.ts:410-447 | After a claim every assignment settled by the claimed payments has a recorded due payment |
| `GuestCodes.ClaimReports` | src/v1/finance/guest-payment.service.ts:387-457 | The number of guests reported is that of all unclaimed guests of the address, and is not zero |
| `GuestCodes.GuestOpensExactly` | src/v1/finance/guest-payment.service.ts:156-270 | A guest's payment for a due that is there opens an unverified placeholder account for it, and one pending row if a checkout was created |
| `GuestClaims.ClaimAllWorks` | src/v1/finance/guest-payment.service.ts:391-452 | The loop over guests hands over exactly the claimable ones and never aborts |
| `GuestClaims.ClaimPaysExactly` | src/v1/finance/guest-payment.service.ts:410-447 | An assignment is paid after the loop if and only if it was before, or a completed payment of a claimed guest for a live due of the same organisation settles it |
| `GuestClaims.CreditAllWorks` | src/v1/finance/guest-payment.service.ts:410-447 | The inner loop keeps due payments unique and marks exactly the settled assignments paid |
| `GuestClaims.RunStaysSound` | src/v1/finance/guest-payment.service.ts:156-461 | Over any run claimed guests own nothing, even when their checkout completes later, and no assignment has two due payments |
| `GuestClaims.ClaimedOnce` | src/v1/finance/guest-payment.service.ts:387-452 | A claimed guest is never claimed again |
| `GuestStore.Store.VerifyClaimCode` | src/v1/finance/guest-payment.service.ts:352-461 | The code checks, the nested loops and the rollback change the tables exactly as the claim step says |
| `GuestStore.Store.ClaimGuests` | src/v1/finance/guest-payment.service.ts:387-457 | The loop over guests with its two counters |
| `GuestStore.Store.ClaimOne` | src/v1/finance/guest-payment.service.ts:392-452 | One turn: count, move, credit the dues, mark the guest |
| `GuestStore.Store.CreditDues` | src/v1/finance/guest-payment.service.ts:410-447 | The loop over the guest's payments |
| `TagCache.IndexExact` | src/redis/cache.service.ts:175-222 | A tag references a key if and only if the key was written under it and it was not invalidated since |
| `TagCache.StoredAreIndexed` | src/redis/cache.service.ts:175-195 | Every stored value is referenced under each tag of the write that stored it |
| `TagCache.ReadsLastWrite` | src/redis/cache.service.ts:23-41 | Over any run of reads, writes, deletions and invalidations a read returns the value of the key's last write until it expires, unless the key was deleted or one of its tags invalidated since |
| `TagCache.InvalidationRemoves` | src/redis/cache.service.ts:197-215 | Invalidating a tag removes every value last written under it |
| `TagCache.InvalidationKeeps` | src/redis/cache.service.ts:197-215 | A read after an invalidation misses exactly the keys written under the tag since its last invalidation |
| `TagCache.PlainWriteEscapes` | src/redis/cache.service.ts:33-36 | A plain write after an invalidation is not reached by the key's earlier tags |
| `TagCache.MutationFreshExactly` | src/redis/cache.service.ts:197-222 | After a mutation the cache is up to date if and only if every cached key it changes was deleted or referenced by an invalidated tag |
| `TagCache.CachedReadsAreUncached` | src/redis/cache.service.ts:128-143 | If each mutation invalidates a tag of every key it changes, cached reads return what uncached reads would, over any run |
| `TagCache.ReadStores` | src/redis/cache.service.ts:128-143 | A read that misses stores what it fetched, for its time to live, unless that is null |
| `TagCache.MissingIsNotCached` | src/redis/cache.service.ts:128-143 | A null is returned and not cached |
| `TagCache.HitReads` | src/redis/cache.service.ts:128-143 | A hit returns what is cached and writes nothing |
| `TagCacheStore.CacheService.SetWithTag` | src/redis/cache.service.ts:175-195 | The loop over tags changes value, tags of the key and keys of the tags exactly so, and fails after writing the value when no tag is given |
| `TagCacheStore.CacheService.InvalidateByTag` | src/redis/cache.service.ts:197-222 | The keys of the tag lose value and tags, and the tag its set |
| `TagCacheStore.CacheService.GetOrSet` | src/redis/cache.service.ts:128-143 | Returns the cached value or the fetched one, which is then stored unless it is null |

## Left out

- Prisma and PostgreSQL isolation: every transaction is one atomic step, although several steps write absolute balances read earlier; so is a read directly followed by its write outside a transaction (cancel, retry, the collection webhooks). Only reads with a provider call in between are modelled as old.
- Wallet debits, internal payments, manual payments, top-ups and savings: they check `balance` instead of `balance - heldBalance` or post single-sided entries, so the reserve property does not hold with them.
- Wallets without a ledger account: every path of the engine that creates a wallet creates both, so a wallet row carries its ledger balance.
- Provider answers, reported fees, clocks and generated references are parameters of the steps; provider HTTP calls, signatures and retries of unknown submissions are not modelled.
- Bank-account and beneficiary checks before a request or approval, admin permissions, audit rows, notifications, receipts and e-mails: they only refuse a step or write rows nothing here reads.
- Due assignments: created with an amount and never reassigned; dues paid by internal, manual or guest payments, and the checks of the users' route before a checkout (owner, level, exact amount, due still open), are outside the engine. Guest payments are modelled on their own in `GuestClaims`.
- Compensation after a committed submission: when no payout id was stored and the cache invalidation inside the same `try` fails (finance.service.ts:3691-3698), the code still compensates; the model clears the submitting mark with the submission and has no such step.
- The financial overview restricted to one institution: only the platform-wide report is compared with a balance.
- A notification without a checkout id can match any row in the lookup of the webhook handlers; the model allows any row there.
- Calls waiting for the provider are not a table of the state: attaching a checkout may follow any earlier event on the row, for any amount and with any metadata, and a status poll may close a row on any status it claims to have read.
- Withdrawal entries found by their withdrawal are never deleted, so the reuse branch of the settlement journal is covered by `JournalReuse` and unreachable in runs from an empty database.
- Charges.Fee: percentages are real numbers, so the rounding of IEEE products is not captured.
- BachsAmount.RoundTrip: decimal arithmetic is exact and amounts print below 10^21 naira, so double rounding above 2^53 kobo is not captured.
- Csv.ExportReadsBack: cells are texts; how numbers and dates print is left to the caller.
- RateLimiter.Limiter.RateLimit: one key, calls one at a time, and distinct members of the sorted set; the four Redis commands of two calls are not interleaved.
- Idempotency: Redis failures, an empty key (which runs the processor unprotected), and results that cannot be serialised.
- RefreshTokens.AcceptedAtMostOnce: a refresh is one step; two requests that both check the stored hash before either replaces it are not interleaved.
- RefreshTokens: passwords, lockout counters, the password-reset token itself, access tokens, and a change of the user's e-mail between two tokens.
- GuestClaims: scope checks when a guest starts a payment, and the window between reading the guests and the transaction; the claim is one step.
- TagCache: text and number values (whose stored form is parsed again on reading), key patterns, Redis failures, and keys that begin with the cache's own prefix.
- Redis scans, queues, OTP storage and the per-domain cache helpers: single commands with no property across them.
