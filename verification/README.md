# Verified models of the mesh pipeline's state laws

These Dafny modules model the parts of the mesh-pipeline repository that carry a law: the test sharder,
account sign-in, billing webhooks and the credit ledger, artifact delivery, the Fluent mesh repair, the
tenant backfill, the no-consumer alert, the patch contract, corpus keys, the terminal outbox and the
fitness table. Each models what the code does, branch by branch, and proves what the code is for.
`dafny verify dfyconfig.toml` checks everything.

Where the code changes things step by step the model does too: a loop is a method with invariants, an
object is a class, and each is proved against a function whose laws are lemmas. Protocols between several
processes (sign-ins, delivery against a cancel, overlapping outbox sweeps) are state machines whose steps
are the statements that can interleave.

| file | what it models |
|---|---|
| `Sharding.dfy`, `LptBound.dfy`, `LptRatio.dfy`, `ShardSeconds.dfy` | the greedy longest-first sharder, Graham's bound for it, and both in recorded seconds |
| `Accounts.dfy`, `FirstSignIn.dfy`, `SignIns.dfy`, `Mailbox.dfy`, `SignupClaims.dfy` | sign-ins and erasures interleaved at every statement, who gets in, signup grants, mailbox normalisation, the two digest rules |
| `Credits.dfy`, `Billing.dfy`, `Payments.dfy`, `Convergence.dfy` | the credit ledger, webhook handlers, what each event pays, exactly-once effect and convergence of the balance |
| `Artifacts.dfy`, `Delivery.dfy`, `Passes.dfy`, `Takeovers.dfy` | the upload loop's accounting; several workers, a retry loop, a fence and a cancel; the pass that nothing disturbs; the generations of claims |
| `Leftovers.dfy`, `Fetching.dfy` | over every run of those workers: what is left without row and record, and which rows can be fetched |
| `Newell.dfy`, `Orientation.dfy`, `Numbering.dfy`, `MeshRepair.dfy`, `Winding.dfy`, `ZoneRules.dfy` | winding normals, zone types and ids, the whole repair and a second one; outward in coordinates; the rules spelled out |
| `Backfill.dfy` | the tenant backfill as inserts and updates over tables with unique indexes |
| `QueueMarks.dfy` | the per-queue mark against the history it stands for |
| `PatchContract.dfy` | the canonical form of a patch set and its acceptance |
| `CorpusKeys.dfy` | key prefixes for several corpus roots and the input map |
| `Outbox.dfy` | the transactional outbox under overlapping, crashing sweeps |
| `FitnessTable.dfy`, `FitnessRows.dfy`, `ShapeId.dfy` | conservation of evidence in the engine-fitness table; which results it shows; the shape a case id names |
| `Sorting.dfy`, `Text.dfy`, `Wrappers.dfy` | stable sorting, ASCII text, option and result types |

Promises that the code does not keep in every case, each with an input that breaks it and the exact condition
under which it is kept:

- A sign-in whose own duplicate has replaced the unproven uid of its row first is refused
  (`SignIns.SecondReplacementIsRefused`), while one beaten to the insert or to the attach gets in
  (`SignIns.LoserGetsIn`); from each statement the exact condition is `SignIns.UndisturbedSignIn`'s.
- Shards can be empty although there are at least as many files as shards, when enough files weigh nothing
  (`Sharding.NoShardIsEmpty`, `Sharding.GuardMissesWeightlessFiles`).
- Dropping webhook repeats by event id leaves the same state exactly when no repeat is applied
  (`Billing.RepeatsChangeNothingIff`), which is assured when each organisation is named with one customer
  (`Billing.RepeatsChangeNothing`) and fails when one is named with two (`Billing.RefusedDeliveryCanLandLater`);
  and the balance depends on the order of delivery when an invoice that names no tier races a change of the
  row's tier (`Convergence.BalanceConvergesIff`, `Convergence.OrdersThatDiffer`).
- Mailbox normalisation is not idempotent on an address that hides a space behind a dot
  (`Mailbox.NormalizedTwice`, `Mailbox.NormalizedAgainMoves`).
- A second mesh repair renumbers zones when `--map` retypes one as `interior` ahead of a zone that stays a
  boundary (`Numbering.SecondNumberingIff`, `Numbering.SecondNumberingCanMove`), and turns a zone again when
  neither its outward nor its inward faces are half of those judged (`MeshRepair.RepairIsIdempotentIff`,
  `MeshRepair.TwoSidedZoneNeverSettles`).
- An attempt at artifact delivery works on the object an earlier attempt's row points to, so a failed,
  conflicting or stale one can leave that row without its object (`Fetching.RowLosesItsObject`,
  `Fetching.AlwaysFetchIff`).
- The end of a pass can leave objects in the store to which it gives neither a row nor a record: an abort, a failed
  commit or a crash what had landed or stayed before it (`Leftovers.ThreePassesForget`,
  `Leftovers.FailedPassForgetsNothingIff`), a refusal what could not be deleted
  (`Delivery.RefusalForgetsOrphans`, `Leftovers.RefusalForgetsNothingIff`); what a run leaves is exactly what
  its steps forget (`Leftovers.LeftIsForgotten`), and all else in the store is answered for
  (`Leftovers.StoreIsAnsweredFor`).
- A worker can give up, and the job be reported as not delivered, with its rows visible
  (`Delivery.GivingUpCanLeaveRows`, `Delivery.WriterFinishedIff`).
- Of the five delivery outcomes the code names, two can never occur (`Artifacts.OnlyThreeOutcomes`).
- Each day the alert's mark expires and an ongoing outage goes quiet for the grace period
  (`QueueMarks.OutageGoesQuiet`, `QueueMarks.AlertIsStreakIff`, `QueueMarks.AlertPausesWhenTheMarkExpires`).
- A patch contract built as not required but with patches refuses its own patches
  (`PatchContract.AcceptsMatchesIff`).

## Model

| member | source | states |
|---|---|---|
| Sharding.WeightsNonnegative | devtools/quality/shard_tests.py:62-68 | every file's weight, measured or estimated from its size, is non-negative when the measurements are |
| Sharding.FirstLightest | devtools/quality/shard_tests.py:84 | the loop finds the first bin of least load |
| Sharding.Deal | devtools/quality/shard_tests.py:81-86 | the loop over files fills the bins and loads exactly as the greedy placement says |
| Sharding.Partition | devtools/quality/shard_tests.py:71-87 | fewer than one shard is refused; otherwise the result is the sorted greedy bins, which `ShardSeconds.SecondsGuarantee` measures in recorded seconds |
| Sharding.ChooseShard | devtools/quality/shard_tests.py:129-148 | the guards in front of the partition and the shard that is run |
| Sharding.GreedyIsGreedy | devtools/quality/shard_tests.py:83-86 | each file goes to a bin no other bin is lighter than when it arrives |
| Sharding.ShardsKeepEveryFile | devtools/quality/shard_tests.py:71-87 | the shards together hold each file as often as the input does |
| Sharding.ShardsDisjoint | devtools/quality/shard_tests.py:71-87 | of distinct files none is in two shards or twice in one |
| Sharding.ShardsIgnoreOrder | devtools/quality/shard_tests.py:75-80 | the shards do not depend on the order in which the files are listed |
| Sharding.ShardLoads | devtools/quality/shard_tests.py:82-86 | a shard's cost is the load the loop recorded for its bin |
| LptBound.ListBound | devtools/quality/shard_tests.py:83-86 | without any sort: m times the greedy peak is at most 2m-1 times the peak of any other assignment |
| LptBound.OptimumSlots | devtools/quality/shard_tests.py:80-86 | files each heavier than a third of the optimum leave it room for at most two to a bin, one beside a file that fits with no other |
| LptBound.GreedySlots | devtools/quality/shard_tests.py:80-86 | if greedy exceeds the optimum the bins in front of the last file already use up more slots than the optimum has |
| LptBound.GrahamBound | devtools/quality/shard_tests.py:80-86 | files in descending order: 3m times the greedy peak is at most 4m-1 times the peak of any assignment |
| LptBound.GrahamBoundIsReached | devtools/quality/shard_tests.py:80-86 | for every number m of bins there are weights on which some assignment loads each bin 3m and greedy loads one 4m-1 |
| LptRatio.BoundsAreRatios | devtools/quality/shard_tests.py:71-87 | the two bounds, stated as sums of copies, are exactly those ratios |
| LptRatio.NoSmallerFactor | devtools/quality/shard_tests.py:80-86 | so for every number of bins no factor below 4/3 - 1/(3m) holds |
| Sharding.LptGuarantee | devtools/quality/shard_tests.py:71-87 | the slowest shard of the partition is within 4/3 - 1/(3m) of that of any way to split the same files |
| Sharding.ShardsBalanced | devtools/quality/shard_tests.py:83-86 | two shards differ in cost by at most the heaviest file |
| Sharding.NoShardIsEmpty | devtools/quality/shard_tests.py:140-145 | no shard is empty if and only if there are at least as many files as shards and at most one fewer of positive weight |
| Sharding.GuardMissesWeightlessFiles | devtools/quality/shard_tests.py:140-145 | an input that passes the guard in front of the partition and leaves a shard empty |
| ShardSeconds.UnmeasuredWeighSizes | devtools/quality/shard_tests.py:62-68 | an unmeasured file weighs its size at the measured files' seconds per byte, and its size when nothing is measured |
| ShardSeconds.SecondsGuarantee | devtools/quality/shard_tests.py:62-86 | with every file measured the longest shard, in recorded seconds, is within 4/3 - 1/(3m) of every assignment's |
| ShardSeconds.SecondsBalanced | devtools/quality/shard_tests.py:62-86 | with every file measured two shards differ by at most the longest file's recorded seconds |
| ShardSeconds.EqualFilesByName | devtools/quality/shard_tests.py:75-80 | files of equal weight are dealt in the order of their names |
| Accounts.NextKeeps | src/meshpipeline/application/account_service.py:67-230 | every statement of every request, an abort and an erasure keep the protocol's invariant; which requests get in is `SignIns.UndisturbedSignIn` |
| Accounts.RunKeeps | src/meshpipeline/application/account_service.py:67-230 | the invariant holds in every state of every run |
| Accounts.OneOfEach | src/meshpipeline/application/account_service.py:67-143 | however sign-ins of one address interleave, each committed state has at most one user, membership, organisation and signup grant for it |
| Accounts.SameAddressSameRow | src/meshpipeline/application/account_service.py:67-232 | in every committed state rows of one address or one uid are one row, memberships of one row one membership, and organisations under one uid's slug one organisation |
| Accounts.SlugIsFree | src/meshpipeline/application/account_service.py:199-246 | a request that holds its users row never finds the organisation's slug taken |
| Accounts.OrganisationsNeedVerification | src/meshpipeline/application/account_service.py:120-143 | an organisation appears only in the commit of a verified token's request |
| Accounts.UidChangesNeedProof | src/meshpipeline/application/account_service.py:146-196 | an existing row changes uid only for a verified token of its own address, and only while unlinked or unproven |
| Accounts.LinkedUidIsFinal | src/meshpipeline/application/account_service.py:146-196 | once a row has a uid and an organisation its uid never changes |
| Accounts.VerifiedStays | src/meshpipeline/persistence/repositories/user_repository.py:74-101 | a proven address is never unproven again |
| Accounts.EraseKeeps | src/meshpipeline/application/privacy_service.py:224-240 | removing an organisation's members and rewriting its slug keeps the invariant |
| FirstSignIn.FirstSignInProvisions | src/meshpipeline/application/account_service.py:67-143 | from empty tables a verified sign-in can run through every statement to one row, one organisation, one membership and the grant |
| SignIns.UndisturbedSignIn | src/meshpipeline/application/account_service.py:67-193 | from any statement at which the user is not resolved a request that runs undisturbed is never stuck, ends within eighteen statements, and commits if and only if the tables accept it; the tables it leaves are stated in full |
| SignIns.RunsToItsEnd | src/meshpipeline/application/account_service.py:67-143 | every undisturbed run goes on to its end |
| SignIns.SignInCommitsIff | src/meshpipeline/application/account_service.py:73-118 | a sign-in commits if and only if its uid is on a row, or its address is unknown and signups are on, or its token is verified and the row is unlinked, or unproven and without an organisation |
| SignIns.KnownRowGetsIn | src/meshpipeline/application/account_service.py:146-196 | a returning user, a backfilled row and a squatted one get in: the row then has the uid, its address is proven if it ever was, and no other row changes |
| SignIns.LoserGetsIn | src/meshpipeline/application/account_service.py:101-118 | a request whose insert or attach was beaten by its own duplicate commits |
| SignIns.SecondReplacementIsRefused | src/meshpipeline/application/account_service.py:166-179 | one whose duplicate replaced the unproven uid first is refused, although the row has its uid |
| SignIns.ErasureTakes | src/meshpipeline/application/privacy_service.py:224-240 | an erasure takes the organisation's members and their memberships and nothing else |
| SignIns.ErasedMemberReturns | src/meshpipeline/application/account_service.py:128-137 | an erased member who signs in again gets a new row and organisation and is not paid again |
| Accounts.PayingStep | src/meshpipeline/application/credit_service.py:94-130 | a step pays the configured amount to a new organisation against a claim that was free, or leaves grants alone |
| Accounts.OneGrantPerMailbox | src/meshpipeline/application/credit_service.py:117-123 | over any sign-ins, erasures and re-sign-ups two payments go to different digests |
| Accounts.PayoutBounded | src/meshpipeline/application/credit_service.py:94-130 | what a run pays is at most the configured amount for each digest it newly claims |
| Accounts.SeedExistingGrants | alembic/versions/0019_signup_claims_and_erasure.py:64-78 | the loop claims the mailbox of every address whose organisation holds a signup grant |
| Accounts.SeedingReaches | alembic/versions/0019_signup_claims_and_erasure.py:64-79 | the seeding claims the digest of each address whose organisation holds a grant, and no other |
| Accounts.SeedingIsIdempotent | alembic/versions/0019_signup_claims_and_erasure.py:64-78 | seeding twice is seeding once |
| SignupClaims.DigestsAgree | alembic/versions/0019_signup_claims_and_erasure.py:45-61 | the migration's frozen copy of the mailbox and digest rule and the application's give one digest for every address |
| SignupClaims.SeededMailboxesAreNotPaidAgain | alembic/versions/0019_signup_claims_and_erasure.py:64-78 | no run after the migration pays a mailbox an earlier grant reached, under any spelling of its address |
| SignupClaims.PaidMailboxesDiffer | src/meshpipeline/application/signup_claims.py:22-47 | two payments of one run go to addresses of different mailboxes |
| SignupClaims.PayoutBoundedByMailboxes | src/meshpipeline/application/credit_service.py:94-130 | and at most the configured amount for each distinct mailbox among the addresses that signed in |
| Mailbox.NormalizedTwice | src/meshpipeline/application/signup_claims.py:22-38 | normalisation is idempotent if and only if no space hides behind the dots of a dot-insensitive mailbox |
| Mailbox.NormalizedAgainMoves | src/meshpipeline/application/signup_claims.py:22-38 | an address, `. a@gmail.com`, whose mailbox normalises to another one |
| Mailbox.NormalizedTwiceWithoutSpaces | alembic/versions/0019_signup_claims_and_erasure.py:53-61 | normalisation is idempotent on every address without whitespace |
| Mailbox.TagIsDropped | src/meshpipeline/application/signup_claims.py:22-38 | a tag after `+` names the same mailbox |
| Mailbox.DotIsDropped | src/meshpipeline/application/signup_claims.py:22-38 | at either name of the provider that ignores dots, a dot anywhere in the local part makes no difference |
| Mailbox.RestIsKept | src/meshpipeline/application/signup_claims.py:22-38 | there everything but dots, tags and case is kept, under the one name `gmail.com` |
| Mailbox.DotsAreKeptElsewhere | src/meshpipeline/application/signup_claims.py:22-38 | at any other provider dots and domain are kept |
| Mailbox.NoLocalPartStays | src/meshpipeline/application/signup_claims.py:22-38 | an address without a local part is only trimmed and lowercased |
| Credits.Ledger.Grant | src/meshpipeline/application/credit_service.py:26-48 | refuses a negative amount or a reused entry id with other facts, ignores zero and an exact replay, else appends one entry |
| Credits.Ledger.Debit | src/meshpipeline/application/credit_service.py:51-66 | refuses a negative amount or an overage outside it, ignores zero, else lowers the balance by the amount |
| Credits.Ledger.Refund | src/meshpipeline/application/credit_service.py:69-81 | refuses a negative amount, ignores zero, else raises the balance by the amount |
| Credits.RefundUndoesDebit | src/meshpipeline/application/credit_service.py:51-81 | a debit and a refund of the same amount restore every balance and keep both entries |
| Billing.BillingService.HandleEvent | src/meshpipeline/application/billing_service.py:207-234 | claims the event id and applies the effect in one transaction, or does neither |
| Billing.BillingService.ApplyCheckout | src/meshpipeline/application/billing_service.py:237-260 | a paid checkout attaches its customer and grants its pack; an unpaid one does nothing |
| Billing.BillingService.ApplySubscription | src/meshpipeline/application/billing_service.py:263-289 | sets the tier a subscription names, keeps it if it names none, clears it on deletion |
| Billing.BillingService.ApplyInvoicePaid | src/meshpipeline/application/billing_service.py:330-371 | grants the allowance of the row's tier, or of the invoice's if the row has none, for a subscription period only, of the reasons and amounts that `Payments.InvoicePaysIff` names |
| Billing.RepeatsChangeNothingIff | src/meshpipeline/application/billing_service.py:207-234 | dropping repeated event ids leaves the same rows, ledger and claimed ids if and only if no repeat is applied |
| Billing.RepeatsChangeNothing | src/meshpipeline/application/billing_service.py:212-260 | so it does whenever the batch names one customer for each organisation, whatever is refused in between |
| Billing.RepeatsOfLandedChangeNothing | src/meshpipeline/application/billing_service.py:212-223 | and whenever every first delivery lands |
| Billing.NoIdAppliesTwice | src/meshpipeline/application/billing_service.py:212-223 | whatever fails in between, no event id is applied twice |
| Billing.LandsIff | src/meshpipeline/application/billing_service.py:237-260 | a delivery fails if and only if it is an unclaimed paid checkout that names a customer another organisation holds, or buys credits for an organisation without a row; it then changes nothing, and one that lands moves only its own organisation's customer |
| Billing.RefusedDeliveryCanLandLater | src/meshpipeline/application/billing_service.py:217-256 | a batch that names two customers for one organisation, in which a refused checkout lands when it is repeated and dropping the repeat loses it |
| Payments.InvoicePaysIff | src/meshpipeline/application/billing_service.py:298-371 | an unclaimed invoice adds the tier's allowance of 1000, 10000 or 100000, noted as such, if and only if its trimmed reason is `subscription_create` or `subscription_cycle`, and touches nothing else |
| Payments.InvoicesAddUp | src/meshpipeline/application/billing_service.py:330-371 | of any invoices under distinct ids each one that opens a period adds one allowance |
| Payments.RenewalsAddUp | src/meshpipeline/application/billing_service.py:298-306 | one creation and n renewals add n + 1 allowances |
| Payments.MidCycleAddsNothing | src/meshpipeline/application/billing_service.py:302-306 | an update, a usage threshold or an invoice raised by hand adds nothing |
| Payments.UntieredInvoicePays | src/meshpipeline/application/billing_service.py:361-371 | for a row without a tier the invoice pays the tier that its own metadata names, current spelling first |
| Payments.CheckoutPays | src/meshpipeline/application/billing_service.py:237-260 | a paid checkout, or one with nothing to pay, attaches its customer and adds the credits of its one-off pack; any other only claims its id |
| Payments.SubscriptionSetsTier | src/meshpipeline/application/billing_service.py:403-427 | a subscription stands for the tier of the first licensed item sold at a tier's price, else of its metadata, else the row's |
| Payments.DeletionClearsTier | src/meshpipeline/application/billing_service.py:269-277 | a deleted subscription clears the tier and keeps the customer |
| Payments.NobodyIsGuessed | src/meshpipeline/application/billing_service.py:442-457 | an event that names no organisation or customer is only recorded |
| Convergence.BalanceIsSum | src/meshpipeline/application/billing_service.py:237-371 | where no untiered invoice races the tier, any delivery sequence adds one worth for each distinct invoice and pack |
| Convergence.BalanceConvergesIff | src/meshpipeline/application/billing_service.py:362-371 | the balance is the same for every order and repetition if and only if no invoice that names no tier races a change of the row's tier |
| Convergence.OrdersThatDiffer | src/meshpipeline/application/billing_service.py:362-371 | otherwise two orders that end in different balances |
| Convergence.BalanceWhenInvoicesNameTheTier | src/meshpipeline/application/billing_service.py:330-371 | included credits for each distinct period invoice plus each distinct paid pack, with deletions mixed in |
| Convergence.LedgerIsWriteOnly | src/meshpipeline/application/billing_service.py:207-371 | the ledger never influences what an event does |
| Artifacts.Registered | src/meshpipeline/persistence/repositories/artifact_repository.py:35-83 | unless it conflicts the artifact is ready at the caller's attempt or a newer one; a conflict is the same attempt with other content; no row goes backward |
| Artifacts.OnlyThreeOutcomes | src/meshpipeline/persistence/repositories/artifact_repository.py:61-83 | of the five outcomes only created, superseded and conflict can be returned |
| Artifacts.Uploader.ReconcileOrDelete | src/meshpipeline/application/artifact_uploader.py:596-605 | an object is deleted or listed as an orphan |
| Artifacts.Uploader.UploadItem | src/meshpipeline/application/artifact_uploader.py:504-586 | one pass of the loop: source, upload, integrity, row, conflict, and what each failure does |
| Artifacts.Uploader.UploadJobArtifacts | src/meshpipeline/application/artifact_uploader.py:476-593 | the whole loop, refusing a plan that requires nothing |
| Artifacts.UploadAccounts | src/meshpipeline/application/artifact_uploader.py:504-605 | on normal return each planned item is in exactly one of delivered and optional failures, no required one in the latter, every stored object registered, deleted or an orphan, and no row moved backward |
| Artifacts.EarlierRowStaysFetchableIff | src/meshpipeline/application/artifact_uploader.py:504-586 | one item put under the key of an earlier row leaves that row fetchable if and only if it lands over it, or stores the same content and does not discard it |
| Artifacts.ItemOutcome | src/meshpipeline/application/artifact_uploader.py:504-586 | read off the weather of an item and the guard of its row write: whether it aborts the call, what it names, and which list its object joins |
| Delivery.StepKeeps | src/meshpipeline/application/artifact_uploader.py:631-712 | every step of every worker, a cancel and a takeover keep the lock, token, pending-row and report invariants; the generations of claims are `Takeovers.ClaimsAreGranted` |
| Delivery.RunKeeps | src/meshpipeline/application/artifact_uploader.py:631-712 | those invariants hold over every run |
| Delivery.RowsChangeUnderTheClaim | src/meshpipeline/application/execution_fence.py:70-97 | visible rows change only in a commit by a worker the job row still names, of a job that has not ended |
| Delivery.EndedStaysAsItIs | src/meshpipeline/application/job_cancel.py:55-86 | after a cancel has committed no artifact row appears, changes or disappears |
| Delivery.OustedNeverFinishes | src/meshpipeline/persistence/lease.py:96-250 | a worker that lost its claim never finishes a delivery and never gets the claim back |
| Delivery.RefusalRecordsWhatWasStored | src/meshpipeline/application/artifact_uploader.py:664-702 | in every state of every run a refused worker has a record of every object it registered, no open transaction and no visible row of the refused pass; a finished one has a record of its orphans |
| Delivery.RefusalRecordsOrphansIff | src/meshpipeline/application/artifact_uploader.py:696-702 | a refusal leaves every orphan of the attempt recorded if and only if each is recorded already or among the registered objects |
| Delivery.RefusalForgetsOrphans | src/meshpipeline/application/artifact_uploader.py:679-702 | a run in which a cancel comes before the fence and an object stays in the store without row or record, though a delivery that lands records it |
| Delivery.WriterFinishedIff | src/meshpipeline/application/artifact_uploader.py:673-712 | every row that appeared was written by one commit of the run, and its writer finished in that pass if and only if no exception followed the commit |
| Delivery.OnlyFinishedWorkersLeaveRows | src/meshpipeline/application/artifact_uploader.py:620-712 | so unless an exception follows a commit, every row that appeared was written by a worker that finished |
| Delivery.GivingUpCanLeaveRows | src/meshpipeline/application/artifact_uploader.py:673-712 | a run in which exceptions after the commits make a worker give up with its row visible |
| Delivery.GivingUpForgetsWhatWasStored | src/meshpipeline/application/artifact_uploader.py:703-712 | a run in which failing commits make a worker give up with its object in the store, without row or record |
| Delivery.FinishedIsReady | src/meshpipeline/application/artifact_uploader.py:680-695 | after a finished delivery the row of every required item is visible from then on, and the check for a missing one cannot fire |
| Delivery.RowsOnlyAdvance | src/meshpipeline/persistence/repositories/artifact_repository.py:43-60 | over any run of any executions a row never returns to an older generation or attempt |
| Delivery.ThreeAttempts | src/meshpipeline/application/artifact_uploader.py:620-713 | no worker goes round the retry loop more than three times |
| Takeovers.ClaimsAreGranted | src/meshpipeline/persistence/lease.py:108-131 | over every run a claim is granted exactly when the job can be claimed; another execution gets a generation above every claim and row of the run, the same execution keeps its own |
| Takeovers.TakeoverLands | src/meshpipeline/persistence/repositories/artifact_repository.py:51-83 | an intact item of the worker that took over is neither superseded by nor in conflict with a predecessor's row |
| Takeovers.TakeoverOwnsItsRows | src/meshpipeline/persistence/lease.py:122-131 | once it has finished, the visible rows of what it stored, and so of its required items, are its own |
| Passes.FinishingPass | src/meshpipeline/application/artifact_uploader.py:631-713 | an undisturbed pass over which the upload loop goes through ends finished, with exactly the rows, objects and records of that loop |
| Passes.FailingPass | src/meshpipeline/application/artifact_uploader.py:631-713 | when the loop raises, the pass changes no row, records the orphans the exception names and leaves the worker to try again, up to its third time |
| Passes.PassFinishesIff | src/meshpipeline/application/artifact_uploader.py:476-590 | an undisturbed pass finishes if and only if its plan promises something and every required item's upload arrives intact, can be written and meets no clash |
| Passes.GoodWeatherDelivers | src/meshpipeline/application/artifact_uploader.py:476-590 | when all of that holds of every item, each item's visible row is the one it uploaded, unless a newer one is there |
| Passes.CancelStopsEverybody | src/meshpipeline/application/execution_fence.py:70-97 | after a cancel that finds the row unlocked no row of a reachable job changes and no worker that had not finished does |
| Leftovers.LogsFollow | src/meshpipeline/application/artifact_uploader.py:504-593 | in every state of every run the report of an open pass names exactly the objects that its items, by their weathers, put into the store and left there |
| Leftovers.FailedPassForgetsNothingIff | src/meshpipeline/application/artifact_uploader.py:703-712 | a pass that an item aborts, whose commit fails or whose worker dies leaves no object that it gave no record if and only if each of its items that landed or could not be deleted put there an object that was recorded before or that the exception names |
| Leftovers.FirstFailureForgetsNothingIff | src/meshpipeline/application/artifact_uploader.py:703-712 | before anything has a record that is if and only if no item before the failure landed or stayed |
| Leftovers.FailedCommitForgets | src/meshpipeline/application/artifact_uploader.py:675-712 | a failed commit always has something landed, so it forgets nothing only if earlier passes recorded the same objects |
| Leftovers.RefusalForgetsNothingIff | src/meshpipeline/application/artifact_uploader.py:696-702 | of a plan with distinct keys a refusal leaves every orphan recorded if and only if each had a record before; before any record, if and only if there is no orphan |
| Leftovers.LeftByIs | src/meshpipeline/application/artifact_uploader.py:664-712 | what the end of a pass leaves, with neither a row nor a record from it, is what the plan, the weathers and the earlier records say |
| Leftovers.LeftIsForgotten | src/meshpipeline/application/artifact_uploader.py:620-712 | over every run a worker left an object behind if and only if one of its steps forgot it |
| Leftovers.AllRecordedIff | src/meshpipeline/application/artifact_uploader.py:620-712 | a worker, in particular one that gave up, has a record of all it left if and only if what each of its steps forgot has been recorded since |
| Leftovers.ThreePassesForget | src/meshpipeline/application/artifact_uploader.py:703-712 | the run of three failed commits breaks the condition at its first, and what it left has no record at the end |
| Leftovers.RegistrationsHaveRows | src/meshpipeline/persistence/repositories/artifact_repository.py:35-60 | what a commit registered has a row from then on, at its currency or a newer one |
| Leftovers.StoreIsAnsweredFor | src/meshpipeline/application/artifact_uploader.py:93-103 | in every reachable state each object in the store was there at the start, has a record, was registered, is in the report of an open pass, or was left behind |
| Fetching.StepFetchesIff | src/meshpipeline/application/artifact_uploader.py:504-586 | where all visible and pending rows can be fetched, they still can after a step if and only if it neither puts other content under the key of one nor discards what it put there |
| Fetching.AlwaysFetchIff | src/meshpipeline/application/artifact_uploader.py:504-712 | over every run of any executions all rows of all states can be fetched if and only if no step does such harm |
| Fetching.SameContentFetches | src/meshpipeline/application/artifact_uploader.py:504-712 | so they can where a key stands for one content and nothing put over the key of a row is discarded |
| Fetching.RowLosesItsObject | src/meshpipeline/application/artifact_uploader.py:530-545 | a run after which a visible row has lost its object: a pass that lands and raises, then a damaged upload that is deleted |
| Newell.WindingNormal | devtools/validation/fluent_repair.py:182-188 | the loop computes the cyclic edge sum |
| Newell.NormalIsAreaVector | devtools/validation/fluent_repair.py:182-188 | that sum is the area vector: the cross products of consecutive corners |
| Newell.NormalTurns | devtools/validation/fluent_repair.py:182-188 | reversing a polygon of any length negates its normal |
| Newell.CentroidTurns | devtools/validation/fluent_repair.py:179-181 | and leaves its centroid |
| Orientation.GatherGeometry | devtools/validation/fluent_repair.py:109-163 | the pass accumulates each wanted cell's face centroids |
| Orientation.ZoneOrientation | devtools/validation/fluent_repair.py:166-195 | the loop counts judged and outward faces, outward being what `Winding.FlatVote` says in coordinates |
| Orientation.VoteTurns | devtools/validation/fluent_repair.py:189-194 | reversing a face keeps whether it is judged and turns a decisive verdict round |
| Orientation.CountsTurn | devtools/validation/fluent_repair.py:166-195 | reversing a zone turns its outward count into its inward count |
| Orientation.TurnedZoneIsUpright | devtools/validation/fluent_repair.py:240-244 | a zone whose faces are all decisive is not inverted again once reversed |
| Orientation.InvertedBothWaysIff | devtools/validation/fluent_repair.py:166-195 | a zone is inverted both as it is and reversed if and only if neither its outward nor its inward faces are half of those judged |
| Orientation.InnerFacesNeverSettle | devtools/validation/fluent_repair.py:189-195 | a zone of faces between two cells is inverted both ways round |
| Orientation.CellsStay | devtools/validation/fluent_repair.py:155-162 | turning faces moves no cell centre |
| Numbering.NumberingIsBijective | devtools/validation/fluent_repair.py:219-224 | boundary zones get 10, 11, ... once each and other zones keep their ids |
| Numbering.NumbersFollowRoles | devtools/validation/fluent_repair.py:222-224 | a smaller new id means an earlier role, or the same role and a name no later |
| Numbering.IdsStayUniqueIff | devtools/validation/fluent_repair.py:219-224 | all ids are distinct afterwards if and only if no fluid or interior zone holds an id handed out |
| Numbering.NumberingForgetsIds | devtools/validation/fluent_repair.py:219-224 | with distinct role and name the numbering depends on names and types only |
| Numbering.SecondNumberingIff | devtools/validation/fluent_repair.py:203-224 | a second run leaves the zone lines alone if and only if zones retyped interior come last |
| Numbering.InteriorAheadMoves | devtools/validation/fluent_repair.py:203-224 | any zone retyped interior ahead of one that is not makes the second run move ids |
| Numbering.SecondNumberingCanMove | devtools/validation/fluent_repair.py:317-321 | a mesh and an accepted override for which it does |
| MeshRepair.TakeSamples | devtools/validation/fluent_repair.py:84-105 | the faces sampled are those at every step-th index of a section that is not interior |
| MeshRepair.FindFlips | devtools/validation/fluent_repair.py:226-245 | the zones to reverse are those whose judged faces are mostly not outward |
| MeshRepair.Repair | devtools/validation/fluent_repair.py:198-307 | types, ids, codes and windings are rewritten as specified, whether ids are repeated or not; what becomes of a zone wound outward or inward is `Winding.WellWoundZonesStay` and `Winding.InsideOutZonesTurn` |
| MeshRepair.RepeatedLinesFollowTheLast | devtools/validation/fluent_repair.py:70-73 | lines that share an id all get the number and type of the last of them, and keep their names |
| MeshRepair.ExportedIsClean | devtools/validation/fluent_repair.py:3-13 | a mesh as the exporter writes it, with fluid and interior ids below those handed out and no boundary section coded interior, is clean |
| MeshRepair.SecondFlipIff | devtools/validation/fluent_repair.py:230-300 | of a clean mesh, a second repair reverses a zone again if and only if neither the outward nor the inward faces of its sample are half of those judged |
| MeshRepair.RepairIsIdempotentIff | devtools/validation/fluent_repair.py:198-307 | repairing a repaired clean mesh writes the same mesh if and only if zones retyped interior come last and no section of a zone that never settles shows its reversal |
| MeshRepair.CollidingIdsMove | devtools/validation/fluent_repair.py:70-73 | a mesh that is not clean, its fluid zone holding an id handed out, whose second repair makes the fluid a wall |
| MeshRepair.TwoSidedZoneNeverSettles | devtools/validation/fluent_repair.py:189-195 | a mesh that no repair leaves as it was: one face between two cells |
| MeshRepair.DecisiveZonesSettle | devtools/validation/fluent_repair.py:189-195 | zones whose sampled faces have one open side and are not edge-on settle |
| Winding.FlatVote | devtools/validation/fluent_repair.py:180-194 | a flat face counts as outward if and only if its cell lies strictly behind it, if that is `c0`, or strictly in front of it, if that is `c1` |
| Winding.TriangleVote | devtools/validation/fluent_repair.py:180-194 | for a triangle the side is the sign of the explicit triple product of its corners and the middle of the cell |
| Winding.WellWoundZonesStay | devtools/validation/fluent_repair.py:226-245 | a zone whose sampled faces look away from their cells keeps its faces |
| Winding.InsideOutZonesTurn | devtools/validation/fluent_repair.py:240-300 | a zone whose sampled faces look into their cells comes back with every face walked the other way round |
| Winding.OutwardTetrahedronStays | devtools/validation/fluent_repair.py:189-194 | a tetrahedron wound outward is left as it is |
| Winding.InwardTetrahedronTurns | devtools/validation/fluent_repair.py:189-194 | the same one wound inward becomes the outward one |
| ZoneRules.ZoneLineIs | devtools/validation/fluent_repair.py:34-57 | a line of cells or inner faces stays; any other keeps its name, is numbered from ten on and gets the type of the command line, else the one its name says, else its own |
| ZoneRules.SectionCodeIs | devtools/validation/fluent_repair.py:267-282 | a boundary section carries its zone's new number and the format's code of its new type |
| ZoneRules.NumbersFollowRanks | devtools/validation/fluent_repair.py:222-224 | of two boundary zones the one whose type comes first in the list of roles, then the one whose name does, has the smaller number |
| ZoneRules.SampleSize | devtools/validation/fluent_repair.py:85-87 | of a section with at least as many faces as samples asked for, at least that many and less than twice as many are taken; of a smaller one all are |
| Backfill.InsertOrgRows | alembic/versions/0004_tenant_columns.py:105-111 | rows go in one at a time against the unique slug, and a violation aborts |
| Backfill.Database.Stamp | alembic/versions/0004_tenant_columns.py:129-144 | the update of one table |
| Backfill.Database.Run | alembic/versions/0004_tenant_columns.py:61-144 | the inserts and the eight updates in their order |
| Backfill.OrgsLandIff | alembic/versions/0004_tenant_columns.py:105-111 | the insert lands if and only if the slugs are distinct and new |
| Backfill.CaseVariantsAbort | alembic/versions/0004_tenant_columns.py:81-88 | owners that differ only in case abort the statement unless the union lowercases them |
| Backfill.BackfillLands | alembic/versions/0004_tenant_columns.py:61-144 | in any order of the owners no insert breaks an index, exactly the missing users and organisations are added, and nothing is left to do |
| Backfill.BackfillIsIdempotent | alembic/versions/0004_tenant_columns.py:89-90 | a run over a complete database changes nothing |
| Backfill.EachRow | alembic/versions/0004_tenant_columns.py:127-144 | existing stamps are untouched; an owned row without one gets its lowercased owner's organisation |
| Backfill.SameOrganizationIff | alembic/versions/0004_tenant_columns.py:71-79 | two stamped rows share an organisation if and only if their owners differ at most in case |
| Backfill.KeyOnlyOwnerIsStamped | alembic/versions/0004_tenant_columns.py:35-43 | an owner known only by an API key gets an organisation and a stamp |
| Backfill.EveryTableIsStamped | alembic/versions/0004_tenant_columns.py:35-43 | in each of the eight tables, by name, an owned row without an organisation gets its owner's |
| Backfill.OtherTablesStay | alembic/versions/0004_tenant_columns.py:35-43 | a table of any other name is not touched |
| Backfill.NobodyIsProvisioned | alembic/versions/0004_tenant_columns.py:71-79 | a row with no owner or an empty one stays as it is and no organisation is made for it |
| Backfill.MadeForOwners | alembic/versions/0004_tenant_columns.py:61-125 | each organisation that is added is named for an owner, and each membership joins an owner's user to that owner's organisation |
| QueueMarks.Publisher.StrandedQueues | deploy/gcp/worker/queue_depth_publisher.py:328-350 | the loop keeps or clears each queue's mark and reports the old ones |
| QueueMarks.QueuesAreIndependent | deploy/gcp/worker/queue_depth_publisher.py:333-350 | a queue's mark is a function of that queue's history alone |
| QueueMarks.MarkIsStreakIff | deploy/gcp/worker/queue_depth_publisher.py:338-340 | the mark is the start of the unbroken streak if and only if the streak is younger than a day |
| QueueMarks.AlertIsRenewal | deploy/gcp/worker/queue_depth_publisher.py:328-350 | for a streak of any length a run reports the queue if and only if the last renewal, told from the observation times, is at least the grace period ago |
| QueueMarks.AlertIsStreakIff | deploy/gcp/worker/queue_depth_publisher.py:328-350 | the alert is the age of the streak if and only if the streak is younger than a day, its last renewal is itself overdue, or it is not overdue at all |
| QueueMarks.ConsumedIsQuiet | deploy/gcp/worker/queue_depth_publisher.py:335-337 | an empty or consumed queue has no mark and no report |
| QueueMarks.MarkedIff | deploy/gcp/worker/queue_depth_publisher.py:322-340 | a queue has a mark after a run if and only if the run found work in it and counted no consumer, whether it lists none or zero |
| QueueMarks.ReportSays | deploy/gcp/worker/queue_depth_publisher.py:341-345 | a report tells the measured depth and the whole seconds since the mark was last written |
| QueueMarks.AlertPausesWhenTheMarkExpires | deploy/gcp/worker/queue_depth_publisher.py:338-345 | in the day after a renewal a run reports the queue if and only if it comes at least the grace period after it, however long the outage |
| QueueMarks.OutageGoesQuiet | deploy/gcp/worker/queue_depth_publisher.py:338-345 | an outage reported after ten minutes and silent in the run a day after it began |
| PatchContract.NormalizePatches | src/meshpipeline/application/approved_patch_contract.py:18-36 | the loop returns the sorted cleaned patches or the first fault |
| PatchContract.NormalizedIsCanonical | src/meshpipeline/application/approved_patch_contract.py:18-36 | it succeeds exactly on well-formed sets, with sorted, trimmed, uniquely named patches |
| PatchContract.NormalizedForgetsOrder | src/meshpipeline/application/approved_patch_contract.py:36 | neither acceptance nor result depends on the order of the entries |
| PatchContract.CanonicalIsFixed | src/meshpipeline/application/approved_patch_contract.py:62-65 | a canonical set written out and normalised is itself |
| PatchContract.BuiltIsValid | src/meshpipeline/application/approved_patch_contract.py:53-87 | every contract that is built, or read from its stored form, is canonical, fingerprinted as it is, and not empty if required |
| PatchContract.FromToDict | src/meshpipeline/application/approved_patch_contract.py:62-87 | a contract survives its stored form |
| PatchContract.AlteredIsRefused | src/meshpipeline/application/approved_patch_contract.py:80-85 | a stored contract is read only as the one that was fingerprinted |
| PatchContract.AcceptsIff | src/meshpipeline/application/approved_patch_contract.py:95-114 | a required contract accepts exactly the lists whose entries name each approved patch once with its role and nothing else, in any order; one not required accepts no entries |
| PatchContract.AcceptsMatchesIff | src/meshpipeline/application/approved_patch_contract.py:89-102 | acceptance agrees with equality if and only if the contract is required or approves nothing |
| PatchContract.RefusalNamesADifference | src/meshpipeline/application/approved_patch_contract.py:103-114 | a refusal of a well-formed set names a missing, added or role-changed patch |
| PatchContract.RefusalNamesAll | src/meshpipeline/application/approved_patch_contract.py:103-114 | name by name, a refusal lists exactly what is missing, what is added and whose role differs |
| PatchContract.NormalizedReads | src/meshpipeline/application/approved_patch_contract.py:18-36 | a list is accepted exactly when its entries are named dictionaries with different names, and an entry stands for its role if that is not empty, else for its type |
| PatchContract.FirstFault | src/meshpipeline/application/approved_patch_contract.py:23-35 | the fault reported is that of the first faulty entry |
| PatchContract.BuiltIs | src/meshpipeline/application/approved_patch_contract.py:53-60 | a contract is required as asked, or else if it has patches; required and empty is refused |
| PatchContract.ReadBackIff | src/meshpipeline/application/approved_patch_contract.py:68-87 | what is read back is a given contract if and only if version, requirement, patches and fingerprint are its own |
| CorpusKeys.RootLabels | devtools/validation/repair_corpus.py:535-552 | the search returns the least depth that separates the roots, or that none does |
| CorpusKeys.SeparatesIff | devtools/validation/repair_corpus.py:548 | counting distinct labels tells whether they are pairwise distinct |
| CorpusKeys.SearchSucceedsIff | devtools/validation/repair_corpus.py:546-552 | the fallback is unreachable if and only if the roots are distinct |
| CorpusKeys.LongRootsNeverCollide | devtools/validation/repair_corpus.py:535-552 | roots with enough components never share a key |
| CorpusKeys.KeyNamesOneFile | devtools/validation/repair_corpus.py:555-573 | for absolute roots, nested or repeated, one key is one file |
| CorpusKeys.KeySays | devtools/validation/repair_corpus.py:545-549 | a key is the path below the root, after the last components of the root's own when there are several |
| CorpusKeys.HashCorpusInputs | devtools/validation/repair_corpus.py:555-573 | the map names every file under a root with its hash, and the refusal never fires |
| CorpusKeys.MapNamesEveryFile | devtools/validation/repair_corpus.py:555-573 | the finished map holds, for every root and every file under it, the file's hash under the key that names it |
| Outbox.PublishPending | src/meshpipeline/application/outbox_publisher.py:22-42 | published and failed add up to scanned, and only what was sent is marked |
| Outbox.SweepIsTheLoop | src/meshpipeline/application/outbox_publisher.py:22-42 | an undisturbed sweep of the protocol is that loop |
| Outbox.RunKeeps | src/meshpipeline/persistence/repositories/terminal_outbox_repository.py:44-65 | over overlapping and crashing sweeps every emission is a committed mark, an open one or a lost one |
| Outbox.EmittedOncePlusLost | src/meshpipeline/application/outbox_publisher.py:22-42 | a published row was emitted once, and once more for each lost mark; no row oftener |
| Outbox.RowsStay | src/meshpipeline/application/outbox_publisher.py:37-40 | no row is lost and no mark taken back |
| Outbox.PendingCanBePublished | src/meshpipeline/application/outbox_publisher.py:27-41 | a pending row no sweep holds can always be published |
| Outbox.EndingReleases | src/meshpipeline/persistence/repositories/terminal_outbox_repository.py:44-65 | a sweep that crashes frees its rows; one that commits, which it does only once all were tried, publishes those it marked and frees the others |
| Outbox.ConsumerSeesOnce | src/meshpipeline/persistence/repositories/terminal_outbox_repository.py:17-18 | deduplicated by key the stream holds each event at most once, and a published row's exactly once |
| ShapeId.FormatCopyIsSameShape | devtools/fitness/build_engine_fitness.py:107-118 | a case id with any file-format ending is the same shape as without it |
| ShapeId.WorkstreamIsSameShape | devtools/fitness/build_engine_fitness.py:114 | a workstream's word in front of the name does not matter |
| ShapeId.TwinIsSameShape | devtools/fitness/build_engine_fitness.py:117 | nor does the ending of a twin |
| ShapeId.ThreeTwinsAreSameShape | devtools/fitness/build_engine_fitness.py:115-117 | up to three such endings are dropped |
| ShapeId.FourthEndingStays | devtools/fitness/build_engine_fitness.py:115 | and a fourth stays |
| ShapeId.FormatEndingIsSameShape | devtools/fitness/build_engine_fitness.py:116 | nor does a format at the end of the name |
| ShapeId.OffsetIsSameShape | devtools/fitness/build_engine_fitness.py:117 | nor does an offset in millimetres |
| FitnessTable.KeepDevRows | devtools/fitness/build_engine_fitness.py:355-384 | the dev-side rule keeps or counts each row |
| FitnessTable.KeepNewest | devtools/fitness/build_engine_fitness.py:434-442 | the newer of two results with one key stays and the other is counted |
| FitnessTable.E2eRows | devtools/fitness/build_engine_fitness.py:617-660 | every sweep result is counted out or kept as the newest under its key |
| FitnessTable.Build | devtools/fitness/build_engine_fitness.py:586-684 | the build, whose last refusal never fires |
| FitnessTable.EvidenceIsConserved | devtools/fitness/build_engine_fitness.py:404-669 | rows plus exclusions are the results read |
| FitnessTable.EachRowIsNewest | devtools/fitness/build_engine_fitness.py:434-669 | one row for each case, engine and format, the newest accepted result of its source, on the dev side |
| FitnessTable.BuiltOnDevSide | devtools/fitness/build_engine_fitness.py:682-683 | every row of the table is on the dev side |
| FitnessRows.RowIff | devtools/fitness/build_engine_fitness.py:404-669 | a result is a row if and only if it is the newest a sweep has of its case, engine and format, or the newest usable one of the lab with no sweep's row for the same geometry, engine and format |
| FitnessRows.RowsInOrder | devtools/fitness/build_engine_fitness.py:444-669 | the lab's rows come first and then the sweeps', each by case, engine and format |
| FitnessRows.OneLabResult | devtools/fitness/build_engine_fitness.py:404-505 | a lab result by itself is the only row or is counted out for the first rule that it breaks, with that rule's reason |
| FitnessRows.OneSweepResult | devtools/fitness/build_engine_fitness.py:617-660 | so is a sweep's |
| FitnessRows.TwoLabResults | devtools/fitness/build_engine_fitness.py:434-442 | of two for one key the newer is the row, the first on a tie, and the other is counted as its older duplicate |
| FitnessRows.SweepReplacesLab | devtools/fitness/build_engine_fitness.py:660-669 | a sweep's row for the same geometry replaces the lab's |

## Left out

- Coordinates, weights and times are real numbers; float rounding is not modelled.
- Text is lowercased and trimmed as ASCII; column widths that cut names and ids short are not modelled.
- Hashes and fingerprints are taken to have no collisions; JSON and file formats are structured values, and the regular expressions that parse a mesh file are left out.
- Accounts: display names, pending organisation names, audit events and the returned account view; rows that other services write; a uid is assumed to present one address.
- Accounts and Delivery are state machines over values rather than classes, because several processes share the tables; what one process changes in place is written as its next state.
- SignIns.UndisturbedSignIn: from a statement whose row, if it has found one, is still there, and still under the token's uid if it was read so; a request that read a row as its own goes on with it whatever has become of it.
- Mailbox: which domains count as dot-insensitive is the source's own list, and non-ASCII addresses are not folded.
- Billing: the provider's API, prices and currencies; organisation ids, numbers and configured prices are read through functions given with the configuration, and the period end is not stored.
- Credits: history and usage reports.
- Artifacts: building the plan from a workspace, archive contents and the size and md5 comparison itself; whether a source is a file, an upload works, an object is intact and a write or delete goes through are given for each item. The store answers with the key it was asked for.
- Delivery: an item's upload and row write are one step, a lease's clock is not modelled (a takeover may come at any time), and a reconciliation record that cannot be written is only logged by the source.
- Orientation: a face of a wanted cell with no corner, or with a corner the file does not list, makes the source raise; such files are excluded.
- MeshRepair.SecondFlipIff: for clean meshes only, where no other zone or section has an id that is handed out and no boundary section is coded interior; every mesh of the exporter's form is one (`MeshRepair.ExportedIsClean`), and of two lines with one id a second repair may retype either (`MeshRepair.CollidingIdsMove`).
- MeshRepair.RepairIsIdempotentIff: for clean meshes only, as above.
- MeshRepair: the report and the text of lines that are copied; sections numbered zero, and nodes listed after the faces that use them.
- Backfill: generated ids are a counter; downgrade and the columns themselves.
- QueueMarks: the store's clock is the run's clock; counting consumers and jobs, and the series that are published.
- PatchContract: field values that are not text, and the rest of the admission check.
- Outbox: the order and limit of claimed rows, payloads and attempt counters.
- FitnessTable: measuring geometries and the row's other fields; a build from an earlier table's rows, where the earlier table answers for its own evidence. A case id is taken to have no line breaks.
- The HTTP layer, clients, documentation generators, CAD kernels, meshers, the other migrations and the source-scanning checks carry no state law and are not modelled.
