# Verified core of a multi-tenant restaurant platform

This project models the parts of the platform that hold real state machines, protocols or arithmetic, and
proves what they promise over all inputs, all runs and all interleavings. `dafny verify dfyconfig.toml`
checks everything.

| part | modules |
|---|---|
| Media records, files, and the retry queue for dead files | `StorageKeys`, `CleanupQueue`, `CleanupQueueService`, `Media`, `MediaSafety`, `MediaAccounting`, `MediaEffects`, `MediaLeaks`, `MediaShown`, `MediaRuns`, `MediaService` |
| Staff: last-owner guard, role grants, replacement of links | `OwnerGuard`, `RoleGrants`, `Links` |
| Branches, tables, orders, catalogue | `Cascade`, `Floor`, `FloorEffects`, `FloorSafety`, `FloorService`, `Menu` |
| Tenant scoping of every query | `TenantScope`, `TenantIsolation`, `TenantEffects`, `TenantRepository` |
| Stripe webhook | `Billing`, `BillingEffects`, `BillingIdempotence`, `BillingService` |
| Base32 encoder, prices, discount usage, revenue segments | `Base32`, `Pricing`, `DiscountUsage`, `Segments` |
| Shared helpers | `Wrappers`, `Text` |

State that the source updates in place is a class whose methods are proved equal to a function on values and
keep the invariants that are proved of it (`MediaService`, `CleanupQueueService`, `FloorService`, `Menu`,
`TenantRepository`, `BillingService`); loops
stay loops (`Base32.Encode`, `Cascade`, `Pricing`, `Segments`). Protocols are step functions with runs over
arbitrary sequences of steps; a step that is not enabled leaves the state alone, so every sequence is a run.
Beside the invariants, the `Effects` modules say what each operation does to the rows, without reference to
its code, and the methods of the classes promise it.

## How the model reads the source

- Money is integer cents, percentages are hundredths of a percent, and `toFixed(2)` rounds exact values, halves away from zero. There is no floating point.
- Each upload attempt draws a key prefix from the clock that was never drawn before; checksums are hexadecimal.
- `deleteBatch` splits its keys into deleted and failed ones. In the queue it may also throw after deleting any part of them; in the catch block of an upload it does not throw.
- A storage write that throws has written nothing. The image writes of an attempt run in parallel, and the catch block runs at the first that fails. For an error that is not retried this makes no difference: the block leaves files alone, and the files that the model counts as written include those that arrive late. For a retried storage error the model assumes that the other writes have settled.
- Media requests run one after another, because the reads by checksum and by entity are outside the transaction. Steps of the cleanup queue fall into every await of a request.
- The service itself only ever writes records with the status `ready`, so every record in the model is ready.
- Media and billing transactions run against a plain transactional store. Under a tenant context the client extension rejects `deleteMany` and `updateMany` on scoped models (packages/db/src/index.ts:43-46), so replacing or removing media would be refused there; the model follows the services.
- Owner-guard transactions run under READ COMMITTED: a statement sees what is committed when it runs, writes become visible with the commit, and the advisory lock is held until the transaction ends.
- A role or branch link that exists is refused by its primary key (packages/db/prisma/schema.prisma:232, 276), which rolls the whole transaction back.
- Role names are unique within a tenant, role tables do not change, and a permission is a pair of resource and action.
- A keyed hash is a constructor: equal tokens mean equal payloads. Tenant and branch ids are UUIDs and contain no colon.
- The cache that remembers processed Stripe events is online. Deliveries are handled one after another.
- Under a tenant context, the order in which the database lists rows is a function of the rows it selected.

## Where a promise fails, and exactly when

- The comment above the image upload says that a partial failure is cleaned up (apps/api/src/media/media.service.ts:164-165), but the catch block only does so for retryable errors. `MediaAccounting.UploadAccounts` gives the exact condition on the inputs: all files of an upload are accounted for if and only if no attempt that wrote files meets an error that is not retried, or commits while the row of its URL column is missing. `MediaLeaks.RunOwnedExactly` carries this to whole runs, and `MediaRuns.FatalUploadLeaks` is a run that loses files.
- The image column of a product is addressed by the product's id alone (apps/api/src/media/media.service.ts:228-231), and nothing checks whose product it is, so a tenant can put its image on the product of another (`MediaRuns.IntruderBreaks`). The menu service writes the column directly as well (apps/api/src/menu/menu.service.ts:107, 284). `MediaShown.RunShownExactly` says exactly which steps break the agreement of products and records.
- After `onModuleDestroy` with a timer set, and only then, the queue is never processed again (`CleanupQueue.RunScheduled`, `CleanupQueue.DestroyedTimerStalls`).
- A request whose role snapshot is overtaken by a grant of the owner role skips the guard. The last owner is then lost in one of two ways: to that request (`OwnerGuard.OvertakenRunLosesOwner`), or to another one that passed the guard by counting the owner which that request took away (`OwnerGuard.GuardedCommitLosesOwner`). `OwnerGuard.LastOwnerLost` is the exact condition in every reachable state, and `OwnerGuard.OwnerAlongExactly` carries it to runs.
- Login turns a user without roles into a restaurant owner (apps/api/src/auth/auth.service.ts:630-636), who can then grant itself that role and hold what nobody held (`RoleGrants.RolelessRunEscalates`). Role changes that overlap leave a user with what two actors granted (`RoleGrants.OverlapRunEscalates`). `RoleGrants.ContainedExactly` and `RoleGrants.CoveredExactly` are the exact conditions on tokens and on role changes; with exact tokens, overlap alone never creates a permission that nobody had (`RoleGrants.RunNothingNew`).
- The extension rewrites the payload of a create but not of an update, so an update that names another tenant moves the row there (`TenantIsolation.UpdateGivesAway`); `TenantIsolation.ForeignUntouchedExactly` is the exact condition. A create or update that brings in an id is refused if another tenant has a row with it, so the reply tells that the row exists (`TenantIsolation.TakenIdShows`); `TenantIsolation.NonInterferenceExactly` says that replies depend on foreign rows in this way and in no other. `findUnique` is not scoped (`TenantIsolation.FindUniqueReads`).
- A status event for a subscription whose Stripe id is not stored yet moves the tenant alone (`BillingIdempotence.UnlinkedFallsOutOfStep`); `BillingIdempotence.InStepExactly` is the exact condition. A redelivery after 30 days is handled again (`BillingIdempotence.LateRedeliveryCounts`). The comment on the webhook lists `customer.subscription.created` among the processed types (apps/api/src/billing/billing.service.ts:111-114); the code ignores it, and so does the model.
- The order-count segments are the histogram of the rows if and only if equal segment names mean equal columns (`Segments.HistogramExactly`). A branch id "unknown" beside orders without a branch breaks it (`Segments.UnknownBranchMiscounts`); with UUIDs it cannot occur (`Segments.UuidsAreFaithful`).
- The limit of a discount is exceeded by up to k - 1 when k checkouts overlap, and that bound is reached (`DiscountUsage.BoundIsReached`).

## Model

| member | source | states |
|---|---|---|
| `CleanupQueue.RunScheduled` | apps/api/src/media/media-cleanup-queue.service.ts:24-97 | in every interleaving of `enqueue` with the awaits of `processQueue`: a waiting job has a timer or a running processor, never both, and at most one of either, if and only if the module was never destroyed while a timer was set; otherwise nothing is scheduled ever again |
| `CleanupQueue.RunConserves` | apps/api/src/media/media-cleanup-queue.service.ts:24-97 | in every run, each accepted job is in exactly one place or finished, and each of its keys is waiting, deleted, or abandoned after exactly three failures |
| `CleanupQueue.SettleJob` | apps/api/src/media/media-cleanup-queue.service.ts:55-93 | one answer of `deleteBatch` keeps the account of every key, for partial failures and for throws |
| `CleanupQueue.DestroyedTimerStalls` | apps/api/src/media/media-cleanup-queue.service.ts:33-41 | the jobs that wait when the timer is cleared wait for ever |
| `CleanupQueue.EnqueueEffect` | apps/api/src/media/media-cleanup-queue.service.ts:24-31 | the new job has all the keys, is due at once, and waits at the end |
| `CleanupQueue.RetryEffect` | apps/api/src/media/media-cleanup-queue.service.ts:61-93 | what fails is tried again after two seconds, then after four, and given up after the third failure |
| `CleanupQueue.TakenUpWhenDue` | apps/api/src/media/media-cleanup-queue.service.ts:47-56 | no job is taken up before it is due, and only an answer changes when it is due |
| `CleanupQueueService.RotationProgress` | apps/api/src/media/media-cleanup-queue.service.ts:48-53 | putting a job back and sleeping shortens the total delay and keeps the attempts left |
| `CleanupQueueService.AttemptProgress` | apps/api/src/media/media-cleanup-queue.service.ts:55-93 | a delete attempt uses up an attempt or finishes the job, for every reply |
| `CleanupQueueService.MediaCleanupQueue.Enqueue` | apps/api/src/media/media-cleanup-queue.service.ts:24-41 | the object's new state is the machine's step, timer included; no job is lost and somebody will process it |
| `CleanupQueueService.MediaCleanupQueue.Attempt` | apps/api/src/media/media-cleanup-queue.service.ts:55-93 | the job object and the queue after one `deleteBatch`, with back-off and abandonment |
| `CleanupQueueService.MediaCleanupQueue.ProcessQueue` | apps/api/src/media/media-cleanup-queue.service.ts:43-97 | the loop ends for every pattern of failures, is a run of the machine, and leaves every accepted key deleted or abandoned after three failures |
| `StorageKeys.CleanupMissesOthers` | apps/api/src/media/media.service.ts:422-445 | the cleanup keys of one storage key never name a file of another, for all strings |
| `StorageKeys.PrefixIsNoDocument` | apps/api/src/media/media.service.ts:134-136 | a prefix that ends in a checksum is never taken for a document key |
| `StorageKeys.ReachDisjoint` | apps/api/src/media/media.service.ts:134-162 | all keys that one prefix can ever lead to are disjoint from those of another |
| `MediaSafety.RunAgree` | apps/api/src/media/media.service.ts:107-375 | in every run of uploads, deduplicated uploads, replacements, removals and queue steps, all files of every record exist and no job has one of them left to delete |
| `MediaSafety.AttemptAgree` | apps/api/src/media/media.service.ts:107-282 | one attempt keeps that agreement, whatever fails, and a failed attempt leaves the database as it was |
| `MediaSafety.ReplaceAgree` | apps/api/src/media/media.service.ts:190-252 | the transaction reports a storage key as dead only if no record carries it |
| `MediaSafety.UploadAgree` | apps/api/src/media/media.service.ts:107-288 | the retry loop and the hand-over of the old key keep the agreement |
| `MediaSafety.RemoveAgree` | apps/api/src/media/media.service.ts:326-375 | removal keeps the agreement through all its retries |
| `MediaSafety.QueueStepsShrink` | apps/api/src/media/media-cleanup-queue.service.ts:47-94 | queue steps in between only take away files that a job names |
| `MediaAccounting.UploadAccounts` | apps/api/src/media/media.service.ts:107-283 | every file an upload wrote belongs to its record, is deleted, or was handed over as a ROLLBACK job, if and only if no attempt with files has a fatal fault or commits while its URL column is missing, read off the inputs |
| `MediaAccounting.AttemptFault` | apps/api/src/media/media.service.ts:190-282 | how an attempt ends can be told from its verdict and the URL column, and a failed one leaves the database alone |
| `MediaAccounting.RollBackTakesCare` | apps/api/src/media/media.service.ts:262-279 | the catch block deletes or hands over every tracked key of a retryable attempt |
| `MediaEffects.UploadEffect` | apps/api/src/media/media.service.ts:61-291 | for every outcome of an upload: when it creates a record, that the record describes the request and takes the place of the old one, what the URL columns show, which jobs are new, and that a failed upload changes no row |
| `MediaEffects.RemoveEffect` | apps/api/src/media/media.service.ts:326-375 | for every outcome of a removal: when it succeeds, that the record is gone and its column empty, that its files are handed over in one new job unless another record has them, and that otherwise no row changes |
| `MediaEffects.AcceptableExactly` | packages/types/src/constants.ts:47-89 | the size limits and file types of each media type |
| `MediaEffects.ColumnExactly` | apps/api/src/media/media.service.ts:37-45 | which column shows a record |
| `MediaShown.RunShownExactly` | apps/api/src/media/media.service.ts:190-246 | all along a run a product has at most one image record, of whatever tenant, and its column holds the URL of that record or nothing, if and only if no upload commits on a product with the image of another tenant and no direct write disagrees with the records |
| `MediaShown.OwnRunShown` | apps/api/src/media/media.service.ts:220-246 | as long as tenants upload images for their own products only, every product shows exactly the image of its record |
| `MediaShown.UploadShownExactly` | apps/api/src/media/media.service.ts:107-252 | exactly when an upload, with its retries, keeps that |
| `MediaShown.RemoveShown` | apps/api/src/media/media.service.ts:326-375 | removal always keeps that |
| `MediaShown.SetImageShownExactly` | apps/api/src/menu/menu.service.ts:277-299 | exactly when a direct write of the column keeps that |
| `MediaRuns.IntruderBreaks` | apps/api/src/media/media.service.ts:227-231 | a run from the empty service: two tenants upload an image for one product, which ends up with two records |
| `MediaAccounting.RunSound` | apps/api/src/media/media.service.ts:274-288 | the queue inside every media run keeps the two guarantees of the queue machine |
| `MediaRuns.EmptyStore` | apps/api/src/media/media.service.ts:52-59 | the empty service satisfies all invariants, so the theorems apply to all its runs |
| `MediaLeaks.RunOwnedExactly` | apps/api/src/media/media.service.ts:107-445 | after any run every file in storage is a record's, is still a job's to delete, or was abandoned by one, if and only if no upload of the run failed for good after writing files |
| `MediaLeaks.StepOwned` | apps/api/src/media/media.service.ts:107-375 | one operation keeps that, or loses a file |
| `MediaLeaks.StepKeepsOrphan` | apps/api/src/media/media.service.ts:107-445 | a lost file stays lost: no later operation, job or record ever gets hold of it |
| `MediaLeaks.UploadLeaks` | apps/api/src/media/media.service.ts:255-282 | an upload that fails for good after writing leaves such a file |
| `MediaRuns.FatalUploadLeaks` | apps/api/src/media/media.service.ts:262-282 | a run from the empty service that loses files |
| `MediaService.Service.Upload` | apps/api/src/media/media.service.ts:61-291 | the method has the effect above, for any records that the two lookups may find, and keeps records and files in agreement |
| `MediaService.Service.Retry` | apps/api/src/media/media.service.ts:394-420 | the retry loop equals the recursion over the attempts |
| `MediaService.Service.Attempt` | apps/api/src/media/media.service.ts:107-282 | one attempt: files, transaction, roll-back |
| `MediaService.Service.Transact` | apps/api/src/media/media.service.ts:190-252 | create, URL column, delete of the old record, reference count; all or nothing, and a key reported dead has no record |
| `MediaService.Service.Remove` | apps/api/src/media/media.service.ts:326-375 | the method has the effect above, with its retry loop, and keeps records and files in agreement |
| `OwnerGuard.RunKeepsOwner` | apps/api/src/user/user.service.ts:255-298 | in every interleaving of deactivations, deletions, role changes and creations, a tenant that starts with an active owner keeps one, unless a commit demotes a target that became owner after its snapshot |
| `OwnerGuard.DemotionIsGuarded` | apps/api/src/user/user.service.ts:524-550 | whoever takes an active owner away has passed the guard, holds the lock, and another active owner is there |
| `OwnerGuard.GuardVerdict` | apps/api/src/user/user.service.ts:283-298 | in every state the guard refuses exactly when no other active owner exists; as long as no demotion was overtaken, a second check never refuses |
| `OwnerGuard.LastOwnerLost` | apps/api/src/user/user.service.ts:524-658 | exactly when a step leaves the tenant without an owner, in every state that keeps the locking discipline: it commits against the only active owner, and has either passed the guard or a snapshot without the owner role |
| `OwnerGuard.OwnerAlongExactly` | apps/api/src/user/user.service.ts:255-298 | an owner is there all along a run if and only if no step is of that kind, for every interleaving |
| `OwnerGuard.RunLocking` | apps/api/src/user/user.service.ts:283-298 | in every run the lock has one holder, and only requests that call the guard take it and pass checks |
| `OwnerGuard.CommitEffect` | apps/api/src/user/user.service.ts:552-658 | what a committed request leaves of its target, column by column, and that nobody else changes |
| `OwnerGuard.WaitingEffect` | apps/api/src/user/user.service.ts:271-298 | before its commit a request changes no user; it gets the lock when nobody holds it |
| `OwnerGuard.OvertakenRunLosesOwner` | apps/api/src/user/user.service.ts:524-583 | a run in which the owner is lost to a request that skipped the guard |
| `OwnerGuard.GuardedCommitLosesOwner` | apps/api/src/user/user.service.ts:524-583 | a run in which the owner is lost to a request that passed the guard |
| `OwnerGuard.AtRest` | apps/api/src/user/user.service.ts:255-298 | a tenant at rest with an active owner satisfies the invariants, so the theorems apply to all its runs |
| `RoleGrants.RunContained` | apps/api/src/user/user.service.ts:189-246 | in every run whose logins and role changes meet the conditions below, each user's permissions, and all that a staff token can grant, lie within those of a single user of the beginning |
| `RoleGrants.ContainedExactly` | apps/api/src/user/user.service.ts:189-246 | the condition on tokens is exact: it holds if and only if every further sequence of creations by staff stays within the bound |
| `RoleGrants.CoveredExactly` | apps/api/src/user/user.service.ts:594-621 | the condition on a role change is exact, roll-back on an existing link included: it holds if and only if the change keeps the bound whoever was there at first |
| `RoleGrants.ExactRunContained` | apps/api/src/user/user.service.ts:515-621 | with tokens that say what is stored and snapshots that are not overtaken, the bound holds in every run |
| `RoleGrants.RunNothingNew` | apps/api/src/user/user.service.ts:515-621 | with such tokens and any snapshots, every permission was held by some user of the beginning |
| `RoleGrants.RolelessRunEscalates` | apps/api/src/auth/auth.service.ts:630-636 | a user without roles logs in, makes itself an owner, and holds what nobody held |
| `RoleGrants.OverlapRunEscalates` | apps/api/src/user/user.service.ts:594-621 | two role changes from one snapshot leave a user with more than any single user had |
| `RoleGrants.GrantableExactly` | apps/api/src/user/user.service.ts:189-246 | a request is accepted exactly if all requested roles are grantable one by one |
| `RoleGrants.RequestEffect` | apps/api/src/user/user.service.ts:586-621 | an accepted creation, or role change from a snapshot that is not overtaken, stores exactly the requested roles |
| `RoleGrants.ChangeEffect` | apps/api/src/user/user.service.ts:594-621 | what a role change leaves for any snapshot, role by role |
| `RoleGrants.RefusedRequest` | apps/api/src/user/user.service.ts:189-246 | a request without the right to grant, or with unknown roles, changes nothing |
| `RoleGrants.GrantWithinToken` | apps/api/src/user/user.service.ts:212-245 | all that a token can grant lies within its permissions, if it says what is stored |
| `RoleGrants.RunGrantsNoPlatformOwner` | apps/api/src/user/user.service.ts:199-205 | in every run that starts without a platform owner, nobody becomes one and no token says so |
| `RoleGrants.LoginIsExact` | apps/api/src/auth/auth.service.ts:606-636 | a token says what is stored if and only if there is a role and a permission |
| `RoleGrants.LoginEffect` | apps/api/src/auth/auth.service.ts:606-636 | the roles and permissions of a token, defaults included |
| `Links.VisibleIsDesired` | apps/api/src/user/user.service.ts:594-649 | exactly when the computed difference yields the requested set among live branches |
| `Links.NoDoubleLink` | apps/api/src/user/user.service.ts:606-642 | exactly when no existing link is created again, and so the database does not refuse |
| `Links.QuietReplacement` | apps/api/src/user/user.service.ts:624-649 | with nothing in between, the visible set is the requested one and hidden assignments stay |
| `Links.ReplacedByIds` | apps/api/src/user/user.service.ts:305-330 | working on role ids is working on role names |
| `Cascade.SoftDeleteChildren` | apps/api/src/branch/branch.service.ts:250-268 | the paged loop with its early exit ends and equals one update of exactly the rows that are hit |
| `Cascade.FindMany` | apps/api/src/branch/branch.service.ts:251-255 | a page: distinct hits, and all of them if the page is short |
| `FloorSafety.RunSound` | apps/api/src/branch/branch.service.ts:128-389 | in every run of all tenants: open orders sit in live branches and at live tables of that branch, live tables are in live branches, tokens are unique, invoices belong to completed orders once |
| `FloorSafety.EmptyFloor` | apps/api/src/branch/branch.service.ts:128-160 | a platform without rows satisfies the invariants, so the theorem applies to all its runs |
| `FloorSafety.DeleteBranchSound` | apps/api/src/branch/branch.service.ts:221-278 | the order count of the branch covers the orders at every table that the cascade closes |
| `FloorSafety.DeleteTableSound` | apps/api/src/branch/branch.service.ts:333-351 | no open order loses its table |
| `FloorSafety.CheckoutSound` | apps/api/src/order/order.service.ts:165-195 | checkout's checks seat the new order |
| `FloorSafety.GuestOrderBound` | apps/api/src/order/order.service.ts:111-155 | a guest order is bound to the only live table with its token |
| `FloorSafety.StatusSound` | apps/api/src/order/order.service.ts:422-484 | status changes and cancellations keep all invariants, invoices included |
| `FloorSafety.AllowedExactly` | apps/api/src/order/order.service.ts:491-506 | an open order moves to the next stage or is cancelled, and nothing else is allowed |
| `FloorSafety.RunTerminal` | apps/api/src/order/order.service.ts:468-506 | in every run, terminal orders never change, stages go forward only, and branch and table stay |
| `FloorSafety.PayloadInjective` | apps/api/src/branch/branch.service.ts:146-150 | the signed payload determines tenant, branch and number |
| `FloorSafety.RestoreAccepted` | apps/api/src/branch/branch.service.ts:364-389 | the tenant-scoped checks of `restoreTable` suffice for the unique index over all tenants |
| `FloorEffects.DeleteBranchEffect` | apps/api/src/branch/branch.service.ts:221-278 | succeeds exactly for a live branch of the tenant without open orders; then the branch and all its tables are closed, and no other row changes |
| `FloorEffects.RestoreBranchEffect` | apps/api/src/branch/branch.service.ts:280-293 | brings the branch back and changes nothing else |
| `FloorEffects.CreateTableEffect` | apps/api/src/branch/branch.service.ts:128-160 | when a table is created, and the row with its signed token |
| `FloorEffects.DeleteTableEffect` | apps/api/src/branch/branch.service.ts:333-351 | when a table is closed, and that only its row changes |
| `FloorEffects.RestoreTableEffect` | apps/api/src/branch/branch.service.ts:364-389 | when a table comes back, and that only its row changes |
| `FloorEffects.CheckoutEffect` | apps/api/src/order/order.service.ts:161-195 | when an order is placed, and the row it leaves |
| `FloorEffects.GuestCheckoutEffect` | apps/api/src/order/order.service.ts:111-155 | when a guest order is placed, and that it is for the scanned table |
| `FloorEffects.UpdateStatusEffect` | apps/api/src/order/order.service.ts:422-440 | when an order moves on, the row and the invoice it leaves |
| `FloorEffects.CancelEffect` | apps/api/src/order/order.service.ts:468-484 | when an order is cancelled, and the row it leaves |
| `FloorEffects.TableRoundTrip` | apps/api/src/branch/branch.service.ts:333-389 | deleting and restoring a table leaves everything as before |
| `FloorEffects.BranchComesBackEmpty` | apps/api/src/branch/branch.service.ts:221-293 | a branch that is deleted and restored comes back without its tables |
| `FloorService.Service.DeleteBranch` | apps/api/src/branch/branch.service.ts:221-278 | exactly when it succeeds; then branch and tables are closed and nothing else changes; the invariants hold |
| `FloorService.Service.CreateTable` | apps/api/src/branch/branch.service.ts:128-160 | exactly when it succeeds, the row it creates, and the invariants |
| `FloorService.Service.RestoreTable` | apps/api/src/branch/branch.service.ts:364-389 | exactly when it succeeds, the row it writes, and the invariants; the index never refuses |
| `FloorService.Service.Checkout` | apps/api/src/order/order.service.ts:161-195 | exactly when it succeeds, the order it places, and the invariants |
| `FloorService.Service.UpdateOrderStatus` | apps/api/src/order/order.service.ts:422-440 | exactly when it succeeds, the order and invoice it leaves, and the invariants |
| `FloorService.Service.RestoreBranch` | apps/api/src/branch/branch.service.ts:280-293 | exactly when it succeeds, the row it writes, and the invariants |
| `FloorService.Service.DeleteTable` | apps/api/src/branch/branch.service.ts:333-351 | exactly when it succeeds, the row it closes, and the invariants |
| `FloorService.Service.CancelOrder` | apps/api/src/order/order.service.ts:468-484 | exactly when it succeeds, the order it leaves, and the invariants |
| `Menu.Catalogue.DeleteCategory` | apps/api/src/menu/menu.service.ts:175-234 | exactly the live products of the category go with it, and no other row changes |
| `Menu.Catalogue.RestoreProduct` | apps/api/src/menu/menu.service.ts:325-343 | a product comes back only under a live category; a live product stays as it is |
| `TenantIsolation.Refines` | packages/db/src/repositories/BaseTenantRepository.ts:51-281 | a repository call under a tenant, whatever it passes, equals the call on a private store that knows own rows and taken ids, and every foreign row stays as it was |
| `TenantIsolation.RunRefines` | packages/db/src/repositories/BaseTenantRepository.ts:51-281 | the same for any sequence of calls, with any filters and payloads |
| `TenantIsolation.NonInterference` | packages/db/src/index.ts:22-76 | two tables that agree on own rows, and on which of the ids that the calls bring in are foreign, give the same replies and the same own rows |
| `TenantIsolation.NonInterferenceExactly` | packages/db/src/repositories/BaseTenantRepository.ts:137-270 | beside any two sets of foreign rows the replies of a run agree if and only if its calls collide with foreign ids at the same moments |
| `TenantIsolation.TakenIdShows` | packages/db/src/repositories/BaseTenantRepository.ts:137-147 | the refusal of a create tells that a foreign id exists |
| `TenantIsolation.ClientScoped` | packages/db/src/index.ts:43-72 | every query of a tenant is answered from its own rows, whatever the filter says about tenants, and changes no foreign row; `findUnique` alone sees all rows |
| `TenantIsolation.ForeignUntouchedExactly` | packages/db/src/repositories/BaseTenantRepository.ts:153-270 | exactly when no row changes hands, for every payload |
| `TenantIsolation.UpdateGivesAway` | packages/db/src/repositories/BaseTenantRepository.ts:153-170 | an update that names another tenant gives the row away |
| `TenantIsolation.SelectOwn` | packages/db/src/repositories/BaseTenantRepository.ts:51-65 | the scoped filter selects own rows by the rest of the caller's filter, with the soft-delete default |
| `TenantIsolation.FindUniqueReads` | packages/db/src/index.ts:51-57 | `findUnique` passes unscoped: it sees own rows only if and only if the id is not foreign |
| `TenantIsolation.SoftDeleteUndone` | packages/db/src/repositories/BaseTenantRepository.ts:225-270 | through the repository, restore undoes soft delete but for the fields that payloads set, deleting twice keeps the first tombstone and the table, and a deleted row is not found |
| `TenantEffects.CreateEffect` | packages/db/src/repositories/BaseTenantRepository.ts:137-147 | a create is refused without effect, or stores exactly the payload under the context's tenant and changes no other row |
| `TenantEffects.CreateThenFind` | packages/db/src/repositories/BaseTenantRepository.ts:91-147 | a lookup that follows a create returns what was created |
| `TenantEffects.UpdateEffect` | packages/db/src/repositories/BaseTenantRepository.ts:153-170 | an update is refused without effect, or gives the columns it names their new values and leaves all else |
| `TenantEffects.TombstoneEffect` | packages/db/src/repositories/BaseTenantRepository.ts:225-270 | what soft delete and restore leave, for every payload |
| `TenantEffects.DeleteEffect` | packages/db/src/repositories/BaseTenantRepository.ts:176-193 | a delete removes the row that it finds and nothing else |
| `TenantEffects.FindEffect` | packages/db/src/repositories/BaseTenantRepository.ts:91-96 | what a lookup by id returns, with and without deleted rows |
| `TenantEffects.ListEffect` | packages/db/src/repositories/BaseTenantRepository.ts:116-132 | which rows a list returns: own rows that pass the filter, in the window of `take` and `skip`, 500 by default |
| `TenantEffects.CountEffect` | packages/db/src/repositories/BaseTenantRepository.ts:275-280 | a count is the number of own rows that pass the filter |
| `TenantRepository.Table.Send` | packages/db/src/index.ts:22-76 | a query under a tenant acts on the tenant's own rows alone, beside untouched foreign rows; without a context nothing happens |
| `TenantRepository.Table.Create` | packages/db/src/repositories/BaseTenantRepository.ts:137-147 | under a tenant the call is refused without effect or stores exactly the payload; foreign rows stay; without a context nothing happens |
| `TenantRepository.Table.Update` | packages/db/src/repositories/BaseTenantRepository.ts:153-170 | under a tenant a visible own row gets the columns of the payload and all else stays; foreign rows stay; without a context nothing happens |
| `TenantRepository.Table.SoftDelete` | packages/db/src/repositories/BaseTenantRepository.ts:225-244 | under a tenant an own row gets its tombstone once and all else stays; without a context nothing happens |
| `TenantRepository.Table.Restore` | packages/db/src/repositories/BaseTenantRepository.ts:251-270 | under a tenant an own row loses its tombstone and all else stays; without a context nothing happens |
| `BillingIdempotence.RunIsReplay` | apps/api/src/billing/billing.service.ts:138-345 | for every sequence of deliveries, rows and announcements are those of a handler without memory on the deliveries to keep, a notion that does not mention the cache; and the cache remembers exactly those |
| `BillingIdempotence.RedeliveryIsIdempotent` | apps/api/src/billing/billing.service.ts:138-345 | with any redelivery within 30 days, rows and announcements are those of the first marked delivery of each event id |
| `BillingIdempotence.RedeliveryIsInvisible` | apps/api/src/billing/billing.service.ts:138-152 | a redelivery of an event that was kept less than 30 days ago changes nothing in the whole run |
| `BillingIdempotence.LateRedeliveryCounts` | apps/api/src/billing/billing.service.ts:138-152 | after 30 days the same event is handled again |
| `BillingEffects.DeliverEffect` | apps/api/src/billing/billing.service.ts:138-345 | an event that is not remembered has the effect below, and is remembered for 30 days if it was handled |
| `BillingEffects.StatusEffect` | apps/api/src/billing/billing.service.ts:166-345 | which tenant, which subscriptions, which status and which announcement follow from an event, by its type and Stripe status; unlisted statuses change nothing, unlisted types are not marked |
| `BillingEffects.ResolveEffect` | apps/api/src/billing/billing.service.ts:185-201 | the tenant is found by customer, else by subscription, else by the metadata |
| `BillingEffects.CheckoutEffect` | apps/api/src/billing/billing.service.ts:353-412 | a checkout stores the Stripe ids where there were none |
| `BillingEffects.TrialEffect` | apps/api/src/billing/billing.service.ts:414-479 | an ending trial is announced and changes no row |
| `BillingIdempotence.InStepExactly` | apps/api/src/billing/billing.service.ts:256-304 | exactly when a committed status change leaves every tenant and subscription with the same status |
| `BillingIdempotence.RunInStep` | apps/api/src/billing/billing.service.ts:166-304 | with coherent one-to-one links, tenant and subscription statuses stay equal in every run |
| `BillingIdempotence.RunKeepsLinks` | apps/api/src/billing/billing.service.ts:376-402 | no delivery ever overwrites a stored customer or subscription id |
| `BillingIdempotence.HandleShape` | apps/api/src/billing/billing.service.ts:248-412 | at most one announcement, and no status changes without one that names the tenant and the new status |
| `BillingIdempotence.UnlinkedFallsOutOfStep` | apps/api/src/billing/billing.service.ts:283-304 | an event for a subscription that is not linked yet moves the tenant alone |
| `BillingService.Service.HandleStripeWebhook` | apps/api/src/billing/billing.service.ts:119-479 | every event has the effect stated for its type; a repetition of an event kept less than 30 days ago changes nothing; links are kept, changes are announced, and fitting events keep statuses in step |
| `BillingService.Service.ChangeStatus` | apps/api/src/billing/billing.service.ts:257-304 | the two bulk updates of the transaction |
| `Base32.Encode` | apps/api/src/auth/auth.service.ts:336-354 | the loop with its unmasked 32-bit word writes exactly the big-endian 5-bit groups of section 6 of RFC 4648, ceil(8n/5) characters |
| `Base32.RoundTrip` | apps/api/src/auth/auth.service.ts:340-354 | decoding the groups by the standard gives the bytes back, for every length |
| `Base32.TextRoundTrip` | apps/api/src/auth/auth.service.ts:339-354 | whoever reads the text by Table 3 of RFC 4648 gets the bytes back |
| `Pricing.PriceItem` | apps/api/src/order/order.service.ts:202-252 | the line of an item, with the price of one piece, exactly if it can be sold |
| `Pricing.LineExactly` | apps/api/src/order/order.service.ts:202-248 | exactly when an item can be sold, and that the unit price is the variant's, else the adjusted one of the size, else the base price |
| `Pricing.LineByPiece` | apps/api/src/order/order.service.ts:252-252 | no pieces cost nothing, and each piece adds the price of one |
| `Pricing.LineByAddon` | apps/api/src/order/order.service.ts:236-252 | each add-on raises the line by its price for every piece |
| `Pricing.PriceItems` | apps/api/src/order/order.service.ts:197-268 | all lines and their sum, or the error of the first bad item |
| `Pricing.PriceOrder` | apps/api/src/order/order.service.ts:197-298 | an error if and only if an item cannot be sold or the discount is refused; otherwise with prices that are not negative: 0 <= discount <= subtotal and 0 <= tax <= total |
| `Pricing.DiscountBounds` | apps/api/src/discount/discount.service.ts:47-58 | a discount is between zero and the subtotal, and takes all of it from 100 percent on |
| `Pricing.DiscountExactly` | apps/api/src/discount/discount.service.ts:47-58 | a percentage to the nearest cent, a fixed amount up to the subtotal |
| `Pricing.ValidateExactly` | apps/api/src/discount/discount.service.ts:64-91 | a code is accepted exactly if it exists, is active, within its dates and not used up, and takes something off |
| `Pricing.TaxNearest` | apps/api/src/order/order.service.ts:272-273 | the tax is the rate on the subtotal, to the nearest cent |
| `Pricing.TotalBounds` | apps/api/src/order/order.service.ts:272-298 | tax <= total <= subtotal + tax |
| `Pricing.TotalMonotone` | apps/api/src/order/order.service.ts:272-298 | for a fixed discount and tax rate the rounded total never falls as the subtotal grows |
| `Pricing.RoundNearest` | apps/api/src/discount/discount.service.ts:57-57 | rounding gives the nearest cent, halves away from zero |
| `DiscountUsage.CountsOrders` | apps/api/src/order/order.service.ts:278-327 | the usage count rises by exactly the number of committed orders that carry the discount |
| `DiscountUsage.LimitExceededByLess` | apps/api/src/discount/discount.service.ts:79-85 | with at most k checkouts at a time the limit is exceeded by at most k - 1 |
| `DiscountUsage.BoundIsReached` | apps/api/src/order/order.service.ts:287-297 | for every k there is a run with at most k checkouts at a time that reaches that bound |
| `DiscountUsage.CheckEffect` | apps/api/src/discount/discount.service.ts:79-85 | a checkout gets the discount exactly if it is not used up when it looks |
| `DiscountUsage.FinishEffect` | apps/api/src/order/order.service.ts:287-327 | a commit counts one use and stores one order; an abort leaves no trace |
| `Segments.RevenueSegments` | apps/api/src/eleva/eleva.business.intelligence.ts:79-95 | branch segments add up to the revenue, each is its branch's revenue, each method segment is the revenue of that method at that branch, and those of a branch add up to it |
| `Segments.Add` | apps/api/src/eleva/eleva.business.intelligence.ts:86-94 | adding to a key changes that entry and the sums it belongs to, and keys stay distinct |
| `Segments.KeysOfOrder` | apps/api/src/eleva/eleva.business.intelligence.ts:84-91 | branch keys and method keys never collide, and a method key belongs to one branch |
| `Segments.CountSegments` | apps/api/src/eleva/eleva.business.intelligence.ts:154-172 | the quadratic loop gives the exact histogram if and only if segment names are faithful |
| `Segments.HistogramExactly` | apps/api/src/eleva/eleva.business.intelligence.ts:154-172 | the condition for the histogram, both ways |
| `Segments.UnknownBranchMiscounts` | apps/api/src/eleva/eleva.business.intelligence.ts:154-172 | two rows for which the segments are not the histogram |
| `Segments.UuidsAreFaithful` | apps/api/src/eleva/eleva.business.intelligence.ts:157-157 | with UUIDs as branch ids and plain statuses, segment names are faithful |

## Left out

- Interleaved uploads of the same entity: the lookups are outside the serializable transaction, so the media theorems are about requests one after another.
- MediaAccounting.UploadAccounts: does not cover an image write that lands after the catch block of a retried storage error, whose file nobody would delete. Storage errors are retried only if they carry a PostgreSQL code or say "serialization failure".
- The startup clean-up of orphaned media records, which drops records without their files.
- Creation and deletion of products and tenants: the rows with URL columns are there from the start, or come with a direct write of the image column.
- Records with a status other than `ready`, image dimensions and file sizes of media records.
- Names, e-mail addresses, passwords and token revocation of staff users; a failed revocation is a roll-back in the owner guard.
- Interleaving of the order count in `deleteBranch` and `deleteTable` with checkouts: floor operations are atomic steps.
- Restaurants, tenant billing status in guest checkout, and order items in the floor model; prices are in `Pricing`.
- Platform-owner contexts without a tenant: they are unscoped by design, and `TenantIsolation` is about tenant contexts.
- Relation filters and `orderBy`: a filter is any condition on the row itself, and listing order is any function of the selected rows.
- Billing sessions and webhook signatures.
- Payments, the kitchen display, the agent services, controllers, permissions at the HTTP layer, and all user interfaces.
