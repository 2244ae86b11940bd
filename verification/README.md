# Verified model of the API's stateful cores

A Dafny model of the parts of the API where state, time or concurrency make correctness hard, and
proofs of what those parts promise.

* **Sessions and lockout** (`AuthModel`, `AuthInvariant`, `AuthOutcomes`, `SessionChains`, `TokenReuse`,
  `Lockout`, `SessionCounts`, `AuthService`). The user and session tables with one atomic transition per call:
  login, refresh with rotation, reuse response, logout, revocation, eviction, lockout, and the
  clean-up job. This is the refresh-token rotation of RFC 6819, section 5.2.2.3; a token verifies
  before its `exp` second as in RFC 7519, section 4.1.4.
* **Billing** (`Tax`, `InvoiceNumber`, `InvoiceNumbering`, `NumberingRace`, `BillingModel`,
  `LedgerInvariant`, `BillingOutcomes`, `InvoiceLife`, `FullyPaid`, `BillingService`, `Sums`). Payments, allocations and
  invoices, with the database's CHECK constraints as write guards, and requests racing for invoice
  numbers.
* **Tenant transactions** (`PrismaClient`, `TenantTransactions`, `TenantInvariant`, `TenantIsolation`,
  `CommitOnce`, `FailedAttempts`, `SettingScope`, `ClientRecursion`, `TransactionRetry`, `PrismaErrors`). Requests of
  many tenants interleaved over connection pools: begin on the hook's opener, set the tenant, execute
  through the transaction's own client under row-level security, commit or abort, lose an
  acknowledgement, retry.
* **Caching and authorization** (`InMemoryCache`, `ReadThrough`, `CacheKeys`, `GlobPattern`,
  `CacheService`, `Directory`, `Authorization`, `RevokedRoles`, `TenantResolver`). TTL stores, the
  read-through over a store that may fail, key decodability, the lookups that go through two cache
  levels, and how long they can be out of date.
* **Jobs, escaping, redaction** (`RetryPolicy`, `Jobs`, `Html`, `Redaction`, `LogLines`).

Each service's transitions are functions on values; the classes hold the fields the services update,
and every method is proved to perform exactly one transition and to keep the invariant that the
whole-run theorems start from.

## Assumptions

* Service calls are atomic and the clock does not step back, except where a module says otherwise:
  `TenantTransactions`, `ReadThrough` and `NumberingRace` interleave. `NumberingRace.ServedAsIfAlone`
  is why the ledger may take each rival of a creation as one atomic creation.
* SHA-256 is injective, a UUID is a value not used before, and only the signing service signs with the
  refresh secret. The answer of the Argon2 comparison is a parameter of the call.
* A request's money is an exact decimal number of cents, of type `real`; a DECIMAL(12, 2) column
  rounds ties away from zero and refuses what does not fit. `Prisma.Decimal` works on 20 significant
  digits, which the widths of subtotal and rate never exceed.
* The repositories return what their queries say; which row is first among equals is arbitrary.

## Findings

* The session-expiry test in `refresh` (auth.service.ts:251) never decides in an atomic call: the row's
  expiry is the token's own, and a token at or past it has already failed verification.
* "Fully paid implies PAID" is not kept. Three kinds of call break it, and only those: a payment a
  fraction of a cent short that the column rounds up to the balance, a tax change that brings a draft
  down to what was paid, and the creation of an invoice with nothing to pay. `StepKeepsMarksIff` is the
  condition for every call, `MarkedThroughoutIff` for every run; `HalfCentIsNeverMarked`,
  `UpdateLandsOnWhatWasPaid` and `NothingToPayIsNeverMarked` are the inputs.
* The comments on retrying say that a transaction that fails has committed nothing
  (db-transaction-retry.ts:22-26). That holds of a serialization failure or a deadlock, but not of a
  connection lost while the commit is acknowledged, which may surface as a retried connection error
  such as ECONNRESET. A request reports truthfully exactly when no acknowledgement is lost
  (`ReportTruthfulIff`), and can commit again exactly when the lost one is retried
  (`LostModelCallRepeatsIff`); `ResetCountsTwice` is a counter that one successful request raises by two.
* Retrying an invoice number helps only against a rival of the same tenant and year; sequential calls
  never need it, a conflict is reported only after five others have been served
  (`ConflictMeansFiveServed`), and six requests at once can bring one about (`SixCanConflict`).
* Deleting by prefix on Redis takes the prefix as a glob, which means the prefix if and only if it holds
  no star, question mark, opening bracket or backslash (`PatternMeansPrefixIff`; `ClassMatchesOthers` is
  an input). The one prefix the code documents holds none.
* A revoked role can be honoured for the cache lifetime plus the time one load of it was in flight, and
  no longer (`RolesGuardForgets`, `PermissionsGuardForgets`, `HonouredUntilThen`).

## Model

| member | source | states |
|---|---|---|
| AuthInvariant.NeverOverTheSessionLimit | apps/api/src/modules/auth/auth.service.ts:131-170 | In every run from an empty table, at any later moment, no user has more than five active sessions |
| AuthInvariant.StepKeepsInv | apps/api/src/modules/auth/auth.service.ts:63-278 | Every call keeps hashes unique, links forward, injective and within one user and tenant, expiries equal to the tokens' own, and the session limit |
| SessionChains.RotationChainsInEveryRun | apps/api/src/modules/auth/auth.service.ts:203-278 | In every run each session is on the chain of exactly one root, and an unrevoked session is the tail of any chain it is on |
| SessionChains.ChainShape | apps/api/src/modules/auth/auth.service.ts:268-275 | A chain is acyclic, keeps user and tenant, and every session but the last is revoked and linked to the next |
| SessionChains.ChainsPartitionSessions | apps/api/src/modules/auth/auth.service.ts:268-275 | Chains of distinct roots are disjoint and cover the table |
| TokenReuse.RunEvolves | apps/api/src/modules/auth/repositories/session.repository.ts:33-54 | Over any run a surviving row keeps its identity, a revoked one is frozen save for a link nulled by clean-up, and new rows belong to new tokens |
| TokenReuse.RefreshSucceedsIff | apps/api/src/modules/auth/auth.service.ts:217-254 | A refresh succeeds if and only if the token verifies and its session in the tenant is open; the expiry test on the row never decides |
| AuthOutcomes.RefusedRefreshOutcome | apps/api/src/modules/auth/auth.service.ts:217-254 | A refresh that issues no token is Unauthorized and changes the table if and only if the token verifies and its session in the tenant was revoked while its owner still had an open one |
| TokenReuse.IssuedTokenIsAccepted | apps/api/src/modules/auth/auth.service.ts:131-149 | Round trip: a token returned by login or refresh is accepted in that tenant for exactly its lifetime, counted from the second it was signed in |
| TokenReuse.RefreshRotates | apps/api/src/modules/auth/auth.service.ts:256-277 | A refresh revokes the presented session with a link to the one it opens, for the same user, under a different token; no other row is touched, added or removed |
| TokenReuse.RevokedForever | apps/api/src/modules/auth/auth.service.ts:238-249 | A token whose session has been revoked never refreshes again in any continuation, in any tenant |
| TokenReuse.ReuseRevokesTheFamily | apps/api/src/modules/auth/repositories/session.repository.ts:49-54 | Reuse is answered like any failure and revokes, at that moment, exactly the victim's open sessions |
| TokenReuse.ReuseKillsOldTokens | apps/api/src/modules/auth/auth.service.ts:238-249 | After reuse no refresh token issued before that moment ever works for the victim, whatever follows |
| TokenReuse.OnlyLoginRevives | apps/api/src/modules/auth/auth.service.ts:238-249 | Until the victim logs in again no token, old or new, refreshes a session of the victim |
| TokenReuse.ReplayIsAlwaysDetected | apps/api/src/modules/auth/repositories/session.repository.ts:87-102 | Presenting a revoked session's token while it verifies always triggers the response: clean-up of expired rows never hides it |
| Lockout.GuessesAreBounded | apps/api/src/modules/auth/auth.service.ts:108-124 | With no successful login, password comparisons in a run are at most 5 plus one per whole lockout duration |
| Lockout.GuessBoundIsReached | apps/api/src/modules/auth/auth.service.ts:152-159 | That bound is exact: for every k some run of k lockout durations makes 5 + k comparisons |
| Lockout.OwnerGetsIn | apps/api/src/modules/auth/auth.service.ts:108-150 | Whatever wrong guesses a run made, from fifteen minutes after its last call on the right password is accepted |
| AuthOutcomes.LoginOutcome | apps/api/src/modules/auth/auth.service.ts:81-159 | A login succeeds if and only if a live account of the tenant and email has a password hash, is not locked, and the password matches; a wrong password moves that account's counters alone, the lock from the fifth on; every other refusal, a locked account's included, changes nothing |
| SessionCounts.LoginOpensOneSession | apps/api/src/modules/auth/auth.service.ts:126-150 | A login clears the counters, opens one session for its token, evicts the oldest active one exactly at the limit, and touches nothing else |
| SessionCounts.RefreshIsCountNeutral | apps/api/src/modules/auth/auth.service.ts:268-275 | A refresh leaves every user's number of active sessions unchanged |
| SessionCounts.OtherCallsOnlyLower | apps/api/src/modules/auth/auth.service.ts:238-249 | Calls that issue no token, and passing time, only shrink a user's set of active sessions |
| SessionCounts.RevokeSessionIff | apps/api/src/modules/auth/auth.service.ts:359-373 | A caller closes exactly an active session of their own in their tenant, and never another user's |
| SessionCounts.LogoutClosesItsSession | apps/api/src/modules/auth/auth.service.ts:304-330 | A logout closes exactly the open session of a token that verifies, in its tenant; with no token, or one that does not verify, everything stays as it was |
| AuthService.AuthService.Login | apps/api/src/modules/auth/auth.service.ts:63-150 | The method performs one login transition (`AuthOutcomes.LoginOutcome`) with a truthful oldest session and keeps the invariant |
| AuthService.AuthService.Refresh | apps/api/src/modules/auth/auth.service.ts:203-278 | The method performs one refresh transition (`TokenReuse.RefreshSucceedsIff`, `AuthOutcomes.RefusedRefreshOutcome`) and keeps the invariant |
| AuthService.AuthService.Logout | apps/api/src/modules/auth/auth.service.ts:304-330 | The method performs one logout transition and keeps the invariant |
| AuthService.AuthService.RevokeSession | apps/api/src/modules/auth/auth.service.ts:359-373 | The method performs one revocation transition and keeps the invariant |
| AuthService.AuthService.RecordFailedAttempt | apps/api/src/modules/auth/auth.service.ts:152-159 | Adds one failure and, from the fifth on, sets the lock one lockout duration ahead |
| AuthService.AuthService.EnforceConcurrentSessionLimit | apps/api/src/modules/auth/auth.service.ts:161-170 | Revokes an oldest active session when the limit is reached, otherwise nothing |
| AuthService.AuthService.DeleteExpiredSessions | apps/api/src/modules/auth/repositories/session.repository.ts:98-102 | Deletes exactly the expired rows and nulls links to them |
| AuthOutcomes.CleanUpOutcome | apps/api/src/modules/auth/repositories/session.repository.ts:98-102 | What is left is exactly the rows that have not expired, each with its link if the row it leads to is left too |
| AuthOutcomes.CleanUpChangesNoReply | apps/api/src/modules/auth/repositories/session.repository.ts:87-102 | No refresh is ever answered otherwise because of a clean-up before it |
| AuthService.AuthService.FindUser | apps/api/src/modules/auth/repositories/auth.repository.ts:37-48 | Finds the live user of the tenant with this email in any case, or reports that there is none |
| AuthService.AuthService.FindSession | apps/api/src/modules/auth/repositories/session.repository.ts:29-31 | Finds the session of this token hash in this tenant, revoked or not, or reports that there is none |
| LedgerInvariant.MoneyIsConserved | apps/api/src/modules/billing/payment.service.ts:50-95 | In every run a tenant's recorded payments on invoices equal its allocations and never exceed the payments it received |
| LedgerInvariant.EveryRowBalances | apps/api/src/modules/billing/payment.service.ts:138-182 | In every run each invoice's amountPaid equals the sum of its allocations, within 0 and its total, and no payment is over-allocated |
| LedgerInvariant.StepKeepsOk | apps/api/src/modules/billing/payment.service.ts:50-233 | Every call, refused or accepted, keeps the ledger balanced, its numbers contiguous and its totals consistent |
| LedgerInvariant.TenantFilterIsHarmless | apps/api/src/modules/billing/repositories/payment.repository.ts:61-72 | The tenant filter of the allocation sum leaves out nothing: a payment's allocations are all of its own tenant |
| LedgerInvariant.AllocateMovesMoney | apps/api/src/modules/billing/payment.service.ts:138-182 | An accepted allocation takes the same positive cents off the payment and off the invoice and moves nothing else |
| LedgerInvariant.RecordAllocatesInFull | apps/api/src/modules/billing/payment.service.ts:70-92 | A payment recorded against an invoice is allocated to it in full |
| BillingOutcomes.RecordOutcome | apps/api/src/modules/billing/payment.service.ts:50-79 | A payment is created if and only if the method is given, the amount positive, the invoice (if any) the tenant's, not void and owing that much, and the stored amount fits; any refusal leaves the ledger as it was |
| BillingOutcomes.RecordedRow | apps/api/src/modules/billing/payment.service.ts:70-92 | A created payment is the last row, under the id answered, with the tenant, invoice, method and nearest cents; without an invoice no invoice or allocation moves, with one exactly one of each does |
| BillingOutcomes.RecordIsReceived | apps/api/src/modules/billing/payment.service.ts:70-79 | What the tenant has received rises by exactly the stored amount of a created payment, and nobody else's moves |
| BillingOutcomes.AllocateOutcome | apps/api/src/modules/billing/payment.service.ts:138-182 | An allocation is accepted if and only if the payment is the tenant's with that much left and the invoice owes it, and it does not round to nothing; then it is written and the one invoice credited, otherwise nothing is |
| InvoiceLife.RunDevelops | apps/api/src/modules/billing/invoice.service.ts:203-279 | Over any run items and subtotal never change; once out of DRAFT tax, total and due date are frozen and DRAFT never returns; VOID and PAID rows are frozen entirely |
| InvoiceLife.StatusMachine | apps/api/src/modules/billing/invoice.service.ts:238-273 | In one call a status stays or makes a listed move by the call meant for it: issue to SENT, void to VOID, a payment that fills the balance to PAID |
| InvoiceLife.IssueAndVoidSucceedIff | apps/api/src/modules/billing/invoice.service.ts:238-273 | In a balanced ledger issuing succeeds exactly on a DRAFT and voiding exactly on an unpaid, unvoided invoice: no CHECK ever refuses them |
| InvoiceLife.DraftBillsTheOrder | apps/api/src/modules/billing/invoice.service.ts:89-135 | A new invoice has one item a line, their line totals as subtotal and the half-up tax on it at the tenant's rate |
| InvoiceLife.TotalsInEveryRun | apps/api/src/modules/billing/invoice.service.ts:107-114 | Always total = subtotal + tax - discount with subtotal the sum of the items, and PAID implies paid in full |
| FullyPaid.StepKeepsMarksIff | apps/api/src/modules/billing/payment.service.ts:222-233 | Every call on a ledger where fully paid implies PAID keeps that, if and only if it is none of the three calls that break it, each told by its own guard before the call |
| FullyPaid.MarkedThroughoutIff | apps/api/src/modules/billing/payment.service.ts:222-233 | In a run fully paid implies PAID at every moment if and only if no call of the run was one of those three |
| FullyPaid.CreditMarksPaidIff | apps/api/src/modules/billing/payment.service.ts:222-233 | A credit marks PAID exactly when the exact amount is the balance; it leaves a fully paid invoice unmarked exactly when rounding filled the balance |
| FullyPaid.HalfCentIsNeverMarked | apps/api/src/modules/billing/payment.service.ts:227-228 | Counterexample: a run that bills one cent and records half a cent ends fully paid and unmarked |
| FullyPaid.UpdateKeepsFullyPaidIff | apps/api/src/modules/billing/invoice.service.ts:213-221 | An accepted tax change keeps it exactly when the new total differs from what was paid |
| FullyPaid.UpdateLandsOnWhatWasPaid | apps/api/src/modules/billing/invoice.service.ts:213-221 | Counterexample: the price paid without its tax, then the tax taken off |
| FullyPaid.CreatedIsMarkedIff | apps/api/src/modules/billing/invoice.service.ts:107-135 | An invoice just created is marked truthfully exactly when subtotal plus tax is positive |
| FullyPaid.NothingToPayIsNeverMarked | apps/api/src/modules/billing/invoice.service.ts:107-135 | Counterexample: an order for nothing, whose invoice is created and issued fully paid and unmarked |
| FullyPaid.OtherRewritesKeepEveryMark | apps/api/src/modules/billing/invoice.service.ts:238-273 | Issuing, voiding and an update without a tax rate keep it on every row |
| InvoiceLife.UpdateRefusedIff | apps/api/src/modules/billing/payment.service.ts:32-36 | A tax change is refused by the database exactly when the new total is below what was paid or does not fit the column; then nothing changes |
| BillingOutcomes.UpdateOutcome | apps/api/src/modules/billing/invoice.service.ts:203-234 | An update is accepted exactly on a draft of the tenant, with a known rate, whose new total covers what was paid and fits; it rewrites rate, tax, total and due date, each only if given, of that row alone |
| BillingOutcomes.IssueAndVoidOutcome | apps/api/src/modules/billing/invoice.service.ts:238-273 | In a balanced ledger issuing stamps status and date of one draft, voiding the status of one unpaid invoice, and nothing else; otherwise not found or bad request |
| BillingOutcomes.CreateOutcome | apps/api/src/modules/billing/invoice.service.ts:68-147 | Creating is a bad request exactly for an unknown order or rate, refused exactly when a CHECK refuses the draft, a conflict exactly when every attempt met a rival, and otherwise creates |
| BillingOutcomes.CreatedRow | apps/api/src/modules/billing/invoice.service.ts:116-135 | A created invoice is the last row, under the id answered: the draft with the next number of its tenant and year; payments and allocations stay |
| InvoiceLife.BatchEqualsPerLine | apps/api/src/modules/billing/invoice.service.ts:81-105 | The one batched variant lookup prepares the same items as one lookup per order line |
| NumberingRace.NoGapsInEveryInterleaving | apps/api/src/modules/billing/invoice.service.ts:281-285 | However many requests count and insert at once, in any order, the invoices of a tenant and year carry exactly the numbers from 1 on, each once and without a gap |
| NumberingRace.NumbersUniqueInEveryInterleaving | apps/api/src/modules/billing/invoice.service.ts:281-285 | Nor do two invoices of a tenant from different years ever carry the same number |
| NumberingRace.TakenIffRivalCommitted | apps/api/src/modules/billing/invoice.service.ts:117-141 | In every interleaving a printed number is taken exactly when a row of the same tenant and year was committed since the count; nothing is assumed of the others |
| NumberingRace.ServedAsIfAlone | apps/api/src/modules/billing/invoice.service.ts:117-135 | A served creation appends its row as if it had counted and inserted in one step |
| NumberingRace.OneRowPerSuccess | apps/api/src/modules/billing/invoice.service.ts:116-147 | The rows that a tenant's year gains are exactly its requests that reported success |
| NumberingRace.ConflictMeansFiveServed | apps/api/src/modules/billing/invoice.service.ts:140-147 | A request gives up only after at least five others of its tenant and year were served |
| NumberingRace.FiveNeverConflict | apps/api/src/modules/billing/invoice.service.ts:116-147 | In a run of at most five requests nobody gives up |
| NumberingRace.SixCanConflict | apps/api/src/modules/billing/invoice.service.ts:116-147 | Both bounds are exact: in some run of six requests one loses to each of the five others and gives up |
| InvoiceNumbering.RetryOutcome | apps/api/src/modules/billing/invoice.service.ts:116-147 | The bounded retry succeeds exactly when some attempt meets no rival, then adds one row under the next number; otherwise it reports a conflict and adds nothing |
| InvoiceNumbering.SequentialCreateNeverRetries | apps/api/src/modules/billing/invoice.service.ts:116-147 | Without concurrent requests the first attempt succeeds |
| InvoiceNumber.FormatInjective | apps/api/src/modules/billing/invoice.service.ts:281-285 | The padded number printer is injective in year and sequence, beyond five digits too |
| InvoiceNumber.FormatReadsBack | apps/api/src/modules/billing/invoice.service.ts:281-285 | A number prints as INV, the year and the sequence, on five digits exactly up to 99999, and both read back as they were |
| Tax.TaxIsHalfUp | apps/api/src/modules/billing/tax.service.ts:100-102 | The tax is the unique number of cents within half a cent of the exact product, ties up |
| Tax.TaxWithinSubtotal | apps/api/src/modules/billing/tax.service.ts:100-102 | For rates from 0 to 100 percent the tax lies between zero and the subtotal |
| Tax.TaxMonotone | apps/api/src/modules/billing/tax.service.ts:100-102 | The tax is monotone in subtotal and rate |
| BillingService.PaymentService.Record | apps/api/src/modules/billing/payment.service.ts:50-95 | The method performs one record transition (`BillingOutcomes.RecordOutcome`, `RecordedRow`), all rows or none, and keeps the ledger balanced |
| BillingService.PaymentService.RecordInTransaction | apps/api/src/modules/billing/payment.service.ts:70-92 | The three writes of a payment are all kept or all undone |
| BillingService.PaymentService.Allocate | apps/api/src/modules/billing/payment.service.ts:138-182 | The method performs one allocation transition and keeps the ledger balanced |
| BillingService.PaymentService.ApplyAllocation | apps/api/src/modules/billing/payment.service.ts:222-233 | Writes the allocation and the credited invoice, and reports whether the database accepts both |
| BillingService.InvoiceService.CreateFromOrder | apps/api/src/modules/billing/invoice.service.ts:68-147 | The method performs one creation transition against any rivals and keeps the ledger balanced |
| BillingService.InvoiceService.InsertWithNumber | apps/api/src/modules/billing/invoice.service.ts:116-147 | The counting, printing and inserting loop does what the retry specification says |
| BillingService.InvoiceService.Update | apps/api/src/modules/billing/invoice.service.ts:203-234 | The method performs one update transition and keeps the ledger balanced |
| BillingService.InvoiceService.Issue | apps/api/src/modules/billing/invoice.service.ts:238-253 | The method performs one issue transition and keeps the ledger balanced |
| BillingService.InvoiceService.Void | apps/api/src/modules/billing/invoice.service.ts:258-273 | The method performs one void transition and keeps the ledger balanced |
| TenantIsolation.EveryOperationRunsAsItsTenant | apps/api/src/database/prisma.service.ts:191-224 | Under every interleaving each operation runs under exactly its request's tenant, an empty id being none, inside a transaction unless it is a model call without one, and reads only that tenant's rows |
| TenantIsolation.TransactionsCarryTheirTenant | apps/api/src/database/prisma.service.ts:257-286 | A transaction carries no setting until its tenant is set, and then exactly its own request's |
| TenantIsolation.OneConnectionEach | apps/api/src/database/prisma.service.ts:207-218 | A request in a transaction holds exactly one connection, and no two hold the same |
| TenantIsolation.TenantsAreIsolated | apps/api/prisma/migrations/20260717091500_row_level_security/migration.sql:145-149 | A tenant's rows are what its own committed requests made them, as if no other tenant existed |
| TenantIsolation.WholeRequestsCommit | apps/api/src/database/prisma.service.ts:257-296 | The table is always the serial effect of the commits, each of which is all the writes of one callback that ran to its end, its operations chosen by what it read |
| TenantIsolation.OwnOperationsAreAdmitted | apps/api/prisma/migrations/20260717091500_row_level_security/migration.sql:145-149 | A request that has its tenant set is let through exactly for its own tenant's rows |
| TenantInvariant.DirectWritesNothing | apps/api/src/database/prisma.service.ts:195-198 | A model call without a tenant passes through unwrapped and can neither write nor see a tenant's row |
| TenantInvariant.StepKeepsInv | apps/api/src/database/prisma.service.ts:191-224 | Every step keeps transactions owned, settings local, programs followed and successes committed |
| SettingScope.NothingLeaksIffLocal | apps/api/src/database/prisma.service.ts:209-213 | No run leaves a setting on an idle connection if and only if `set_config` is called with `true` as its last argument |
| SettingScope.SessionSettingLeaks | apps/api/src/database/prisma.service.ts:284-288 | Counterexample without it: after one tenant's read an idle connection answers as that tenant |
| SettingScope.LeakedSettingIsUsed | apps/api/src/database/prisma.service.ts:284-288 | Whoever begins on such a connection without a tenant reads that tenant's rows |
| CommitOnce.ReportTruthfulIff | apps/api/src/database/prisma.service.ts:199-220 | Whatever aborts and retries there were, a request has committed once if it reports success and not at all if not, if and only if no acknowledgement of its commits was lost |
| CommitOnce.CommitsExactlyOnce | apps/api/src/database/db-transaction-retry.ts:22-26 | If a throwing attempt commits nothing, a request commits exactly once or not at all, within three attempts; which attempts are tried again is `FailedAttempts.FailureReportedIff` |
| FailedAttempts.FailedAttemptBecomes | apps/api/src/database/db-transaction-retry.ts:51-79 | A failed attempt is followed by the next one if and only if its error is transient, no statement timeout, and fewer than three were made; otherwise its request fails; an abort leaves rows and commits alone and frees its connection |
| FailedAttempts.FailureReportedIff | apps/api/src/database/db-transaction-retry.ts:34-79 | In every run a request reports failure if and only if the last of its errors was not worth another attempt, and all errors before that one were |
| FailedAttempts.AbortedCanSucceedIff | apps/api/src/database/prisma.service.ts:206-220 | After an abort the request can still succeed if and only if the error is transient, no statement timeout, and an attempt is left; provided that its program completes |
| FailedAttempts.RefusedCanSucceedIff | apps/api/src/database/prisma.service.ts:280-294 | The same when the transaction could not be opened, given a connection that is free afterwards |
| FailedAttempts.DeadlockCountsOnce | apps/api/src/utils/prisma-error.util.ts:96-101 | Input: a counter whose first attempt ends in a deadlock (40P01) succeeds on its second and has counted once |
| CommitOnce.AtMostOnceUnlessRetried | apps/api/src/database/db-transaction-retry.ts:40-79 | A request commits at most once in any run in which no attempt that took effect was retried |
| CommitOnce.LostModelCallRepeatsIff | apps/api/src/utils/prisma-error.util.ts:101-134 | After a model call's commit whose acknowledgement was lost, it can commit again if and only if the reported error is retried |
| CommitOnce.LostCommitRepeatsIff | apps/api/src/utils/prisma-error.util.ts:101-134 | The same of any callback whose program, run again over the table it has just changed, completes |
| CommitOnce.ResetCountsTwice | apps/api/src/utils/prisma-error.util.ts:134 | Counterexample to retrying being safe: ECONNRESET during the commit of a counter's increment, one success, two increments |
| PrismaClient.ExactlyOneLevelIffPlain | apps/api/src/database/prisma.service.ts:61-80 | A call on a replaced delegate opens exactly one transaction level, on any pool, if and only if the opener's own delegate is plain; if that one is wrapped it exhausts the pool |
| PrismaClient.PatchedOpenerRecursesRawOneDoesNot | apps/api/src/database/prisma.service.ts:61-80 | So the patched client as its own opener recurses and a separate generated client does not |
| PrismaClient.NoPlainDelegateIsLeft | apps/api/src/database/prisma.service.ts:226-232 | After patching no delegate of the client is left unwrapped, and nothing else is wrapped |
| PrismaClient.PrismaService.constructor | apps/api/src/database/prisma.service.ts:226-232 | The patching loop replaces exactly the delegates that the extension has, never a client method or the raw client |
| ClientRecursion.ServedIffPlain | apps/api/src/database/prisma.service.ts:207-220 | A tenant's model call can ever be served if and only if the opener's delegate is plain |
| ClientRecursion.PlainOpenerNeverNests | apps/api/src/database/prisma.service.ts:61-80 | On an unpatched opener no call ever waits for another: one transaction a request |
| ClientRecursion.OneCallTakesThePool | apps/api/src/database/prisma.service.ts:70-77 | On a patched opener one model call can take every connection of a pool of any size |
| ClientRecursion.RunsInPlaceIffOneLevel | apps/api/src/database/prisma.service.ts:207-220 | The stepwise machine nests exactly when the count of levels exhausts the pool |
| TransactionRetry.WithTransactionRetry | apps/api/src/database/db-transaction-retry.ts:34-79 | Stops at the first success, timeout, permanent error or exhaustion, within max(1, maxAttempts); reports that attempt and leaves what the attempts left; records and waits once per retry |
| TransactionRetry.ReportTrueIff | apps/api/src/database/db-transaction-retry.ts:22-26 | A success stands for exactly one committed attempt and an error for none, if and only if no attempt threw after its commit took effect |
| TransactionRetry.OneAtomicTransaction | apps/api/src/database/db-transaction-retry.ts:22-26 | If a throwing attempt commits nothing, the loop is one atomic transaction: the last attempt's commit on the original database, or that database unchanged |
| TransactionRetry.ResetChangesTwice | apps/api/src/database/db-transaction-retry.ts:22-26 | Counterexample: ECONNRESET after the first commit, one success and two changes |
| TransactionRetry.StoppingAttemptUnique | apps/api/src/database/db-transaction-retry.ts:40-79 | The attempt at which the loop stops is unique, so that contract fixes the outcome |
| TransactionRetry.LastMetricTells | apps/api/src/database/db-transaction-retry.ts:40-76 | What is recorded last tells how the loop ended: exhausted exactly when all allowed attempts failed transiently, timed out exactly on a statement timeout, a success after retries exactly when there were any |
| TransactionRetry.DatabaseRetriesAreQuick | apps/api/src/database/db-transaction-retry.ts:13-17 | The default database policy waits at most 60 ms in all |
| PrismaErrors.OwnCodesRetriedIff | apps/api/src/utils/prisma-error.util.ts:107-135 | An error with one of Prisma's own codes is retried only when it is also a driver adapter error with a retryable cause, so never one of the class that carries these codes |
| PrismaErrors.WrappingDoesNotMatter | apps/api/src/utils/prisma-error.util.ts:58-81 | A driver cause is judged the same bare or nested in a failed raw query |
| PrismaErrors.CodesRetriedIff | apps/api/src/utils/prisma-error.util.ts:96-149 | By code alone 40001, 40P01 and 57P01 are transient, bare or from the adapter, and a bare ECONNRESET; 57014 and nothing else is a statement timeout and never transient |
| InMemoryCache.ReadsMatchHistory | apps/api/src/cache/in-memory-cache.store.ts:21-51 | After any history in time order a read returns the latest surviving set exactly while now < setTime + ttl |
| InMemoryCache.PrefixDeletionIsPrecise | apps/api/src/cache/in-memory-cache.store.ts:41-47 | Prefix deletion hides precisely the matching keys from every later read |
| InMemoryCache.SizeCoversVisible | apps/api/src/cache/in-memory-cache.store.ts:53-55 | The size counts at least every key still visible |
| InMemoryCache.ClockSetBackForgets | apps/api/src/cache/in-memory-cache.store.ts:26-29 | Time order is needed: with a clock set back a read can miss a value the history still holds |
| InMemoryCache.InMemoryCacheStore.Get | apps/api/src/cache/in-memory-cache.store.ts:21-31 | Answers the unexpired entry and deletes an expired one |
| InMemoryCache.InMemoryCacheStore.Set | apps/api/src/cache/in-memory-cache.store.ts:33-35 | Stores the value until now + ttl |
| InMemoryCache.InMemoryCacheStore.DeleteByPrefix | apps/api/src/cache/in-memory-cache.store.ts:41-47 | The deleting loop removes exactly the keys with the prefix |
| ReadThrough.ReturnedValuesAreFresh | apps/api/src/cache/cache.service.ts:89-99 | In every interleaving with failing store operations a hit was loaded for that key by a finished call and stored less than its ttl ago, a miss was loaded by this call |
| CacheService.CacheService.GetOrLoad | apps/api/src/cache/cache.service.ts:89-99 | Over an unchanged source the value is the uncached one whatever fails; hit and miss are counted and a miss is stored |
| CacheService.FaultsNeverLie | apps/api/src/cache/redis-cache.store.ts:40-78 | After any sequence of fills and invalidations, each failing as it likes, a read answers nothing or exactly what the source would |
| CacheService.FilledForItsLifetime | apps/api/src/cache/redis-cache.store.ts:50-56 | A fill that reaches the server answers exactly while now < storedAt + ttl, one that does not changes nothing, whatever uses of other keys follow |
| CacheService.ForgottenUntilFilled | apps/api/src/cache/redis-cache.store.ts:58-64 | A deleted key answers nothing until it is filled again; a lost deletion changes nothing |
| CacheService.RedisCacheStore.DeleteByPrefix | apps/api/src/cache/redis-cache.store.ts:69-78 | Deletes what the scan brought up and the glob matches; for a literal prefix nothing else; invalidating never makes the store lie |
| CacheService.ScanDropsThePrefix | apps/api/src/cache/redis-cache.store.ts:69-78 | For a literal prefix a complete scan deletes exactly what the in-memory store would |
| GlobPattern.PatternMeansPrefixIff | apps/api/src/cache/redis-cache.store.ts:71 | The pattern matches exactly the keys with the prefix if and only if the prefix holds no star, question mark, opening bracket or backslash |
| GlobPattern.ClassMatchesOthers | apps/api/src/cache/redis-cache.store.ts:71 | Counterexample: a prefix with a character class deletes a key that lacks it and spares one that has it |
| CacheService.KeyPrefixDoesNotMatter | apps/api/src/cache/redis-cache.store.ts:10 | What the store puts in front of every key and pattern changes no match |
| CacheService.RedisCacheStore.ScanKeys | apps/api/src/cache/redis-cache.store.ts:100-109 | Collects exactly the matching keys of all batches |
| CacheKeys.KeysUniquelyDecodable | apps/api/src/modules/admin/dashboard.service.ts:114 | Role, slug, id and dashboard keys decode to the question they were built from, ISO colons included |
| CacheKeys.KeysNeverCollide | apps/api/src/authorization/authorization.service.ts:115 | Two questions share a key only when they are the same up to the case of the email |
| CacheKeys.ColonInTenantCollides | apps/api/src/authorization/authorization.service.ts:115 | Colon-free tenant ids are needed: with a colon two tenants share a key |
| Directory.SameKeySameAnswer | apps/api/src/authorization/authorization.service.ts:113-119 | Questions that share a key have the same uncached answer, because the role lookup ignores case |
| Directory.RoleHeldIff | apps/api/src/authorization/repositories/role.repository.ts:39-55 | A user holds exactly the live roles of the tenant that a live user row of the tenant with this email, in any case, was given |
| Authorization.PermissionKeysAreUnionOfGrants | apps/api/src/authorization/authorization.service.ts:83-91 | Permission keys are the duplicate-free union of what the roles grant in the tenant |
| Authorization.PermissionHeldIff | apps/api/src/authorization/authorization.service.ts:68-92 | Over the rows: a key is held if and only if a live role of the tenant, given to a live user of it, grants it in the tenant |
| Authorization.NoRolesNoPermissions | apps/api/src/authorization/authorization.service.ts:77-81 | The early return for a user without roles gives what the query would |
| Authorization.AuthorizationService.LoadRoles | apps/api/src/authorization/authorization.service.ts:108-121 | Through both cache levels the roles are the uncached ones; a filled request cache asks nothing |
| Authorization.AuthorizationService.ResolveRoleKeys | apps/api/src/authorization/authorization.service.ts:59-66 | Role keys equal the uncached ones |
| Authorization.AuthorizationService.ResolvePermissionKeys | apps/api/src/authorization/authorization.service.ts:68-92 | Permission keys equal the uncached ones |
| Authorization.PermissionsGuardCanActivate | apps/api/src/common/guards/permissions.guard.ts:33-81 | Allows if and only if the source grants every required permission |
| Authorization.RolesGuardCanActivate | apps/api/src/common/guards/roles.guard.ts:48-94 | Allows if and only if nothing is required or the user holds a required role |
| RevokedRoles.RolesAreRecent | apps/api/src/authorization/authorization.service.ts:108-121 | Over a changing directory, under any interleaving and any store failures, resolved roles are what the directory held at one moment within the cache lifetime plus one load of now |
| RevokedRoles.RolesGuardForgets | apps/api/src/common/guards/roles.guard.ts:48-94 | A cache lifetime plus one load after a revocation the roles guard refuses |
| RevokedRoles.PermissionsGuardForgets | apps/api/src/common/guards/permissions.guard.ts:33-81 | So does the permissions guard, whose grants are read later than the roles, once no role still held is granted the permission |
| RevokedRoles.HonouredUntilThen | apps/api/src/authorization/authorization.service.ts:108-121 | That bound is exact: for every load time some run still resolves the revoked role one moment earlier |
| RevokedRoles.FreshDecisions | apps/api/src/common/guards/permissions.guard.ts:50-59 | With up-to-date roles these are the decisions of the two guards |
| TenantResolver.TenantResolver.Resolve | apps/api/src/tenant/tenant-resolver.service.ts:91-128 | The cached first-match resolution (`FirstMatchWins`) equals the uncached one, whatever the cache does at each lookup |
| TenantResolver.FirstMatchWins | apps/api/src/tenant/tenant-resolver.service.ts:91-128 | Hostname if and only if some live row has its slug; header if and only if none has and some live row has its id; default if and only if neither, in development, and live; otherwise nothing |
| TenantResolver.HeaderIsTrimmed | apps/api/src/tenant/tenant-resolver.service.ts:159-162 | The header gives its first text without the space around it, if anything is left |
| TenantResolver.ResolvedTenantIsLive | apps/api/src/tenant/tenant-resolver.service.ts:54-79 | A resolved tenant is active, matches the candidate of its source, and is the default only in development |
| TenantResolver.CandidateIsLeftmostLabel | apps/api/src/tenant/tenant-resolver.service.ts:138-154 | For every hostname the candidate is exactly what stands before the first dot of a non-IPv4 name with at least two dots, otherwise there is none |
| TenantResolver.Ipv4Iff | apps/api/src/tenant/tenant-resolver.service.ts:131 | A name counts as an IPv4 address exactly when it is four groups of one to three digits joined by dots |
| TenantResolver.SplitJoins | apps/api/src/tenant/tenant-resolver.service.ts:146 | Splitting gives separator-free parts that join back to the name |
| Basics.LowerDecidesSameIgnoringCase | apps/api/src/authorization/authorization.service.ts:115 | Comparing lower-cased emails is the same test as comparing without case |
| Jobs.JobRunner.Run | apps/api/src/jobs/job-runner.service.ts:40-95 | Stops at the first success or after max(1, maxAttempts) failures, and then dead-letters exactly once with the last context and error |
| Jobs.InMemoryDeadLetterStore.Record | apps/api/src/jobs/in-memory-dead-letter.store.ts:28-31 | Appends the entry and keeps the gauge at the length |
| Jobs.InMemoryDeadLetterStore.Clear | apps/api/src/jobs/in-memory-dead-letter.store.ts:37-40 | Empties the store and keeps the gauge at the length |
| RetryPolicy.TotalDelayBound | apps/api/src/jobs/retry-policy.ts:27-30 | All waits together are at most base*(2^(a-1)-1) and at most (a-1)*cap |
| RetryPolicy.TotalDelayUncapped | apps/api/src/jobs/retry-policy.ts:27-30 | The geometric bound is exact while the cap cuts no wait short |
| RetryPolicy.DelaysNeverShrink | apps/api/src/jobs/retry-policy.ts:27-30 | Waits never shrink and never exceed the cap |
| RetryPolicy.WaitsDouble | apps/api/src/jobs/retry-policy.ts:27-30 | The first wait is the base, each further one twice the one before, up to the cap |
| Html.FivePassesAreOne | apps/api/src/utils/html.util.ts:5-12 | The five successive replacements equal one substitution per character |
| Html.EscapedInPlace | apps/api/src/utils/html.util.ts:5-12 | Each of the five characters becomes its own entity wherever it stands; every other character, and all around it, stays |
| Html.UnescapeInverts | apps/api/src/utils/html.util.ts:5-12 | A matching unescape inverts escaping on all strings |
| Html.EscapeInjective | apps/api/src/utils/html.util.ts:5-12 | Distinct texts never escape to the same text |
| Html.EscapedIffWellEscaped | apps/api/src/utils/html.util.ts:5-12 | A text is an output if and only if it has no raw angle bracket or quote and every ampersand begins one of the five entities |
| Redaction.FormatNonInterference | apps/api/src/logging/formatters/json-log-formatter.ts:40-73 | Entries equal except under sensitive keys, at any depth, through arrays, objects and Errors, print the same line |
| LogLines.LinesEqualIff | apps/api/src/logging/formatters/json-log-formatter.ts:40-73 | Two entries print the same line if and only if what redaction leaves of them is the same, up to members JSON leaves out |
| LogLines.LinesHideOnlySensitive | apps/api/src/logging/formatters/json-log-formatter.ts:40-73 | Where JSON leaves nothing out they do if and only if they agree outside sensitive keys: the line hides all of that and nothing else |
| LogLines.ValuesReadBack | apps/api/src/logging/formatters/json-log-formatter.ts:40-52 | The printed JSON text can be read in one way only |
| Redaction.RedactEqualIff | apps/api/src/logging/formatters/json-log-formatter.ts:59-73 | Redaction identifies two values exactly when they agree outside sensitive keys, at any depth |
| Redaction.StringifyPrintsRedacted | apps/api/src/logging/formatters/json-log-formatter.ts:40-52 | Replacing while serializing prints the tree redacted beforehand |
| Redaction.RedactLeavesNothing | apps/api/src/logging/formatters/json-log-formatter.ts:59-73 | No sensitive key at any depth keeps any value but the marker |
| Redaction.SensitiveKeyIff | apps/api/src/logging/formatters/json-log-formatter.ts:20-34 | A key is sensitive exactly when one of the eight words stands in it, anywhere and in any case |
| Redaction.RedactKeepsTheRest | apps/api/src/logging/formatters/json-log-formatter.ts:68-72 | A tree with nothing sensitive and no Error is left as it stands |
| Redaction.SensitiveValueNeverShows | apps/api/src/logging/formatters/json-log-formatter.ts:59-62 | Changing the value under a sensitive key anywhere in an object changes no output |

## Left out

- Interleaving inside one auth call: two refreshes of one token whose reads precede both writes can both succeed; calls are atomic here, and the chain property belongs to sequential calls.
- Interleaving inside one payment call: the balance is read before the transaction begins; calls are atomic here.
- AuthService.AuthService.DeleteExpiredSessions: the scheduler and the count it returns are not modelled.
- CacheService.RedisCacheStore.ScanKeys: which keys a Redis scan brings up depends on the server.
- CacheService.FaultsNeverLie: values are stored as they are, so what JSON does to dates inside a cached row is not captured.
- TransactionRetry.WithTransactionRetry: an attempt's effects outside the database, which a retry would repeat, are not modelled.
- TenantIsolation.EveryOperationRunsAsItsTenant: raw SQL and the array form of `$transaction` are outside the hook and not modelled.
- TenantIsolation.WholeRequestsCommit: reads are of committed rows at the time of each read, as under READ COMMITTED; locks and serialization failures are aborts.
- ClientRecursion.ServedIffPlain: a model's name is taken as the name of its property on every client.
- TenantResolver.CandidateIsLeftmostLabel: lower-casing and trimming are ASCII.
- Basics.LowerDecidesSameIgnoringCase: lower-casing is ASCII; beyond it the program's and the database's case rules differ.
- Redaction.StringifyPrintsRedacted: objects with `toJSON`, non-integer numbers, lone surrogates and cyclic values are not modelled.
- NumberingRace.NumbersUniqueInEveryInterleaving: the year is fixed for one call, so a call that spans New Year is not captured.
- Cache metric labels (`cacheNamespace`): one expression.
- Access tokens, MFA (a no-op in the code), audit and log records, session listing, pagination and list filters: no state to reason about.
- A session whose lifetime is not positive: configuration rejects such a lifetime.
- Invoices that are created outside `createFromOrder` or soft-deleted, and the OVERDUE status, which no code here sets.
- `refundPlaceholder`, tax rate maintenance, `findManyAndCount`, the Redis `clear` and `size`: single-branch members, or agreement the code gives up on purpose.
- Controllers, DTO validation, module wiring, real I/O, PDF layout, the web application: not part of this model.
