# Contractor ledger: settlement, deposits and reports

This project models the business logic of a small contractor ledger. Profiles
are clients or contractors with a balance. Contracts link a client to a
contractor. Jobs belong to a contract, have a price, and are either paid
(with a payment date) or unpaid. The request handlers in `src/app.js` are
modelled over an in-memory store of three tables keyed by integer id:

- `Entities.Db` holds the store as a value. `Entities.Consistent` is what
  the model assumes of every store: prices are positive and every foreign
  key resolves. No handler writes a price or a foreign key. `Entities.WellFormed`
  adds that no balance is negative. It is the invariant that settlement and
  the corrected deposit preserve; the deposit as written does not (see
  Findings).
- `Ledger.Store` is a class whose three table fields are updated in place by
  its two state-changing requests: paying a job and depositing into a balance.
  Each request works on the transaction's copy of the tables and writes them
  back only when every step has succeeded.
- `Queries` holds the selection rules the handlers share. It picks the
  contract column that ties a contract to the acting profile, filters active
  contracts and unpaid jobs, and computes the client's outstanding total that
  bounds deposits.
- `Settlement.Pay` is the pay request as a function from a store to a response
  and a new store. `Ledger.Store.PayJob` is proved equal to it. Lemmas prove
  what the request promises about `Pay`:
  - the sum of balances is conserved;
  - no balance goes negative;
  - a job is paid at most once;
  - a failure changes nothing.
- `Deposits` holds the deposit guard. It refuses the deposit when nothing is
  owed, or when the deposit exceeds a quarter of what is owed. It also holds
  the credit that follows.
- `Reports` holds the two administrative reports: the profession that earned
  the most, and the clients that paid the most, each optionally restricted to
  a payment-date window.
- `Tables` holds the folds the SQL aggregates need, over `map<int, int>`:
  - `Sum`, the `SUM(price)` of a group;
  - `ArgMax`, the first row of an `ORDER BY total DESC`;
  - `TopK`, the same ordering cut at `LIMIT`.

Money is an exact integer. The handler's `deposit > totalUnpaid * 0.25` is
compared as `4 * amount > total`. The ceiling in the error message is the
exact `total / 4` as a `real`.

The acting profile is an input `Actor(id, kind)`. The payment time `now` and
the report window bounds are parameters.

Row locking is the parameter `locked`: the set of job rows that concurrent
transactions hold at the moment of the lookup. The lookup skips locked rows,
as `skipLocked` does, so a locked row answers exactly like a missing one.

## Model

| member | source | states |
|---|---|---|
| Queries.OwnerColumn | src/app.js:16-18 | the owner column is `ClientId` exactly when the profile type is `client`, and `ContractorId` for every other type |
| Queries.OwnedByRole | src/app.js:29-31 | a client reaches a contract only through its ClientId; every other profile only through its ContractorId |
| Queries.FindContract | src/app.js:12-24 | the single lookup finds the contract with that id exactly when the acting profile owns it, and returns that row; otherwise nothing (404) |
| Queries.ActiveContracts | src/app.js:26-34 | every listed contract is a stored row, is not terminated, and is owned by the acting profile |
| Queries.ActiveContractsAreFoundOnes | src/app.js:12-34 | a contract is in the active listing if and only if the single lookup finds it and it is not terminated |
| Queries.UnpaidJobs | src/app.js:36-52 | every listed job is a stored row whose paid is not true, on an existing contract that is not terminated and is owned by the acting profile |
| Queries.UnpaidJobsOnActiveContracts | src/app.js:39-49 | a job is in the unpaid listing if and only if it is unpaid and its contract is in the active listing |
| Queries.UnpaidTotal | src/app.js:111-133 | `SUM(price)` over the client's unpaid jobs on active contracts; an empty selection (SQL NULL) counts as 0, so it is refused as no debt |
| Queries.UnpaidTotalIsClientListing | src/app.js:111-129 | the deposit guard's total is the sum of prices over exactly the jobs the unpaid listing shows that user acting as a client |
| Queries.UnpaidTotalSign | src/app.js:111-131 | with positive prices the outstanding total is never negative, and it is zero if and only if no unpaid job on an active contract of the client exists |
| Queries.UnpaidTotalHasClient | src/app.js:126-137 | a non-zero outstanding total implies the target profile exists, so the increment finds its row |
| Settlement.Adjust | src/app.js:80-90 | an increment or decrement changes exactly one balance, by exactly the delta, and no other row or key |
| Settlement.AdjustTotal | src/app.js:80-90 | adjusting one existing balance by a delta changes the sum of all balances by exactly that delta |
| Settlement.Debit | src/app.js:80-89 | the conditional decrement succeeds if and only if the payer's row exists and its balance covers the price, and then lowers exactly that balance by the price |
| Settlement.MarkPaid | src/app.js:91-94 | the conditional update matches if and only if the job exists unpaid; it then sets paid and the payment date and keeps price, contract and every other row |
| Settlement.Pay | src/app.js:54-103 | a failed request leaves the store unchanged; the request succeeds if and only if the actor is a client, the job is payable to it and not locked, and its balance covers the price |
| Settlement.PayErrors | src/app.js:60-89 | each refusal names its check: Forbidden for a non-client, JobNotFound when the lookup yields no row, InsufficientFunds when the balance falls short |
| Settlement.TransferConserves | src/app.js:80-90 | debiting one balance and crediting another by the same amount leaves the sum of all balances unchanged |
| Settlement.PayConservesFunds | src/app.js:63-96 | every pay request, accepted or refused, leaves the sum of all balances unchanged |
| Settlement.PayMovesPrice | src/app.js:80-90 | on success the client's balance falls and the contractor's rises by exactly the price; nothing moves if they are the same profile; every other profile is untouched |
| Settlement.PayMarksJob | src/app.js:91-95 | on success the job becomes paid at `now`, no other job or contract changes, and the response is the reloaded row |
| Settlement.PayPreservesWellFormed | src/app.js:80-91 | settlement keeps every balance non-negative and every price and foreign key valid |
| Settlement.PayKeepsPaidJobs | src/app.js:91 | a paid job stays paid with its date, and no job's price or contract changes |
| Settlement.PayAtMostOnce | src/app.js:64-94 | after a successful payment, any later pay request for that job, by any actor and at any time, fails and changes nothing |
| Settlement.PayWhileLocked | src/app.js:64-79 | a job row locked by another transaction is skipped, so the request fails as Forbidden or JobNotFound and changes nothing |
| Settlement.PayFailureIsStable | src/app.js:59-101 | a refused request, repeated against the state it left, is refused identically |
| Settlement.PayScenario | src/app.js:54-103 | a client with 100 paying a job of 50 leaves balances 50 and 50; paying again gives JobNotFound; a client with 10 gets InsufficientFunds |
| Deposits.DepositGuard | src/app.js:111-136 | the guard refuses with NoUnpaidJobs exactly when nothing is owed, and with LimitExceeded exactly when something is owed and the deposit exceeds a quarter of it |
| Deposits.Credited | src/app.js:137-139 | the increment raises the target's balance by exactly the amount, changes no key, contract or job, and returns the reloaded profile row |
| Deposits.DepositAsWritten | src/app.js:105-143 | the handler as written, on any consistent store (negative balances included): a refusal changes nothing; it credits exactly when both checks pass, and then the target exists and the new store is the credit of exactly the amount |
| Deposits.DepositAsWrittenOverdraws | src/app.js:131-137 | for a client owing 200 with balance 0, the handler as written accepts a deposit of -50 and leaves a balance of -50 |
| Deposits.Deposit | src/app.js:105-143 | the corrected handler: a refusal changes nothing |
| Deposits.DepositOutcomes | src/app.js:130-137 | a deposit is accepted if and only if something is owed, the amount is at most a quarter of it, and the amount is not negative; each refusal holds if and only if its check failed |
| Deposits.CreditedChanges | src/app.js:137-139 | the increment changes only the target's balance, by exactly the amount, returns the reloaded row, and raises the sum of balances by the amount |
| Deposits.DepositCreditsOnlyTarget | src/app.js:134-139 | an accepted deposit changes only the target's balance, by exactly the deposit, and returns the updated profile |
| Deposits.DepositPreservesWellFormed | src/app.js:131-137 | the corrected deposit keeps every balance non-negative |
| Deposits.DepositOverLimitScenario | src/app.js:134-135 | a client owing 200 cannot deposit 60; the reported limit is 50 |
| Deposits.DepositWithinLimitScenario | src/app.js:134-139 | the same client can deposit 40, which becomes its balance |
| Deposits.OutstandingAfterMark | src/app.js:111-129 | marking a job paid removes exactly that job from every client's outstanding set |
| Deposits.MarkPaidOutstanding | src/app.js:111-129 | marking a job paid lowers its client's outstanding total by its price if it was outstanding, and otherwise changes nothing |
| Deposits.PayReducesOutstanding | src/app.js:91 | a successful payment lowers the client's outstanding total by the price when the contract is active, and leaves it unchanged when the contract is terminated |
| Ledger.Store.PayJob | src/app.js:54-103 | the in-place transaction yields exactly `Pay`'s response and new tables, keeps the store's constraints, and conserves the sum of balances |
| Ledger.Store.Deposit | src/app.js:105-143 | the in-place deposit yields exactly the corrected `Deposit`'s response and new tables, and keeps the store's constraints |
| Tables.ArgMax | src/app.js:173-174 | the chosen key is in the table, and its total is at least every other key's |
| Tables.TopK | src/app.js:207-209 | exactly min(limit, number of groups) distinct keys of the table, totals non-increasing, and no key left out has a larger total than one listed |
| Reports.BestProfession | src/app.js:145-176 | no profession exactly when no paid job qualifies; otherwise a profession that earned a counted job, whose total is at least every earning profession's |
| Reports.InWindow | src/app.js:152-157 | the payment-date filter applies only when both bounds are given; then a job without a payment date never passes, and otherwise the date must lie strictly between the bounds |
| Reports.ClientTotals | src/app.js:192-210 | the groups are exactly the clients with at least one counted paid job |
| Reports.BestClients | src/app.js:179-211 | at most `limit` (default 2) clients, as many as there are when fewer, none twice, each with a counted job, in non-increasing order of total, with no client left out having paid more than one listed |
| Reports.ReportsCountPaidInWindow | src/app.js:183-191 | both reports count only paid jobs, and, when both bounds are given, only jobs paid strictly between them |
| Reports.WindowOnlyNarrows | src/app.js:183-191 | a client's total within a window never exceeds its all-time total |
| Reports.ClientJobsAfterMark | src/app.js:192-209 | marking an unpaid job paid adds exactly that job to its client's all-time group |
| Reports.MarkPaidReported | src/app.js:192-209 | marking an unpaid job paid raises its client's all-time total by exactly its price |
| Reports.PayIsReported | src/app.js:91 | after a successful payment the client's all-time best-clients total rises by exactly the job's price |

## Left out

- HTTP plumbing is not modelled: routing, body parsing, status codes and JSON responses (lines 1-10, 97-101, 139-141). Each outcome is a `Result` instead.
- The `getProfile` middleware is not part of this model. The acting profile is the input `Actor`.
- Concurrency is reduced to the `locked` parameter: row locking, `skipLocked`, transaction isolation and interleaving of concurrent requests. Each request runs alone against one state.
- Sequelize is not modelled (`findOne`, `decrement`, `increment`, `update`, `reload`, `fn("sum")`). Only the where-clauses are modelled, as conditions on the maps.
- `Date.now()` and `new Date(...)` are not modelled. Times are integer parameters. A window bound that does not parse is not modelled.
- Deposits.DepositGuard: the floating-point `totalUnpaid * 0.25` is compared exactly, as `4 * amount > total`. Rounding in that product is not modelled.
- Tables.TopK: the order among tied totals is not fixed by the query. The contract states only what holds for every tie order.
- Tables.ArgMax: likewise for ties. The contract states only what holds for every tie order.
- Positive prices and resolving foreign keys (`Entities.Consistent`) are assumed of the initial store, not enforced by anything modelled. The handlers never write those columns, so every outcome keeps them.
- `console.log` on line 138 is not modelled.
- Reports.BestProfession: when no paid job qualifies, the handler dereferences `null` and fails (line 176). The model returns `None` in that case instead.
- Reports.BestClients: `limit` arrives as a query-string value (line 182) and is modelled as an optional natural number. A negative or non-numeric limit is not modelled.
- Reports.BestClients: the result is the list of client ids in order, not the full profile rows the handler returns (line 211).
- Deposits.Deposit: the handler performs no check that the requester may deposit to `userId`, and the model adds none. Likewise no admin check for the reports.
- The handler's "Already paid" branch (lines 91-94) cannot be reached once the row has been found unpaid in the same transaction. `Ledger.Store.PayJob` proves it unreachable, so `PayError` has no constructor for it.
- JobUnavailable: lock contention gives the same "Job not found for client" answer as a missing job (lines 64-79). The model follows that code, not a separate error.
- AlreadyPaid on a repeated payment: the code's repeated payment also fails the lookup, with "Job not found for client". The model follows the code, so `Settlement.PayScenario` expects JobNotFound.

## Findings

| source | as written | input that shows it | evidently intended | confidence | as-written member | corrected member |
|---|---|---|---|---|---|---|
| src/app.js:131-137 | the deposit is checked only against zero debt and an upper bound; nothing rejects a negative amount, and the increment adds it to the balance | a client with balance 0 owing 200 on an active contract deposits -50: both checks pass and the balance becomes -50 | a deposit is never negative, so no balance can become negative through it | not executed | Deposits.DepositAsWrittenOverdraws | Deposits.DepositPreservesWellFormed |
