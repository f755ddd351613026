# Verification of the expense-sharing backend

A Dafny model of the parts of the backend in which money and access depend on state that
several requests share: the ledger of expenses, debts and payments, the arithmetic on
amounts that feeds it, the dashboard sums over it, and three small machines driven by the
clock (rate limiter, one-time passwords, refresh tokens).

`dafny verify dfyconfig.toml` checks everything.

## How it is organised

| files | what they hold |
|---|---|
| `wrappers.dfy`, `sums.dfy`, `text.dfy` | `Option`/`Result`, sums over finite sets (the meaning of SQL's `SUM` and `COUNT`), white-space trimming |
| `money_text.dfy`, `money_split.dfy` | parsing, printing and dividing int64 amounts, as methods over int64 |
| `ledger.dfy` | the tables and each repository operation as one atomic step |
| `ledger_invariants.dfy`, `ledger_bulk.dfy`, `ledger_create.dfy`, `ledger_runs.dfy` | what every step keeps, bulk payments, expense creation, and results about whole runs |
| `ledger_answers.dfy`, `ledger_history.dfy` | what each operation answers in every case and leaves behind; over runs, who may change which row, and to what |
| `ledger_examples.dfy` | two runs from fresh tables that show what the code does not promise |
| `store.dfy` | the repositories as a class that holds the tables; one method per SQL statement and per operation, each proved equal to its step in `ledger.dfy` |
| `transactions.dfy`, `serializability.dfy`, `progress.dfy`, `authority.dfy` | transactions split into lock, check, write, commit or rollback; every interleaving is a serial run; no deadlock, the serial order respects the order of requests, and what is answered Ok was asked by the right user |
| `dashboard.dfy` | the totals and the balances per person |
| `expense_shares.dfy`, `expense_creation.dfy` | from the input of a new expense to its committed rows |
| `rate_limit.dfy`, `rate_limit_decisions.dfy` | the fixed-window limiter, its limits, and its decisions told from the requests alone |
| `otp.dfy`, `otp_limits.dfy`, `otp_answers.dfy`, `otp_service.dfy` | one-time passwords: steps, limits over runs, the answer to every guess, the service as classes |
| `sessions.dfy`, `session_history.dfy`, `session_service.dfy` | sessions and refresh-token rotation: steps and runs, every answer told from the history, the service as a class |

Wherever the Go code works step by step on rows or fields there is a method that does the
same on a class; it is proved to end in the state, and give the answer, of a function, and
the properties are proved about that function over all runs. Independently of how it is
written, each such function is also pinned from outside: which answer it gives under which
condition on the rows, or on the history, and what it leaves in every row.

Clocks, generated ids, hashes, bcrypt and the reading of UUIDs, URLs and dates are parameters.

## Assumptions

- A locking query sees the rows it locks as they are while it holds the locks. For the
  sub-selects over `payments` (the pending sum of `GetDebtForPaymentMark`, the `NOT EXISTS`
  of `ListBulkPaymentDebtsForUpdate`) this is assumed only where it is needed. `OpMark` and
  `OpBulkMark` see the current payments; `OpStaleMark` and `OpStaleBulkMark` may see older
  ones. Conservation, status agreement and serializability hold for all four; the results
  about a single pending payment hold for the first two (`Exact` operations).
- A bulk payment or an expense creation takes part in an interleaving as one instant in
  which no debt that it pays is locked.
- The rate limiter, the one-time passwords and the sessions run on a clock that does not go
  back; each call on one-time passwords happens at one instant.
- New refresh tokens have hashes that no other generated token has.

## Where the code does less, or other, than one would expect

- `BulkMark` adds up `totalAvailable` in int64 without a guard. It never lets too much
  through, but near the int64 limit it refuses amounts that the debts cover
  (`LedgerExamples.BulkRefusesPayable`); exactly when is `LedgerBulk.BulkGuardExact`, and
  what a bulk payment answers in every case is `LedgerBulk.BulkOutcome`.
- If the sub-select of `Mark` sees old payments, a second pending payment can be created
  that nobody can ever confirm (`LedgerExamples.StaleMarksGetStuck`); a mark keeps pending
  payments single exactly when there was none (`LedgerInvariants.MarkKeepsSingleIff`).
  The text at docs/implementation.md:384-387 promises at most one.
- The rate limiter lets up to `2 * maxRequests - 1` requests of one key through in an
  interval of one window, not `maxRequests` (`RateLimit.WindowLimit`, reached in
  `RateLimit.LimitIsReached`).
- A second code requested in the very instant in which an unused one was created fails
  with a database error: the new expiry violates `email_verifications_expires_future`
  (`OtpLimits.SecondAtOnceFails`; when a code is created at all is `OtpLimits.CreateOutcome`).
  As a consequence the newest unverified code is always unique (`Otp.NewestIsUnique`).
- `FormatMinor` prints the least int64 as `--92233720368547758.-8`; negative amounts never
  parse back (`MoneyText.LeastForm`, `MoneyText.RoundTrip`).
- Two spellings of one UUID pass the checks on texts; the table constraints catch them and
  roll everything back (`ExpenseCreation.CommitsIff`).

## Model

| member | source | states |
|---|---|---|
| Store.Repository.AcceptDebt | internal/postgres/sqlc/expenses.sql.go:14-21 | the conditional update hits exactly the debtor's own pending debt and changes nothing else |
| Store.Repository.RejectPendingDebt | internal/postgres/sqlc/expenses.sql.go:518-525 | likewise for rejecting |
| Store.Repository.ReviewRejectedDebt | internal/postgres/sqlc/expenses.sql.go:553-572 | hits a rejected debt of a group that the user owns, leaves the adjusted amount, or else the old original one, in both amounts, resets all three timestamps, and fails as a whole when the new amount is not positive |
| Store.Repository.ApplyConfirmedPaymentToDebt | internal/postgres/sqlc/payments.sql.go:14-28 | reduces an active debt that covers the amount, settling it at zero |
| Store.Repository.CreatePayment | internal/postgres/sqlc/payments.sql.go:84-88 | the insert goes through exactly when key, foreign key and CHECK constraints are met |
| Store.Repository.DecidePayment | internal/postgres/sqlc/payments.sql.go:56-63 | confirming (and, at lines 371-378, rejecting) hits only a payment that is still pending |
| Store.Repository.PendingAmount | internal/postgres/sqlc/payments.sql.go:123-137 | the loop over payments computes the sum of the debt's pending payments |
| Store.Repository.ListBulkPaymentDebts | internal/postgres/sqlc/payments.sql.go:220-236 | returns exactly the eligible debts without a pending payment, in query order |
| Store.BulkRowsUnique | internal/postgres/sqlc/payments.sql.go:234-235 | the query order leaves no choice: the list of debts is determined by the tables |
| Store.Repository.Accept | internal/debts/repository.go:24-39 | the tables and the answer, with the classified error, are those of the atomic step |
| Store.Repository.RejectDebt | internal/debts/repository.go:41-56 | likewise |
| Store.Repository.ReviewRejected | internal/debts/repository.go:58-81 | likewise, with the review classification of lines 144-164; answered Ok, both amounts are the adjusted one, or the old original without one |
| Store.Repository.Mark | internal/payments/repository.go:29-78 | guards in order, the inserted payment, and rollback are those of the atomic step with the current pending sum |
| Store.Repository.TotalAvailable64 | internal/payments/repository.go:104-107 | the accumulator ends at the true total wrapped to int64 |
| Store.Repository.CreateParts | internal/payments/repository.go:112-138 | the allocation loop inserts exactly the allocated parts in order and returns their payments, or stops at the first insert that fails |
| Store.Repository.BulkMark | internal/payments/repository.go:80-145 | the whole operation is the atomic step on the rows of the locking query |
| Store.CreatedIsInserted | internal/payments/repository.go:112-144 | the i-th payment in the answer is the row inserted for the i-th part: its debt and amount, pending, from the user to the receiver |
| Store.OnlyPartsInserted | internal/payments/repository.go:112-138 | a bulk payment inserts no other payments |
| Store.Repository.Confirm | internal/payments/repository.go:170-220 | after the guards neither update can miss its row; tables and answer are those of the atomic step; answered Ok only to the receiver of a pending payment |
| Store.Repository.RejectPayment | internal/payments/repository.go:222-259 | likewise for refusing |
| Store.Repository.CreateExpenseParticipant | internal/postgres/sqlc/expenses.sql.go:155-159 | inserts exactly when the participant is new to the expense and the share positive |
| Store.Repository.CreateDebt | internal/postgres/sqlc/expenses.sql.go:49-66 | inserts exactly when the debt is new, positive and not owed to oneself |
| Store.Repository.CreateEntries | internal/expenses/repository.go:84-112 | the loop over the participants inserts and returns exactly their rows and the debts, or stops at the first insert that fails |
| Store.Repository.CreateExpense | internal/expenses/repository.go:60-124 | membership checks, row loop and rollback are those of the atomic step; the participant and debt rows are returned |
| LedgerInvariants.PendingSumZero | internal/postgres/sqlc/payments.sql.go:220-232 | because payments are positive, "the pending sum is 0" and "no pending row exists" are the same |
| LedgerInvariants.KeepReview | internal/postgres/sqlc/expenses.sql.go:553-572 | resetting the remaining amount is safe since a rejected debt never had a payment |
| LedgerInvariants.MarkKeepsSingleIff | internal/payments/repository.go:52-60 | a mark that goes through keeps pending payments single iff the debt had none |
| LedgerRuns.StepKeepsConsistent | internal/payments/repository.go:29-259 | every operation keeps amounts, statuses, timestamps and payments in agreement, even with stale sub-selects |
| LedgerRuns.StepKeepsSingle | internal/payments/repository.go:49-60 | every operation whose sub-selects are current keeps at most one pending payment per debt, within what remains |
| LedgerRuns.Conservation | internal/postgres/sqlc/payments.sql.go:14-28 | over every run: remaining plus confirmed payments is the original amount, 0 <= remaining <= original, status and timestamps match, and pending or rejected debts have no payments |
| LedgerRuns.NoStuckPayment | internal/payments/repository.go:196-201 | over every run with current sub-selects: each pending payment is the only one of its debt, fits it, and its receiver can both confirm and refuse it |
| LedgerExamples.StaleMarksGetStuck | internal/postgres/sqlc/payments.sql.go:123-137 | a run from fresh tables with stale sums that leaves a payment pending which nobody can confirm, then or after anything that happens later |
| LedgerRuns.SettledForGood | internal/payments/repository.go:196-198 | a payment on a settled debt can never be confirmed |
| LedgerRuns.FromFreshTables | internal/payments/repository.go:29-259 | conservation and confirmability over every run from fresh tables, with nothing assumed about them |
| LedgerRuns.OverbookedNotBoth | internal/payments/repository_integration_test.go:19-77 | two pending payments that together exceed their debt are never both confirmed, whatever happens |
| LedgerRuns.TransitionsAllowed | docs/implementation.md:402-413 | at every step of every run a debt starts as pending, keeps its status, or makes one of the six allowed transitions; so none of the disallowed ones |
| LedgerRuns.HistoryIsMonotone | docs/implementation.md:410-413 | over every run no row disappears, an accepted debt never returns to pending and only goes down, settled debts and decided payments never change |
| LedgerRuns.ReviewedOnce | docs/implementation.md:375-382 | after a payment has been confirmed or refused, any later review answers with an error and changes nothing |
| LedgerRuns.ConfirmationsBounded | internal/postgres/sqlc/payments.sql.go:14-28 | the number of confirmed payments of a debt is at most what has been paid off |
| LedgerAnswers.AcceptAnswer | internal/debts/repository.go:24-39 | each answer to the debtor has its exact condition on the rows; Ok sets status and time of that debt and nothing else |
| LedgerAnswers.RejectDebtAnswer | internal/debts/repository.go:41-56 | likewise for rejecting |
| LedgerAnswers.ReviewAnswer | internal/debts/repository.go:58-81 | each answer has its exact condition; Ok leaves the owner's amount, or the old original one, as original and remaining, and clears the timestamps |
| LedgerAnswers.MarkAnswer | internal/payments/repository.go:29-78 | each answer of a mark, in order of precedence, has its exact condition on the debt, the pending sum seen and the amount |
| LedgerAnswers.MarkEffect | internal/payments/repository.go:62-72 | a mark leaves exactly one new pending payment, of its amount, from the debtor to the creditor |
| LedgerAnswers.ConfirmAnswer | internal/payments/repository.go:186-201 | Ok iff the user is the receiver, the payment pending, the debt active and the amount within what remains; each error has its own condition |
| LedgerAnswers.ConfirmEffect | internal/payments/repository.go:203-213 | a confirmation takes its amount off its debt, settles it at zero, and touches no other row |
| LedgerAnswers.RejectPaymentAnswer | internal/payments/repository.go:222-259 | Ok iff the user is the receiver and the payment pending; each error has its own condition |
| LedgerAnswers.RejectPaymentEffect | internal/postgres/sqlc/payments.sql.go:371-378 | a refusal changes that payment and no debt |
| LedgerAnswers.CreateAnswer | internal/expenses/repository.go:59-83 | caller, payer and participants outside the group are told apart in this order; Ok iff all are members and the inserts meet the constraints |
| LedgerHistory.DebtsChangeByRight | docs/implementation.md:402-413 | over every run a debt changes only because its debtor accepts or rejects it, an owner of its group resends it with the amount asked, or its creditor confirms a payment, which is taken off |
| LedgerHistory.PaymentsDecidedByReceiver | internal/payments/repository.go:186-201 | over every run a pending payment becomes confirmed or refused only by its receiver, the creditor of its debt, and no decided one changes |
| LedgerHistory.RowsAppearByRight | internal/payments/repository.go:62-72 | over every run a new payment is pending, asked for by the debtor of its debt and due to the creditor; a new debt is an entry of a new expense, owed to its payer |
| LedgerHistory.OriginalIsLastAsked | internal/postgres/sqlc/expenses.sql.go:553-572 | over every run the original amount of a debt is the last amount that a successful review asked for, or else the first one |
| LedgerBulk.AllocateIsGreedy | internal/payments/repository.go:112-138 | the parts are positive, within their debts, fill all debts but the last, and add up to the amount |
| LedgerBulk.GreedyUnique | internal/payments/repository.go:112-138 | no other allocation of that kind exists |
| LedgerBulk.GreedyShortest | internal/payments/repository.go:112-138 | no shorter prefix of the list could pay the amount |
| LedgerBulk.BulkGuardExact | internal/payments/repository.go:104-110 | the wrapping guard never admits more than the true total, and is exact iff the total fits or wraps to the largest int64 |
| LedgerBulk.BulkOutcome | internal/payments/repository.go:93-144 | what a bulk payment answers in every case; it goes through iff there is a debt, 0 <= amount <= the wrapped total, and the ids of its payments are new |
| LedgerExamples.BulkRefusesPayable | internal/payments/repository.go:104-110 | a run from fresh tables after which two accepted debts exist for which one minor unit is refused |
| LedgerBulk.BulkIsMarks | internal/payments/repository.go:93-138 | a successful bulk payment is the sequence of single marks of its parts: each passes every guard, and the tables end up the same |
| LedgerAnswers.BulkEligible | internal/postgres/sqlc/payments.sql.go:220-233 | the rows of the bulk query are exactly the active, unpaid debts from the user to the receiver without a pending payment, each once |
| LedgerAnswers.BulkOrder | internal/postgres/sqlc/payments.sql.go:234-235 | what was touched longest ago comes first, then what is older, then the lower id |
| LedgerAnswers.OldestPaidFirst | internal/payments/repository.go:112-138 | an eligible debt touched before one that gets a part is itself paid in full, earlier in the list |
| LedgerCreate.CreatedBalanced | internal/expenses/repository.go:84-118 | participant shares add up to what was asked; payer share plus debts is the same; debtors are distinct and never the payer |
| LedgerCreate.CreatedRows | internal/expenses/repository.go:84-112 | each participant has its row, and each one not spelled like the payer its debt |
| LedgerCreate.CreatedAnswer | internal/expenses/repository.go:82-124 | the participants and debts in the answer are exactly the rows that were added |
| LedgerCreate.CreateCommitsIff | migrations/20260505000400_expenses.up.sql:26-51 | the exact condition under which all inserts meet the constraints; otherwise the tables are unchanged |
| LedgerCreate.CreateExtends | internal/expenses/repository.go:55-118 | no existing row is touched |
| Serializability.Serializable | internal/payments/repository.go:29-259 | every interleaving of transactions with row locks, private writes, failures and rollback equals a serial run; each answered transaction has an entry of its own with its operation and answer, one without an entry is a database error, and each logged success is the answer of a transaction |
| Serializability.WrittenStep | internal/payments/repository.go:203-213 | what the statements of one transaction write is what the atomic operation does |
| Serializability.CheckedStep | internal/payments/repository.go:49-60 | the first guard that fails on the locked rows is the atomic operation's error |
| Serializability.CommitFrame | internal/postgres/sqlc/payments.sql.go:163-181 | a commit changes only the locked debt and its payments |
| Serializability.ConcurrentConservation | internal/payments/repository_integration_test.go:19-77 | money is conserved at every moment of every interleaving, whatever the sub-selects saw |
| Serializability.ConcurrentNoStuckPayment | docs/implementation.md:384-387 | with current sub-selects, at every moment of every interleaving each pending payment is alone on its debt and can be confirmed |
| Serializability.OneReviewCommits | docs/implementation.md:385 | of all transactions that confirm or refuse one payment, at most one is answered Ok |
| Progress.NoDeadlock | internal/postgres/sqlc/payments.sql.go:163-181 | in every state with an open transaction some statement can run: who waits for a row waits for one that does not |
| Progress.SchedulesEnd | internal/payments/repository.go:29-259 | statements and failures run out under every schedule |
| Progress.NeverStuck | internal/payments/repository.go:29-259 | at every moment of every interleaving all open transactions can be brought to an answer |
| Progress.RealTimeOrder | internal/payments/repository.go:29-259 | a transaction answered before another begins precedes it in the serial order |
| Progress.AloneIsAtomic | internal/payments/repository.go:29-259 | a transaction that runs alone through all its statements leaves the tables, and gives the answer, of the atomic step |
| Authority.AnsweredByRight | internal/payments/repository.go:186-201 | in every interleaving, what was answered Ok was begun by the one it is reserved for: debts by their debtor or a group owner, confirmations and refusals by the receiver, the creditor of the debt |
| Dashboard.OweIsGet | internal/postgres/sqlc/dashboard.sql.go:14-35 | summed over all users, you_owe equals you_get and is the total of active debts |
| Dashboard.StepMovesTotals | internal/postgres/sqlc/dashboard.sql.go:14-35 | accepting raises and confirming lowers one debtor's and one creditor's total by the same amount; nothing else changes any total |
| Dashboard.DashboardOverRun | internal/postgres/sqlc/dashboard.sql.go:14-35 | after any run from no debts, both sums are what was accepted less what was confirmed |
| Dashboard.PersonBalances | internal/postgres/sqlc/dashboard.sql.go:56-77 | after any run the owed and receivable rows add up, in amount and in number of debts, to the totals |
| Dashboard.OwedCountsAgreeIff | internal/postgres/sqlc/dashboard.sql.go:73-75 | without the ledger invariant the two counts agree iff no active debt of the user is paid off |
| Dashboard.RowsFit | internal/postgres/sqlc/dashboard.sql.go:62 | the cast of a row cannot overflow when the cast of its total does not |
| Dashboard.OwedRow | internal/postgres/sqlc/dashboard.sql.go:56-77 | the owed row about another user has the amount and number of the unsettled debts from the user to that one, and exists iff there are any |
| Dashboard.ReceivableRow | internal/postgres/sqlc/dashboard.sql.go:56-77 | likewise for the debts from that one to the user |
| Dashboard.BalancesMirror | internal/postgres/sqlc/dashboard.sql.go:56-77 | after any run the owed row of one user about another is the receivable row of the other about the one, and nobody is listed to themselves |
| MoneyText.ParseMinor | internal/money/money.go:20-59 | accepts exactly the texts that denote an amount of at most MaxInt64, for any length and any leading zeros, and returns that amount without overflow |
| MoneyText.DenotesUnique | internal/money/money.go:20-59 | no text denotes two amounts |
| MoneyText.DenotesIff | internal/money/money.go:29-58 | the texts of n are whole units, units with tenths, or units with two digits after the point, and their value |
| MoneyText.FormatMinor | internal/money/money.go:61-69 | what is printed for every int64, the least one included |
| MoneyText.RoundTrip | internal/money/money.go:20-69 | the printed text of n denotes n and nothing else when n >= 0, and nothing at all when n < 0 |
| MoneyText.NegativeForm | internal/money/money.go:61-69 | a negative amount is printed as its opposite after a minus sign |
| MoneyText.LeastForm | internal/money/money.go:61-69 | but for the least int64, whose two parts keep a minus sign of their own |
| MoneyText.CanonicalForm | internal/money/money.go:20-69 | printing what a text denotes gives a canonical text of the same amount, the text itself iff it was canonical |
| MoneyText.SameAmountSameForm | internal/money/money.go:20-69 | two accepted texts are equal amounts iff their canonical forms are equal |
| Text.TrimSpaceRemovesSpace | internal/money/money.go:21 | trimming removes white space at both ends and nothing else |
| MoneySplit.SplitEqual | internal/money/money.go:79-99 | fails iff total or count is not positive or the total is less than the count; otherwise positive non-decreasing shares that differ by at most one and sum to the total |
| MoneySplit.EvenSplitUnique | internal/money/money.go:79-99 | there is only one such split |
| MoneySplit.EvenSplitExists | internal/money/money.go:79-99 | an amount has an even split among n > 0 iff there is a unit for each |
| MoneySplit.ValidateManualSplit | internal/money/money.go:101-122 | decides the question on unbounded integers; the overflow guard never changes acceptance |
| ExpenseShares.CheckNames | internal/expenses/service.go:193-216 | the first missing or repeated name decides the error; a lone payer has no debtor |
| ExpenseShares.ManualShares | internal/expenses/service.go:233-258 | succeeds iff the given amounts are positive and sum to the total; a mismatch is reported iff they are positive and their sum fits int64 but differs |
| ExpenseShares.BuildParticipantShares | internal/expenses/service.go:192-263 | the exact condition of success and of each of its errors, and the division on success |
| ExpenseShares.DivisibleIff | internal/expenses/service.go:192-263 | no error applies exactly when the total can be divided among the participants |
| ExpenseShares.DivisibleMeans | internal/expenses/service.go:192-263 | on the input itself: names given and different, one of them not the payer, and either a unit for each or given positive amounts that add up to the total |
| ExpenseShares.NormalizeReceiptURL | internal/expenses/service.go:285-300 | accepts no receipt, or an http or https URL with a host, and returns it trimmed |
| ExpenseShares.NormalizeExpenseDate | internal/expenses/service.go:302-314 | accepts no date, or one that can be read |
| ExpenseShares.TitleFitsColumn | migrations/20260505000400_expenses.up.sql:15 | a title of at most 160 bytes meets the CHECK on its characters |
| ExpenseShares.ValidateCreateInput | internal/expenses/service.go:120-190 | fails with the first thing that is wrong with the input, participants included, and only then; the params keep trimmed texts, the parsed total and a division of it |
| ExpenseShares.InputOkIff | internal/expenses/service.go:120-190 | nothing is wrong with an input iff it can be validated as some params |
| ExpenseShares.ValidatedUnique | internal/expenses/service.go:177-189 | and then as exactly one |
| ExpenseShares.FirstHeaderErrors | internal/expenses/service.go:121-137 | when exactly group, title and total are refused |
| ExpenseShares.MiddleHeaderErrors | internal/expenses/service.go:139-155 | then when exactly currency, payer and split type are |
| ExpenseShares.LastHeaderErrors | internal/expenses/service.go:157-172 | then when exactly caller, receipt and date are, and that otherwise the participants decide |
| ExpenseShares.DividedAddsUp | internal/expenses/service.go:192-263 | equal or manual, the shares are positive, add up to the total, go to the trimmed names, all different, one of them not the payer |
| ExpenseCreation.Create | internal/expenses/repository.go:29-125 | ids are parsed in order before the transaction; tables and answer, with the created rows, are those of the specified step |
| ExpenseCreation.CreateFromInput | internal/expenses/service.go:59-68 | whatever is wrong with the input is the answer; the expense is created iff the input can be validated as params that the tables take; tables and answer are those of the specified step on them, and a failure leaves all tables as they were |
| ExpenseCreation.CommittedExpense | internal/expenses/repository.go:43-118 | end to end: shares add up to the parsed total, payer share plus debts is the total, there is a debt, debtors are distinct and never the payer, and the answer lists exactly the new rows |
| ExpenseCreation.CommitsIff | migrations/20260505000400_expenses.up.sql:32-51 | a validated expense commits iff its texts are ids of group members, no two spellings of one id are mixed and the generated ids are new; otherwise nothing is written |
| ExpenseCreation.CreateErrors | internal/expenses/repository.go:29-83 | when a validated expense is not committed, which error is answered, from the first id that cannot be read to the group membership to the tables |
| ExpenseCreation.EachOwesItsShare | internal/expenses/repository.go:87-114 | each participant of the input has its own share in the tables, the amount it named if manual, and owes it to the payer unless it is the payer's text |
| RateLimit.RateLimiter.constructor | internal/httpapi/middleware/rate_limit.go:26-39 | a window that is not positive becomes one minute |
| RateLimit.RateLimiter.CleanupExpired | internal/httpapi/middleware/rate_limit.go:85-91 | keeps exactly the buckets that are still open |
| RateLimit.RateLimiter.Allow | internal/httpapi/middleware/rate_limit.go:55-83 | the new buckets and the decision are those of the specified call |
| RateLimit.CleaningIsInvisible | internal/httpapi/middleware/rate_limit.go:63-70 | the limiter decides every request of every run as one that never cleans up |
| RateLimit.BucketsAreCurrent | internal/httpapi/middleware/rate_limit.go:66-74 | after each call every entry has now < resetAt <= now + window |
| RateLimit.WindowLimit | internal/httpapi/middleware/rate_limit.go:55-83 | in any half-open interval of one window at most 2 * max - 1 requests of a key pass, none if max <= 0 |
| RateLimit.LimitIsReached | internal/httpapi/middleware/rate_limit.go:55-83 | for every max that bound is reached, so max itself is not a bound |
| RateLimit.BucketLimit | internal/httpapi/middleware/rate_limit.go:69-82 | within the window of one bucket at most max requests pass, whatever comes later |
| RateLimitDecisions.ExactDecision | internal/httpapi/middleware/rate_limit.go:69-82 | for every request of every run: it passes iff requests are allowed at all and its key has no open window, or one in which fewer than max passed |
| RateLimitDecisions.RefusedOnlyWhenFull | internal/httpapi/middleware/rate_limit.go:77-79 | a refused request had max of its key pass within the last window |
| RateLimitDecisions.KeysAreIndependent | internal/httpapi/middleware/rate_limit.go:69-82 | a request is decided as if only those of its own key had been made |
| OtpService.Repository.Create | internal/otp/repository.go:51-95 | the insert goes through iff the CHECK constraints are met |
| OtpService.Repository.GetActiveByEmailAndPurpose | internal/otp/repository.go:97-139 | finds an unverified row with the latest creation time, if there is an unverified row |
| OtpService.Repository.CountRecentRequests | internal/otp/repository.go:203-217 | counts the rows created since the start of the window |
| OtpService.Repository.ExpireOldVerifications | internal/otp/repository.go:191-201 | expires all outstanding rows of the purpose, or none when a CHECK would fail |
| OtpService.Service.CreateVerification | internal/otp/service.go:62-105 | table and answer are those of the specified step |
| OtpService.Service.VerifyOTP | internal/otp/service.go:107-121 | table and answer are those of the specified step on the row found; the guess is accepted iff that row is in time, has attempts left and matches |
| OtpService.Service.VerifyOTPForUser | internal/otp/service.go:123-141 | likewise, and the row must be of this user; a row of another user is not found and not consumed |
| OtpService.Service.Check | internal/otp/service.go:143-171 | expiry, attempts and comparison in this order, with their effects; verified iff in time, below the maximum of attempts, and matching |
| Otp.RunKeeps | migrations/20260512000800_email_verifications.up.sql:1-22 | in every reachable table, when a code was created every older one for its purpose was used up or expired by then |
| Otp.NewestIsUnique | internal/otp/repository.go:97-106 | the look-up never has a choice |
| OtpLimits.CreateOutcome | internal/otp/service.go:62-105 | what a request for a code answers in every reachable state; one is created iff the purpose is known, there is room in the window, codes live at all, and no unused one was created at the same instant |
| OtpLimits.SecondAtOnceFails | migrations/20260512000800_email_verifications.up.sql:17-19 | the second of two requests at one instant fails, however much room there is |
| OtpLimits.CreationLimit | internal/otp/service.go:67-75 | at most RequestsPerWindow codes per email and purpose are created in any closed interval of the window's length |
| OtpLimits.SupersededForGood | internal/otp/service.go:77-79 | strictly after a code was created, no older one for its purpose is even compared, also after the newer is consumed |
| OtpLimits.VerifiedOnce | internal/otp/service.go:163-170 | a code is accepted at most once in a run |
| OtpLimits.WrongPerCode | internal/otp/service.go:148-161 | the attempt counter of a code is exactly the number of wrong guesses compared with it, at most MaxAttempts |
| OtpLimits.GuessLimit | internal/otp/service.go:143-161 | in any interval of the window's length at most (RequestsPerWindow + 1) * MaxAttempts wrong guesses are compared |
| OtpAnswers.VerifyOutcome | internal/otp/service.go:107-171 | for the last call of every legal run: the latest unused row of the purpose decides, with the number of wrong guesses compared with it so far; the exact answer in every case |
| OtpAnswers.AcceptedIff | internal/otp/service.go:143-170 | accepted with code i iff the purpose is known, i is the latest unused one, the user agrees, it is in time, had fewer than MaxAttempts wrong guesses, and matches |
| OtpAnswers.WrongIff | internal/otp/service.go:148-161 | a guess counts as wrong against code i under the same conditions when it does not match |
| OtpAnswers.RightGuessAccepted | internal/otp/service.go:62-171 | end to end: a created code that is neither superseded nor used is accepted at the next right guess iff that is in time, from its user, and after fewer than MaxAttempts wrong ones |
| SessionService.Service.Create | internal/sessions/service.go:48-64 | table and answer are those of the specified step, constraints included |
| SessionService.Service.RotateRefreshToken | internal/postgres/sqlc/auth_sessions.sql.go:87-95 | rotates the one unrevoked, unexpired session with the old hash, or fails without effect |
| SessionService.Service.Refresh | internal/sessions/service.go:78-99 | table and answer are those of the specified step |
| SessionService.Service.Revoke | internal/sessions/service.go:101-107 | likewise |
| SessionService.Service.RevokeAllForUser | internal/sessions/service.go:109-115 | likewise, for all sessions of the user |
| SessionService.Service.ValidateAccessSession | internal/sessions/service.go:66-76 | accepts an id iff it can be read and names a session that is not revoked and not expired; everything else is an invalid session |
| Sessions.AcceptedOnce | internal/sessions/service.go:89-96 | over every run each refresh token is accepted at most once |
| Sessions.AcceptsLastToken | internal/postgres/sqlc/auth_sessions.sql.go:87-95 | an active session is refreshed by exactly the token last handed out for it |
| Sessions.HashesUnique | migrations/20260505000200_auth_sessions.up.sql:9 | no two sessions ever hold one hash |
| Sessions.RevokedIsDead | internal/postgres/sqlc/auth_sessions.sql.go:64-80 | revoking takes effect at once |
| Sessions.DeadForGood | internal/postgres/sqlc/auth_sessions.sql.go:41-47 | once a session is revoked or expired, neither its id nor any token ever handed out for it is accepted again |
| SessionHistory.ActiveIffLive | internal/postgres/sqlc/auth_sessions.sql.go:41-47 | after every run a session is active iff it was created, has been revoked neither alone nor with all of its user since, and its time is not over |
| SessionHistory.ValidateOutcome | internal/sessions/service.go:66-76 | an access session is valid iff its id can be read and it is live by that history; refreshes do not matter |
| SessionHistory.CreateOutcome | internal/sessions/service.go:48-64 | what creating a session answers in every reachable state |
| SessionHistory.RefreshOutcome | internal/sessions/service.go:78-99 | a refresh is granted for a session iff it is live and the token is the last one handed out for it; every other one is refused as invalid |
| SessionHistory.RevokeOutcome | internal/sessions/service.go:101-115 | revoking succeeds for every id that can be read |

## Left out

- Bulk payments and expense creations split into statements: they are single instants in the interleavings, so nothing is said about deadlocks between bulk payments that lock their rows one by one; group membership and the ownership it gives do not change while the operations run.
- Foreign-key locks, snapshots, deadlocks and the re-evaluation of a WHERE clause after waiting for a lock: a transaction that waits simply does not move.
- Foreign keys to `users` and `groups`: users are ids, and inserts fail only for the constraints named in the model.
- `created_at` and `updated_at` of payments and expenses, and notes; titles, descriptions, receipt URLs, dates and currency are validated but not kept in the tables of the model, nor in its answers.
- Parsing and formatting of UUIDs in the ledger operations: ids there are opaque; expense creation and sessions take the parser as a parameter. Likewise the parsing of URLs and dates.
- The int4 width of `attempt_count` and the int64 width of durations and instants.
- MoneyText.FormatMinor: negative amounts are described but have no round trip, since the parser refuses signs.
- Names and usernames in the GROUP BY of the person balances (one user has one of each), the pending flag of a row, and the list of unsettled balances.
- List queries that filter and order rows for display.
- Handlers, routing, JSON, response mapping, notifications, e-mail and WebSocket delivery: no invariant of their own, and their errors are ignored by the services.
- Key derivation, hashing and random generation: functions and fresh values.
- `CheckCooldown`: one comparison on a stored timestamp.
