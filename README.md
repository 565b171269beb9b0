# balance-service ledger: a Dafny model

This models the ledger core of the balance service (`storage/db.go`). The service keeps two tables:

- **accounts**: one balance per account id.
- **transactions**: an append-only log of ledger rows `{ID, AccountID, CreatedAt, Delta, Remaining, Message}`.

The service offers four store operations:

- **GetBalance**: a missing account reads as 0.
- **UpdateBalance**: adjusts one account under the `non_negative_balance` constraint and writes one ledger row.
- **MakeTransfer**: debits one account, credits another and writes two ledger rows, all or nothing.
- **GetTransactionHistory**: one account's rows, ordered by time or by delta, either direction, with optional fixed-size pages.

Two pieces of the HTTP layer (`server/handels.go`) are modelled with it. One is the normalisation of the history query parameters. The other is the rule that a balance change or transfer reaches the store only after its request passes the validator tags of `models/models.go`.

Layout:

- `models.dfy` (module `Models`): entities, error codes, sort/order constants, and the validator tags as an explicit rule schema.
- `ledger.dfy` (module `Ledger`):
  - the two tables as a value `Tables`;
  - the invariant `Inv` of every committed state;
  - the reference semantics `UpdateBalanceOutcome` and `TransferOutcome`, with the lemmas about them (effects, failure, invariant preservation, conservation).
- `history.dfy` (module `History`): the history query as a function (filter, sort, page) and its ordering and uniqueness lemmas.
- `storage.dfy` (module `Storage`): class `Database`, with fields `accounts: map<int, int>`, `log: seq<Transaction>` and `nextId`.
  - Its mutating methods follow the source step by step: begin, conditioned update, create-if-missing, read back, insert rows, roll back on any error.
  - Each is proved to end in exactly the state and result of its reference semantics, and to keep `Inv`.
- `strconv.dfy` (module `Strconv`): Go's `strconv.Atoi` and `strconv.Itoa` for base 10, and the fact that they are inverses on 64-bit integers.
- `server.dfy` (module `Server`): `strings.ToLower`, the sort/order/page normalisation, and the three handlers as far as they decide what reaches the store.

Modelling choices:

- Amounts are integer cents, and `time.Now()` is a parameter `now`.
- A row's message is a tag: an adjustment, or a transfer leg from/to.
- Generic store failures (error code 0) come from a parameter `failing: set<Stmt>`. It names which statements of the unit (`Select`, `Update(leg)`, `Insert(leg)`) report an error in this call. A failure after a partial mutation therefore exercises the rollback.
- The source leaves the order of rows with equal sort keys to the database. The model breaks ties by ascending transaction id, and `History.HistoryIsDetermined` proves that this fixes the result completely.
- The source writes `sort` and `order` into the SQL ORDER BY clause. The store functions therefore require a valid sort key and order; `Server.QueryNormalisation` proves the handler only passes such values.
- The page-0-to-1 rule is in the handler (`server/handels.go:199-201`), not in the store. The store returns every row for any `page <= 0`, page 0 included, and the model follows the code here.
- Balance invariant. Every balance is the sum of its account's logged deltas. Each row's `Remaining` is the running sum of its account's deltas up to that row, in log (insertion) order, which is also id order. `now` is an input that need not increase, so the invariant does not use `created_at` order.

## Model

| member | source | states |
|---|---|---|
| Models.ErrorCodes | models/models.go:7-8 | exactly two error codes, 0 (default) and 1 (insufficient funds); they are distinct and each identifies its kind |
| Models.QueryConstants | models/models.go:14-19 | the valid sort keys are exactly by-time and by-sum, the valid orders exactly asc and desc |
| Models.ValidChangeBalance | models/models.go:45-48 | definition: the request's fields checked against the tag schema `ID: required,gt=0`, `Delta: required` |
| Models.ValidTransfer | models/models.go:51-55 | definition: the request's fields checked against `ID1: required,gt=0`, `ID2: required,nefield=ID1,gt=0`, `Delta: required,gt=0` |
| Models.ChangeBalanceValidity | models/models.go:45-48 | a ChangeBalanceRequest passes `required,gt=0` / `required` iff ID > 0 and Delta is non-zero |
| Models.TransferValidity | models/models.go:51-55 | a TransferRequest passes its tags iff ID1 > 0, ID2 > 0, ID2 differs from ID1 and Delta > 0 |
| Ledger.EmptyInv | storage/db.go:12-17 | the empty store satisfies the ledger invariant |
| Ledger.Rows | storage/db.go:46 | definition: the log's rows whose account_id is the given id, in log order; never more rows than the log |
| Ledger.Inv | storage/db.go:73-143 | definition: counter at least 1, balances non-negative, ids positive, below the counter and increasing, every row owned by an existing account with a non-negative Remaining, every Remaining the running balance, every balance the sum of its deltas |
| Ledger.RowsOfUnknown | storage/db.go:145-173 | when every logged row's account is in the accounts map, an id absent from the map has no rows |
| Ledger.RowsMembers | storage/db.go:46 | the rows selected for an account belong to it and come from the log |
| Ledger.PostKeepsIds | storage/db.go:175-185 | a row inserted with the next sequence value keeps transaction ids positive, below the counter and increasing, so each row has its own key |
| Ledger.PostKeepsLedgerSums | storage/db.go:82-90 | appending a row whose Remaining is the old balance plus its delta keeps every balance equal to its account's sum of deltas |
| Ledger.PostKeepsRunningBalances | storage/db.go:82-90 | the same append keeps every row's Remaining equal to the running sum of its account's deltas up to that row |
| Ledger.PostKeepsOwners | storage/db.go:82-90 | after the append every row still belongs to an existing account and no Remaining is negative |
| Ledger.PostKeepsNonNegative | models/models.go:11 | recording a non-negative new balance keeps every balance non-negative, as the non_negative_balance constraint demands |
| Ledger.PostPreservesInv | storage/db.go:82-96 | recording a mutation keeps the whole invariant: balances non-negative, ids increasing, every balance the sum of its deltas, every Remaining the running balance |
| Ledger.BalanceIsLedgerSum | storage/db.go:30-39 | every balance, including the 0 of a missing account, is non-negative and equals the sum of the account's logged deltas |
| Ledger.LastRowIsRunningSum | storage/db.go:82-87 | the latest row of an account records the sum of all its deltas |
| Ledger.LatestRemainingIsBalance | storage/db.go:82-87 | the Remaining of an account's latest row is its current balance |
| Ledger.UpdateBalanceOutcome | storage/db.go:73-97 | all or nothing: a failure leaves the tables as they were; a success records exactly its returned row, which has the next id and Remaining = old balance + delta >= 0 |
| Ledger.UpdateBalanceEffect | storage/db.go:73-97 | the adjustment succeeds iff no statement fails and balance + delta >= 0. A missing account is created by a credit and refused (insufficient funds) for a debit. On success there is one new row (next id, account, now, delta, new balance) and its return; on failure nothing changes |
| Ledger.UpdateBalancePreservesInv | storage/db.go:73-97 | UpdateBalance, successful or not, keeps the invariant |
| Ledger.UpdateBalanceLedgerTotal | storage/db.go:73-97 | the ledger's total changes by exactly delta on success and not at all on failure |
| Ledger.TransferOutcome | storage/db.go:100-143 | all or nothing: a failure leaves the tables as they were; a success keeps the old log as a prefix and appends exactly two rows with non-negative Remaining, the first being the returned one |
| Ledger.TransferCommits | storage/db.go:132-142 | with no failing statement and both new balances non-negative, the transfer records the debit leg and then the credit leg and returns the debit leg |
| Ledger.TransferFailure | storage/db.go:104-113 | a missing source or one holding less than delta gives insufficient funds; a failed transfer changes nothing; with no store error, success iff the source holds at least delta |
| Ledger.TransferEffect | storage/db.go:100-143 | ID1 loses delta, ID2 gains delta (created when absent), their sum is kept and no other account changes. Exactly two rows follow the old log: the ID1 leg (-delta) and then the ID2 leg (+delta), with one timestamp, each showing its account's new balance. The ID1 leg is returned |
| Ledger.SelfTransferEffect | storage/db.go:100-143 | a transfer from an account to itself leaves its balance as it was and writes two rows |
| Ledger.TransferPreservesInv | storage/db.go:100-143 | MakeTransfer, successful or not, keeps the invariant |
| Ledger.TransferConservesLedgerTotal | storage/db.go:115-130 | money is conserved: a transfer leaves the sum of all logged deltas unchanged |
| History.Key | storage/db.go:48-53 | definition: the ordering column, delta for by-sum and created_at otherwise |
| History.InOrder | storage/db.go:48-55 | definition: the key strictly earlier in the requested direction (ascending, or descending for desc), or equal keys and the id not larger |
| History.Sorted | storage/db.go:48-55 | definition: every pair of rows in the requested order |
| History.InOrderTotal | storage/db.go:54-55 | any two rows are comparable in the requested order |
| History.InOrderTransitive | storage/db.go:54-55 | the requested order is transitive |
| History.InOrderAntisymmetric | storage/db.go:54-55 | two rows that each precede the other have the same key and the same id |
| History.Insert | storage/db.go:54-55 | inserting a row into an ordered sequence keeps it ordered and adds exactly that row |
| History.SortRows | storage/db.go:54-55 | the ordered rows are a permutation of the input, in the requested order |
| History.Page | storage/db.go:57-59 | no paging for page <= 0; otherwise at most PaginationNum rows, the window starting at offset (page-1)*PaginationNum, cut at the end |
| History.PageWithin | storage/db.go:57-59 | a page contains no row more often than the full result |
| History.PageSorted | storage/db.go:57-59 | a page of an ordered result is ordered |
| History.Query | storage/db.go:43-69 | only the account's rows from the log, in the requested order. For page <= 0, all of them; otherwise at most PaginationNum of them, the window of the ordered rows at offset (page-1)*PaginationNum |
| History.BySumDescNonIncreasing | storage/db.go:48-55 | by-sum desc: deltas never increase down the result |
| History.ByTimeAscComplete | storage/db.go:48-57 | by-time asc without paging: every row of the account, created_at never decreasing |
| History.SortedHeads | storage/db.go:54-55 | two ordered arrangements of the same rows with distinct ids start with the same row |
| History.SortedUnique | storage/db.go:54-55 | with the id tie-break, rows with distinct ids have only one ordered arrangement |
| History.RowsIdsIncreasing | storage/db.go:46 | an account's rows keep the log's increasing id order |
| History.OccursOnce | models/models.go:30 | in a sequence whose transaction ids (the primary key) increase, each element occurs exactly once |
| History.DistinctInMultiset | models/models.go:30 | any rearrangement of a sequence whose transaction ids increase holds different ids at different positions |
| History.HistoryIsDetermined | storage/db.go:43-69 | in a consistent store, any ordered arrangement of the account's rows is exactly the one the query pages |
| Storage.Database.constructor | storage/db.go:12-17 | a store over empty tables with the configured page size, satisfying the invariant |
| Storage.Database.GetBalance | storage/db.go:30-40 | the stored balance of an existing account, balance 0 for a missing one, the default error when the read fails; nothing changes |
| Storage.GetBalanceIsLedgerBalance | storage/db.go:30-40 | in a consistent store the balance read is non-negative, the sum of the account's deltas, and the Remaining of its latest row |
| Storage.Database.GetTransactionHistory | storage/db.go:43-70 | the query's rows, an empty result being a success; the default error when the select fails |
| Storage.Database.AddToBalance | storage/db.go:146-155 | the conditioned update: statement failure, no row, constraint violation, or the balance set to exactly balance + delta; nothing else changes |
| Storage.Database.UpdOrCreateAccBalance | storage/db.go:145-173 | success iff no statement fails and the old balance (0 when missing) plus delta is >= 0. Then the account holds that balance, a missing one created by a credit; otherwise the accounts are unchanged, with insufficient funds or the default error |
| Storage.Database.WriteTransaction | storage/db.go:175-185 | the row is appended with the next sequence id and returned, or the default error with nothing written |
| Storage.Database.Rollback | storage/db.go:78 | every effect of the unit is undone |
| Storage.Database.UpdateBalance | storage/db.go:73-97 | keeps the invariant and ends in exactly the state and result of Ledger.UpdateBalanceOutcome; unchanged on failure; on success one row is appended whose Remaining is the new balance |
| Storage.Database.MakeTransfer | storage/db.go:100-143 | keeps the invariant and ends in exactly the state and result of Ledger.TransferOutcome; unchanged on failure; on success two rows are appended, the first being the returned leg |
| Strconv.Atoi | server/handels.go:160 | definition: an optional sign and a non-empty run of decimal digits whose value fits in 64 bits; anything else is an error |
| Strconv.NatDigitsValue | server/handels.go:192 | the decimal digits of a natural number are non-empty digits whose value is that number |
| Strconv.AtoiItoa | server/handels.go:192 | Atoi reads back every 64-bit integer written in decimal |
| Strconv.AtoiRange | server/handels.go:160 | Atoi yields only 64-bit values and refuses the empty string |
| Server.ToLower | server/handels.go:167 | lower-casing keeps the length and lowers every character |
| Server.NormalizeSort | server/handels.go:167-176 | definition: lower-case; refuse anything but empty, by-sum and by-time; empty becomes by-time |
| Server.NormalizeOrder | server/handels.go:178-187 | definition: lower-case; refuse anything but empty, asc and desc; empty becomes asc |
| Server.NormalizePage | server/handels.go:189-204 | definition: absent is -1; otherwise Atoi, refused when it fails, 0 becomes 1 |
| Server.NormalizeQuery | server/handels.go:167-204 | definition: sort, then order, then page, stopping at the first error |
| Server.SortParam | server/handels.go:167-176 | sort is accepted iff its lower case is empty, by-sum or by-time; empty becomes by-time; letter case does not matter |
| Server.SortParamCase | server/handels.go:167-173 | an upper-case BY-SUM is accepted as by-sum, and the misspelling by_sum is refused |
| Server.OrderParam | server/handels.go:178-187 | order is accepted iff its lower case is empty, asc or desc; empty becomes asc |
| Server.OrderParamCase | server/handels.go:178-184 | an upper-case DESC is accepted as desc |
| Server.PageParam | server/handels.go:189-204 | absent page is -1, a non-integer is refused, 0 becomes 1, any other integer (negative too) passes unchanged; never 0 |
| Server.PageIntegers | server/handels.go:189-204 | every 64-bit integer written in decimal is accepted as a page, 0 as 1 and the rest unchanged |
| Server.QueryNormalisation | server/handels.go:167-204 | the query succeeds iff all three parameters do, and then has a valid sort key, a valid order and a non-zero page; the error names the first invalid parameter |
| Server.NoQueryParams | server/handels.go:167-204 | no parameters give (by-time, asc, -1) |
| Server.GetTransactions | server/handels.go:156-216 | a non-integer id is refused, and an invalid query is refused before the store with the normalisation's own error (the first invalid parameter). Otherwise the store is queried with the normalised values: a store error is reported, an empty history is a non-error empty response, and rows are returned as they are |
| Server.ChangeBalance | server/handels.go:67-90 | an invalid request is refused and never reaches the store; a valid one ends in exactly UpdateBalance's outcome |
| Server.Transfer | server/handels.go:120-143 | an invalid request is refused and never reaches the store; a valid one ends in exactly MakeTransfer's outcome |

## Left out

- HTTP plumbing:
  - reading the body, JSON (un)marshalling, routing and response writing;
  - the validator's error listing loops (`server/handels.go:72-75`, `125-128`).
- HTTP status codes. A response in the model is the outcome it reports. The source maps insufficient funds to 500 and any other store error to 400 (`server/handels.go:83-89`, `136-142`).
- `handleGetBalance`'s id parse and response (`server/handels.go:23-48`). Only the store's GetBalance is modelled.
- Configuration and startup (`utils/config.go`, `main.go`, `server/server.go`). The page size is a constructor parameter that must be positive.
- Opening the connection, and gorm/Postgres internals:
  - SQL generation;
  - the substring match on the constraint name (`storage/db.go:148`), which becomes the explicit `balance + delta >= 0` guard;
  - `tx.Commit`.
- Errors the source ignores are taken to succeed: `tx.Create` of a new account (`storage/db.go:160`), `tx.First` (`storage/db.go:170`) and `tx.Commit` (`storage/db.go:95`, `141`).
- Concurrency: row locking, isolation and the deadlock hazard of opposite transfers. Each store operation is one atomic sequential step.
- Floating point: balances and deltas are `float64` in the source and integer cents here. The `%.2f` rounding in messages is dropped.
- Message text and debug output. A row's message is an abstract tag.
- Timestamps: `time.Now()` is the parameter `now`. It is not assumed to increase between calls.
- Storage.Database.Rollback: restores the transaction id counter as well. A Postgres sequence would keep the consumed values, so later ids may have gaps in the source. The model's ids are still positive and increasing.
- History.Page: computes the offset `(page-1)*PaginationNum` in unbounded integers. The 64-bit wrap-around of that product for pages near the int64 limit is not modelled.
- Server.ToLower: lowers only A-Z, U+0130 and U+212A, not every Unicode letter. These are all the characters whose lower case is an ASCII letter, so acceptance of sort and order is exact. The lowered text of any other rejected input may differ from Go's.
