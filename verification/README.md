# demo-credit core in Dafny

A Dafny model of the core of demo-credit, a small Express/Knex wallet
service. The model covers:

- the wallet ledger: creating a wallet (a single insert), and funding,
  withdrawing from and transferring between wallets, each of these three
  inside one database transaction;
- the query helpers: pagination clamping, search-input sanitising, the LIKE
  search condition, and the paginated query with its total count;
- the application error taxonomy and the global error-handling middleware,
  including the 404 handler for unmatched routes;
- start-up validation of the environment and the configuration record read
  from it.

Each operation is a pure function.

- A database transaction, or the single insert that creates a wallet, maps
  the store before to the store after, or to the error it throws. A thrown error carries no store, so a rolled-back
  transaction leaves the caller's store as it was.
- Money is an integer number of cents.
- A table is a sequence of rows.
- The environment is a map from variable name to value.

| file | module | models |
|---|---|---|
| `wrappers.dfy` | `Wrappers` | `Option` and `Result` |
| `js_text.dfy` | `JsText` | ECMAScript `trim` and the global `parseInt` without a radix |
| `subsequences.dfy` | `Subsequences` | the "kept in order" relation and its lemmas |
| `errors.dfy` | `Errors` | `AppError` and its eight subclasses |
| `error_handler.dfy` | `ErrorHandler` | `errorHandler` and `notFoundHandler` |
| `env_validator.dfy` | `EnvValidator` | `validateEnvironment` and `getEnvironmentConfig` |
| `query_builder.dfy` | `QueryBuilder` | `validatePagination`, `sanitizeSearchInput`, `buildSearchCondition` and `buildPaginatedQuery` |
| `ledger.dfy` | `Ledger` | the wallet service operations |
| `ledger_invariants.dfy` | `LedgerInvariants` | the ledger invariant, runs of requests, and the two defects below |

**The code and its tests disagree.** The service's edge-case tests expect two
rejections that the code does not perform:

- `fundWallet` rejects a non-positive amount with "Fund amount must be
  greater than zero";
- `transferFunds` rejects a transfer from a wallet to itself with "Cannot
  transfer funds from self to self".

`Ledger.FundWallet` and `Ledger.TransferFunds` model the code as written.
`Ledger.FundWalletGuarded` and `Ledger.TransferFundsGuarded` are a separately
named variant that adds those two checks. The amount check comes first, as in
the other operations, then the self-transfer check, then the wallet lookups.
The runs of requests in `LedgerInvariants` use the guarded variant. The
as-written behaviour is kept, and its consequences are proved under
"## Findings".

**Creating a wallet fails as written.** `createWalletForUser` inserts the
`Wallet` model object, whose camelCase properties name no column of the
snake_case `wallets` table. `Ledger.CreateWalletForUserAsWritten` models that
refused insert; `Ledger.CreateWalletForUser` models the intended insert, with
each field mapped to its column, and is the one the invariants use.

**The ledger invariant** (`LedgerInvariants.Consistent`) has four parts:

- every wallet is stored under its own id;
- no balance is negative;
- every balance equals the net of that wallet's transaction records, so the
  wallet row is a projection of the log;
- every record names existing wallets.

## Model

| member | source | states |
|---|---|---|
| Errors.SubclassCatalogue | src/types/errors.ts:15-61 | each subclass fixes the status code and message its constructor passes up: validation 400, not-found 404 with "<resource> not found", insufficient funds 400, blacklist 403, unauthorized 401 with its default message, conflict 409, external service 400 with "<service>: <message>", user-exists 400 |
| Errors.FixedMessagesNonEmpty | src/types/errors.ts:21-61 | a subclass whose message does not come verbatim from the caller never has an empty message |
| ErrorHandler.HandleError | src/middleware/errorHandler.ts:6-34 | the response status is the application error's own code and 500 for any other error; the body status is "error"; the message is the error's when non-empty and "Internal Server Error" otherwise; a stack appears exactly when NODE_ENV is "development" and the error has one |
| ErrorHandler.NotFound | src/middleware/errorHandler.ts:44-47 | an unmatched route is forwarded as an application error with status 404 whose message is "Route <original URL> not found" |
| ErrorHandler.UnmatchedRouteResponse | src/middleware/errorHandler.ts:44-47 | an unmatched route reaches the client as a 404 whose message names the route, without a stack outside development |
| ErrorHandler.SubclassResponse | src/middleware/errorHandler.ts:12-13 | a subclass with a constructor-fixed message reaches the client with its own 4xx status and its own message, never as a 500 or with the default message |
| ErrorHandler.ServerErrorStatus | src/middleware/errorHandler.ts:12 | a response is a 5xx exactly when a foreign error, or a base application error built with a 5xx code, was thrown; every subclass reaches the client with its 4xx code, even with an empty message |
| EnvValidator.MissingAmong | src/config/envValidator.ts:28-32 | a name is reported missing exactly when it is among the names checked and is unset or empty; the report keeps the names' order |
| EnvValidator.Missing | src/config/envValidator.ts:8-32 | the missing list is exactly the required variables that are unset or empty, in declaration order |
| EnvValidator.Invalid | src/config/envValidator.ts:35-45 | each of the three messages is reported exactly when its variable is set and fails its test; unset variables are never checked; the messages keep their fixed order |
| EnvValidator.ValidateEnvironment | src/config/envValidator.ts:23-64 | validation succeeds exactly when nothing is missing or invalid; missing variables take precedence, and each failure's message is its prefix followed by the list joined with ", " |
| EnvValidator.DefaultPortsParse | src/config/envValidator.ts:70-79 | the fallback port strings "3306" and "3000" parse to 3306 and 3000 |
| EnvValidator.GetEnvironmentConfig | src/config/envValidator.ts:66-84 | an unset or empty port falls back to 3306 or 3000, and a set one is the parseInt of its value; NODE_ENV and LOG_LEVEL fall back to "development" and "info"; the credentials are read as they are |
| EnvValidator.ValidatedConfig | src/config/envValidator.ts:23-84 | after validation succeeds, every credential in the configuration is present and non-empty and the log level is one of error, warn, info, debug |
| JsText.Trim | src/utils/queryBuilder.ts:123 | trimming returns the slice of the input that starts after its leading white space and is followed only by white space; the slice neither starts nor ends with white space |
| JsText.ParseIntOfNumeral | src/config/envValidator.ts:70 | parseInt of a decimal numeral, leading zeros included (as in a port of "03000"), is the numeral's value |
| JsText.ParseIntOfDecimal | src/config/envValidator.ts:79 | parseInt reads back every natural number's decimal spelling as that number |
| QueryBuilder.ValidatePagination | src/utils/queryBuilder.ts:132-140 | the page is at least 1 and the limit lies in 1..100; a floor of 0, missing or NaN gives page 1 and limit 10; a negative limit gives 1, an excessive limit 100, and an in-range floor is kept |
| QueryBuilder.InRangePaginationUnchanged | src/utils/queryBuilder.ts:132-140 | an integer page of at least 1 and a limit in 1..100 pass through unchanged |
| QueryBuilder.ValidatePaginationIdempotent | src/utils/queryBuilder.ts:132-140 | validating an already validated pair returns it unchanged |
| QueryBuilder.PaginationExamples | src/utils/tests/queryBuilder.test.ts:61-109 | the clamping cases the query-builder tests expect |
| QueryBuilder.RemoveAll | src/utils/queryBuilder.ts:124-125 | a global replace by the empty string leaves none of the deleted characters and keeps the remaining characters in their order |
| QueryBuilder.RemoveAllCounts | src/utils/queryBuilder.ts:124-125 | every character that is not deleted keeps its number of occurrences |
| QueryBuilder.RemoveAllTwice | src/utils/queryBuilder.ts:124-125 | deleting the angle brackets and then the quotes and backslashes is the same as deleting all five characters at once |
| QueryBuilder.SanitizeSearchInput | src/utils/queryBuilder.ts:119-127 | a non-string gives ""; otherwise the result is the first 100 characters (all of them when there are fewer) of the trimmed input with every angle bracket, quote and backslash deleted; so it contains none of those characters and is the input with characters deleted, never added or reordered |
| QueryBuilder.CleanSearchUnchanged | src/utils/queryBuilder.ts:119-127 | a string with no white space at its ends, none of the deleted characters and at most 100 characters is returned unchanged |
| QueryBuilder.SanitizeNotIdempotent | src/utils/queryBuilder.ts:122-126 | sanitising is not idempotent: deleting a trailing quote from "a '" leaves "a ", which a second pass trims to "a" |
| QueryBuilder.BuildSearchCondition | src/utils/queryBuilder.ts:27-42 | an empty search leaves the query unchanged; otherwise there is one `%search%` LIKE disjunct per field, in field order, on the field qualified by the table when a table is given |
| QueryBuilder.FilterRows | src/utils/queryBuilder.ts:31-40 | the search keeps exactly the rows that satisfy some disjunct, in their original order |
| QueryBuilder.FilterRowsCounts | src/utils/queryBuilder.ts:31-40 | a matching row is kept as many times as the table holds it, and a row that matches no disjunct not at all |
| QueryBuilder.SearchSemantics | src/utils/queryBuilder.ts:27-42 | a row matches a non-empty search exactly when some configured field, qualified as configured, is LIKE `%search%` |
| QueryBuilder.Matching | src/utils/queryBuilder.ts:78-80 | rows are filtered only when a non-empty search and a search configuration are both given, and then exactly the rows satisfying some clause of the built condition are kept; the result keeps the rows' order |
| QueryBuilder.Ordered | src/utils/queryBuilder.ts:82-85 | ordering returns the matching rows rearranged, none added, dropped or duplicated: sorted on the requested column in the requested direction, descending when none is given, and left as they are when no ordering is requested |
| QueryBuilder.Window | src/utils/queryBuilder.ts:88 | LIMIT/OFFSET returns the rows from position `offset` on, at most `limit` of them and fewer only at the end |
| QueryBuilder.BuildPaginatedQuery | src/utils/queryBuilder.ts:47-114 | page and limit are echoed; total counts the rows the search keeps and never exceeds the table; data is the page's window of the ordered matches, holds exactly as many rows as remain after the offset up to `limit`, and contains only matching rows; a first page with room for every match returns all of them, each once per occurrence |
| QueryBuilder.DefaultOrderIsDesc | src/utils/queryBuilder.ts:83-88 | an ordering without a direction sorts the matching rows descending on its column before the page window is cut |
| QueryBuilder.PagesCoverPrefix | src/utils/queryBuilder.ts:65-88 | for one fixed order of the matching rows, reading pages 1 to k in turn returns the first k * limit of them, with no gaps or repeats |
| Ledger.InsertWallet | src/migrations/20241027232415_create_wallets_table.ts:5-8 | an insert into `wallets` succeeds exactly when every property names a column, `user_id` is supplied and the id is free (the foreign key to `users` aside); an unknown property or a missing `user_id` is refused with the offending names, and success adds just that row |
| Ledger.CreateWalletForUserAsWritten | src/modules/wallet/wallet.service.ts:13-15 | as written: inserting the model object itself is refused for every input, naming `createdAt`, `updatedAt` and `userId` as unknown columns, so no wallet is ever stored |
| Ledger.CreateWalletForUser | src/modules/wallet/wallet.service.ts:11-17 | with each field mapped to its column: a new wallet with balance 0 is added under its fresh id; every other wallet and the log are untouched |
| Ledger.FundWallet | src/modules/wallet/wallet.service.ts:19-50 | as written: fails with "Wallet not found" exactly when the wallet is absent; otherwise it credits any amount, touches no other wallet, appends one FUND record and returns the updated row |
| Ledger.FundWalletGuarded | src/modules/wallet/tests/wallet-edge-cases.test.ts:63-74 | a non-positive amount is rejected before the lookup; success happens exactly for a positive amount and an existing wallet, strictly raises the balance, appends one FUND record and returns the updated row |
| Ledger.WithdrawFunds | src/modules/wallet/wallet.service.ts:109-141 | the amount check, then the lookup, then the balance check, each with its message; success happens exactly when 0 < amount <= balance; it debits only that wallet, appends one negative WITHDRAW record, returns the receipt, and never makes a balance negative |
| Ledger.TransferPair | src/modules/wallet/wallet.service.ts:82-102 | a transfer appends a debit and a credit that cancel out and point at each other's wallet |
| Ledger.TransferFunds | src/modules/wallet/wallet.service.ts:53-107 | as written: the amount, sender, receiver and balance checks in that order; success happens exactly when they pass; distinct wallets move by -amount and +amount; a wallet sending to itself ends up amount higher |
| Ledger.TransferFundsGuarded | src/modules/wallet/tests/wallet-edge-cases.test.ts:147-151 | a self-transfer is rejected after the amount check; a successful transfer moves exactly amount between two distinct wallets, conserving their sum, touching no other wallet, appending the paired records and returning the "Transfer successful" receipt |
| LedgerInvariants.CreatePreservesConsistent | src/modules/wallet/wallet.service.ts:11-17 | creating a wallet keeps a consistent store consistent |
| LedgerInvariants.FundGuardedPreservesConsistent | src/modules/wallet/wallet.service.ts:19-50 | funding with the amount check keeps a consistent store consistent |
| LedgerInvariants.WithdrawPreservesConsistent | src/modules/wallet/wallet.service.ts:109-141 | a withdrawal keeps a consistent store consistent |
| LedgerInvariants.TransferGuardedPreservesConsistent | src/modules/wallet/wallet.service.ts:53-107 | a transfer with the self-transfer check keeps a consistent store consistent |
| LedgerInvariants.Apply | src/modules/wallet/wallet.service.ts:20 | a committed request never adds or removes a wallet and only appends to the log |
| LedgerInvariants.Run | src/modules/wallet/wallet.service.ts:56 | however many requests run, the set of wallets is fixed and the earlier log is kept as a prefix |
| LedgerInvariants.RunPreservesConsistent | src/modules/wallet/wallet.service.ts:56-103 | any sequence of fund, withdraw and transfer requests keeps a consistent store consistent: no balance goes negative and every balance still matches its log |
| LedgerInvariants.SecondOverdrawingTransferRejected | src/modules/wallet/tests/wallet-edge-cases.test.ts:160-177 | of two equal transfers that together exceed the sender's balance, run one after the other, the first succeeds and the second fails with "Insufficient funds" |
| LedgerInvariants.FundWalletCanOverdraw | src/modules/wallet/wallet.service.ts:26 | the unguarded fund accepts an amount that drives the balance below zero, leaving the store inconsistent |
| LedgerInvariants.FundWalletOverdrawExample | src/modules/wallet/wallet.service.ts:19-50 | a concrete consistent store on which funding -100 cents turns a 50-cent balance into -50 |
| LedgerInvariants.SelfTransferMintsMoney | src/modules/wallet/wallet.service.ts:62-80 | the unguarded self-transfer succeeds, raises the balance by the amount out of nothing, and breaks the balance/log reconciliation |
| LedgerInvariants.CreateWalletAsWrittenStoresNothing | src/modules/wallet/wallet.service.ts:13-15 | on any consistent store the as-written creation fails, while the column-mapped one adds the wallet and keeps the store consistent |
| LedgerInvariants.SelfTransferRejected | src/modules/wallet/tests/wallet-edge-cases.test.ts:147-151 | the guarded transfer refuses a self-transfer of a positive amount with "Cannot transfer funds from self to self" |

## Left out

- Ledger.InsertWallet: the foreign key from `user_id` to `users` is not modelled, because the store has no users table. An insert for a user that does not exist therefore succeeds in the model, for this member and for `Ledger.CreateWalletForUser`, where mysql2/InnoDB and pg would refuse it.
- Ledger.CreateWalletForUser: requires a wallet id not yet in use, since the id stands for the v4 UUID the service draws. It models the insert with each field mapped to its column, not the insert as written, which `Ledger.CreateWalletForUserAsWritten` models and "## Findings" records.
- QueryBuilder.BuildPaginatedQuery: requires page >= 1 and limit >= 0. Callers pass the output of `validatePagination`, and the model does not cover how Knex or the database treats a negative offset or limit. It also requires the ORDER BY parameter to return a rearrangement of the rows it is given, as an SQL ORDER BY does; which order it picks is not modelled. It covers only requests without `joins`: each join is built as `join(join.table, join.on, join.type || 'inner')`, and Knex reads a three-argument join as table, left column and right column, so the ON clause compares the column named by the whole `on` text with a column named `inner` (or the join type), the database refuses the query, and `join.type` never selects a join type. `data` holds whole rows: the `selectFields` projection is not modelled.
- QueryBuilder.PagesCoverPrefix: assumes every page query returns the matching rows in one and the same order. Each page is a separate SELECT, and SQL gives that only with an ORDER BY on a unique key over a table that does not change between the queries; without `orderBy`, or with ties on the ordering column (such as `first_name` or `created_at`), pages may overlap or skip rows.
- Column range: balances and amounts are unbounded integers of cents. The `decimal(14,2)` column bound and the controllers' validator bound are not enforced. What happens on overflow depends on the database backend.
- JavaScript number coercion: the development client (mysql2) and the production client (pg) return a `decimal` column as a string, and only the sqlite3 test client returns a number. Under mysql2 and pg, `receiverWallet.balance + amount` in `transferFunds` concatenates ("500.00" + 100 gives "500.00100", stored as 500.00), so the receiver's credit is lost while the log records +amount; `-` and `<` convert the string to a number, so the debits and balance checks are unaffected, and `fundWallet` converts both operands with `Number`. The model follows the numeric reading. Floating-point amounts, `Infinity` and parseInt precision beyond 2^53 are also not covered.
- Strings are sequences of code points. JavaScript's `substring(0, 100)` counts UTF-16 code units, so an input with characters outside the Basic Multilingual Plane is truncated differently.
- ErrorHandler.HandleError: the error's `stack` property and `NODE_ENV` are parameters; how `Error.captureStackTrace` builds the stack is not modelled.
- EnvValidator.Invalid: `isNaN(Number(s))` is a parameter `isNumber`, not a model of `Number`'s string grammar.
- Concurrency and isolation: each request is one committed transaction, run one after another. Interleavings that row locking would allow or forbid are not modelled. The concurrent-transfer test is stated for the serial order.
- The LIKE test and ORDER BY are parameters: the model knows ORDER BY only as a rearrangement, so the ordered test's names-in-order expectation is not derived. SQL collation is not modelled. The count query is the same filter.
- Logging (`logger`, the `console.log` calls), timestamps, transaction record ids and the `dotenv` load are not modelled.
- `isOperational` is set to true by every constructor and nothing in the core reads it, so it is not modelled.
- `asyncHandler` only forwards a rejected promise to the error handler, so it is not modelled.
- The request-level layers are not part of this model: controllers, request validators, `fauxAuth`, the correlation-id middleware, the user service and the transaction service.

## Findings

| source | as written | input that shows it | evidently intended | confidence | as-written member | corrected member |
|---|---|---|---|---|---|---|
| src/modules/wallet/wallet.service.ts:19-26 | `fundWallet` adds any amount, including zero or a negative one | a wallet holding 50 cents funded with -100 ends at -50 | reject a non-positive amount with "Fund amount must be greater than zero", as the edge-case tests expect | not executed | LedgerInvariants.FundWalletOverdrawExample | Ledger.FundWalletGuarded |
| src/modules/wallet/wallet.service.ts:13-15 | `createWalletForUser` inserts the `Wallet` model object as it is, so the insert names the columns `userId`, `createdAt` and `updatedAt`, which `wallets` does not have, and never supplies the NOT NULL `user_id` | any call, for example user "u1" on an empty store: the database refuses the insert and no wallet exists afterwards | insert `{ id, user_id, balance, created_at, updated_at }`, mapping each field to its column as the user service does for `users` | not executed | Ledger.CreateWalletForUserAsWritten | Ledger.CreateWalletForUser |
| src/modules/wallet/wallet.service.ts:53-80 | `transferFunds` reads both rows before writing, so with sender == receiver the credit overwrites the debit | a wallet holding B transfers 0 < A <= B to itself and ends at B + A, while its log nets to zero | reject a self-transfer with "Cannot transfer funds from self to self", as the edge-case tests expect | not executed | LedgerInvariants.SelfTransferMintsMoney | Ledger.TransferFundsGuarded |
