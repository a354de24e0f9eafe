# Simple Bank: a verified model

A Dafny model of the bank's server: the money-transfer transaction and the PostgreSQL locks it relies on, the sign-up and
email-verification protocol with its retried worker, and the login / session / renewal protocol. `dafny verify
dfyconfig.toml` checks all of it.

## How it is laid out

- `Bank.dfy`, `Transfers.dfy`: the account, transfer and entry tables, what each SQL statement does, the statements of
  `TransferTx`, and the plain "debit from, credit to" they are proved equal to.
- `Protocol.dfy`: any number of transactions with arbitrary bodies, interleaved statement by statement under Read
  Committed. A statement reads what is committed at that moment plus its own transaction's writes; row locks are held to
  the end; a transaction may be rolled back at any point. Proved: every run is equivalent to the committed transactions
  one at a time.
- `Solo.dfy`, `PlainReads.dfy`: a transaction that nobody hinders, and exactly which SELECTs without a lock may return
  a row that serial execution does not.
- `Deadlock.dfy`, `LockChoices.dfy`: no circular waiting, termination, and why the key-share lock and the id order are
  both needed. The lock modes and their conflicts are those of the PostgreSQL 17 documentation, section 13.3.2; the
  re-reading after a wait is that of section 13.2.1.
- `Ledger.dfy`, `Keys.dfy`, `Api.dfy`, `Overdraft.dfy`, `Paging.dfy`: double entry, balances and totals, primary keys,
  the account and transfer handlers with their checks outside the transaction, what the missing funds check costs, and
  page-by-page listing.
- `Users.dfy`, `EmailProtocol.dfy`, `EmailResults.dfy`, `EmailOrigins.dfy`, `EmailBacking.dfy`: partial profile updates;
  sign-up, worker, updates and verification interleaved step by step, with the waits on unique indexes and locked rows;
  which request each stored row comes from; and when the verified flag says something about the address on file.
- `Tokens.dfy`, `Sessions.dfy`, `EndToEnd.dfy`: PASETO tokens as ideal encryption; login, renewal and blocking statement
  by statement over every run; and the money API behind them, from a login to the debit it allows.
- `SqlStore.dfy`, `Handlers.dfy`: the same operations as classes whose methods change the tables in place, each proved
  against the specification functions of the modules above, for every point at which the connection may break.

A state machine has an `Enabled` predicate and an `Apply` function over a datatype of actions; a run is a sequence of
actions. A statement "for every run" quantifies over all such sequences.

## What the code does where its documentation suggests otherwise

- The comment on `transfers.amount` says "must be positive", but no constraint does. `TransferTx` itself accepts every
  int64; with the smallest one the negation overflows and money disappears from both accounts
  (`Ledger.SmallestAmountLosesMoney`, exact conditions in `Ledger.ConservedIffNegatable` and
  `Ledger.TransferKeepsLedger`). Nor does it compare currencies. The transfer handler only lets positive amounts within
  one currency through, so API runs are safe (`Api.BooksBalance`).
- The page offset is an int32 product. A page number that passes validation can wrap it, and page 536870913 of size 8 is
  page 1 again (`Paging.PageRepeats`, exact condition in `Paging.PageRightIff`).
- The verified flag need not concern the address on file. A verified user who changes the address stays verified
  (`EmailBacking.VerifyThenChange`), and a user who changes the address first is verified by the link mailed to the old
  one (`EmailBacking.ChangeThenVerify`). `EmailBacking.AlwaysBackedIff` gives the exact condition over whole runs, and
  `EmailBacking.BackedUntilChanged` shows that only address changes are to blame.
- There is no funds check. A new user's first transfer goes through and leaves any amount owed
  (`Overdraft.FirstTransferOverdraws`); a commit keeps its source at or above zero exactly when the amount was there
  (`Overdraft.OverdraftIff`). As accounts open empty and nobody deposits, no API state with money in it is free of
  negative balances (`Overdraft.NonNegativeIffZero`, `Overdraft.NeverOverdrawnIff`). A check in the handler, beside the
  ones it makes, would not be enough (`Overdraft.CheckedFundsRunOut`).
- A plain `GetAccount` takes no lock. In a transaction that has not updated or locked the account before, it may return
  a row that serial execution does not (`PlainReads.SerialRowIff`). No transaction of the store contains one.
- A session that is blocked while a renewal is under way may still yield an access token
  (`Sessions.BlockedTooLate`).

## Model

| member | source | states |
|---|---|---|
| Transfers.BodyRefinesSpec | db/sqlc/tx_transfer.go:26-61 | The id-ordered two-branch body commits exactly "debit from, credit to", two entries and one transfer row, puts the right row in each result field, and fails exactly when an account is missing or a balance leaves bigint |
| Transfers.AnswerFields | db/sqlc/tx_transfer.go:29-61 | Field by field, the answer to every successful transfer: its transfer row, the debit entry as FromEntry and the credit entry as ToEntry, and both accounts with their new balances |
| Transfers.WrittenRows | db/sqlc/tx_transfer.go:29-58 | Table by table, the rows a transfer appends and the balances it changes, everything else untouched |
| Transfers.PassesIffBalancesFit | db/sqlc/tx_transfer.go:54-58 | For positive amounts the arithmetic passes exactly when both new balances fit, whichever id is smaller; a self-transfer exactly when balance + amount fits |
| Transfers.SelfTransfer | db/sqlc/tx_transfer.go:56-58 | A self-transfer keeps the stored row, reports the credited value as ToAccount and the restored one as FromAccount |
| Transfers.UpdatesRun | db/sqlc/tx_transfer.go:66-87 | addMoney in either order leaves the same accounts and returns the rows in the order of its updates |
| Bank.RunFrame | db/sqlc/account.sql.go:12-17 | A body that succeeds writes the same and returns the same rows, except for plain SELECTs of accounts it has not claimed before, on any tables that agree on the accounts it updates or locks, whatever else was committed meanwhile |
| Bank.RunWrites | db/sqlc/account.sql.go:12-17 | Balance updates change nothing in a row but its balance, keep it a bigint, and touch only existing accounts |
| Bank.OwnWritesVisible | db/sqlc/account.sql.go:76-104 | A transaction sees its own uncommitted update in every kind of statement, and other rows as committed |
| Bank.UpdateFailsIff | db/sqlc/account.sql.go:12-35 | A balance update fails exactly on a missing account or a balance outside bigint, each with its own error |
| Protocol.SerialEquivalence | db/sqlc/exec_tx.go:9-25 | For every interleaving of any number of transactions, with bodies of any INSERTs, foreign-key checks, UPDATEs, locking and plain SELECTs, the committed tables and every returned row are those of the committed transactions run one at a time in commit order, except the row of a plain SELECT of an account that no earlier step of its body updates or locks |
| PlainReads.SerialRowIff | db/sqlc/account.sql.go:76-104 | A step of a body returns its serial row in every run beside any other bodies if and only if it is not a plain SELECT of an account unclaimed by earlier steps, or the body passes on no tables |
| PlainReads.ReadsAround | db/sqlc/account.sql.go:76-94 | For every body that passes, every such SELECT in it and every amount, the run in which another transaction changes the balance in between: the rows up to the SELECT are those of the old tables, the later ones those of the new |
| PlainReads.UnlockedReadIsNotSerial | db/sqlc/account.sql.go:76-94 | The instance that reads one row twice: it commits with rows that it returns on no tables when run alone |
| Protocol.Atomicity | db/sqlc/exec_tx.go:9-25 | Committed tables change by one whole transaction at a time; a rolled-back transaction never enters the history; finished transactions hold no lock |
| Protocol.RollbackAnytime | db/sqlc/exec_tx.go:15-20 | A transaction can be rolled back at any point while it runs; only the sequence values it drew remain |
| Protocol.NoCommonUpdate | db/sqlc/account.sql.go:12-17 | What a running transaction has updated or locked, no other running transaction has updated |
| Protocol.InvStep | db/sqlc/exec_tx.go:9-25 | Every step keeps: locks exclusive and justified, each running transaction exactly where it would be alone, history true |
| Protocol.ConflictsByStrength | db/sqlc/account.sql.go:96-100 | Row locks conflict exactly when their strengths, from KEY SHARE 0 to UPDATE 3, add up to 3 or more |
| Deadlock.DeadlockFree | db/sqlc/tx_transfer.go:54-58 | For any bodies that update accounts in ascending order, no cycle of waiting transactions and always somebody who can move |
| Deadlock.AwaitedIncreases | db/sqlc/tx_transfer.go:66-87 | Along a chain of waiting transactions the awaited account ids strictly increase |
| Deadlock.BodyAscends | db/sqlc/tx_transfer.go:54-58 | Every transfer, crossing and self-transfers included, updates its accounts in ascending id order |
| Deadlock.Termination | db/sqlc/exec_tx.go:15-24 | Once no more transactions begin, the number of transaction steps is bounded, and where none can step all are committed or rolled back and the lock table is empty |
| LockChoices.LiveIffKeyLockCompatible | db/migration/000001_init_schema.up.sql:24-28 | Transfers are deadlock-free if and only if the foreign-key lock mode does not conflict with the lock of a balance update |
| LockChoices.OrderIsNeeded | db/sqlc/tx_transfer.go:54-58 | Without the id order two crossing transfers reach a deadlock with the real lock modes |
| Keys.KeysUnique | db/migration/000001_init_schema.up.sql:9-22 | No two committed transfers and no two committed entries share an id, in any interleaving |
| Ledger.CommittedTransfer | db/sqlc/tx_transfer.go:23-64 | Each committed transfer is "debit from, credit to" on the tables left by the commits before it, and its caller got the serial result |
| Ledger.TransferKeepsLedger | db/sqlc/tx_transfer.go:29-58 | A transfer keeps double entry, foreign keys, and every balance equal to its entries and to its transfers, if and only if its amount is not the smallest int64 |
| Ledger.ConservedIffNegatable | db/sqlc/tx_transfer.go:38-58 | A transfer keeps every currency total if and only if it moves nothing, or both accounts have one currency and the amount is not the smallest int64 |
| Ledger.SmallestAmountLosesMoney | db/sqlc/tx_transfer.go:38-49 | With the smallest int64 the transfer goes through and debits both accounts |
| Api.BooksBalance | db/sqlc/tx_transfer.go:29-58 | In every state of every API run: two paired entries per transfer, entries sum to zero, each balance equals its entries and its incoming minus outgoing transfers, each currency totals zero |
| Api.CheckedThenCommitted | api/transfer.go:20-57 | What the handler checked before its transaction (owner, both currencies) still holds when it commits |
| Api.ArriveAnswers | api/transfer.go:20-37 | Which requests get past the first half of the handler and why the others are refused, condition by condition, written out on the request and the account rows |
| Api.CheckToAnswers | api/transfer.go:39-42 | The same for the second account |
| Api.StartAnswers | api/transfer.go:44-50 | Exactly a request past both checks starts a transaction, of its own accounts and amount |
| Api.OpensIff | api/account.go:16-42 | An account is opened exactly for a registered user, one of three currencies and no account of that owner in that currency, and opened empty |
| Api.StepKeepsHolders | db/sqlc/account.sql.go:12-17 | No step a handler can cause changes an account's id, owner or currency, or removes one |
| Api.ServedSerially | api/transfer.go:44-56 | Under concurrent requests the i-th commit moved exactly what its request asked on the tables the earlier commits left, and reported so |
| Api.AtMostOnce | api/transfer.go:20-57 | Every committed transfer belongs to one request that passed its checks, and no request moves money twice |
| Api.ServerNeverStuck | db/sqlc/tx_transfer.go:54-58 | No run of requests reaches a deadlock |
| Api.ServerDrains | db/sqlc/exec_tx.go:9-25 | Once no handler starts another transaction the server takes boundedly many steps and ends with every transaction committed or rolled back and no lock held |
| Api.OpenKeepsTotals | api/account.go:16-42 | Opening an account with the handler's zero balance keeps every currency total |
| Overdraft.NonNegativeIffZero | api/account.go:24-28 | In every state of every API run, all balances are at or above zero if and only if all are zero |
| Overdraft.OverdraftIff | db/sqlc/tx_transfer.go:54-58 | A commit moves exactly its amount, and leaves the source of a transfer to another account at or above zero if and only if the balance before covered it |
| Overdraft.NeverOverdrawnIff | api/transfer.go:20-57 | An API run never shows a negative balance if and only if every commit finds its amount on the balance, and then every commit is a self-transfer |
| Overdraft.LoneTransferCommits | api/transfer.go:44-56 | A request that passed its checks and is left alone is committed whenever both new balances are bigints, whatever is on the account |
| Overdraft.FirstTransferOverdraws | api/transfer.go:20-57 | For every positive amount a run from the empty database whose first transfer leaves the payer that much below zero |
| Overdraft.CheckedFundsRunOut | api/transfer.go:26-56 | For every positive amount a run in which two requests each find it on the payer's account when their handlers check, both are committed, and the payer ends that much below zero |
| Paging.OwnedMeaning | db/sqlc/account.sql.go:113-119 | The listing is exactly the owner's accounts, each once, in ascending id order |
| Paging.SliceMeaning | db/sqlc/account.sql.go:113-119 | LIMIT and OFFSET row by row: nothing missing, moved or beyond the limit |
| Paging.PageContinues | api/account.go:76-95 | While the offset fits int32, page k continues where pages 1 to k-1 stopped |
| Paging.PageRightIff | api/account.go:89-93 | The handler returns the true page if and only if the offset did not wrap or wrapped past the last account |
| Paging.PageRepeats | api/account.go:76-93 | A page number that passes validation repeats page 1 |
| Paging.FirstPageComplete | db/migration/000002_add_users.up.sql:13 | In API runs an owner has at most three accounts and page 1 lists them all |
| SqlStore.Queries.AddAccountBalance | db/sqlc/account.sql.go:12-35 | Adds to the balance in place and returns the new row, or fails without a change |
| SqlStore.Queries.CreateAccount | db/sqlc/account.sql.go:37-64 | Inserts a row unless the owner is unknown or a stored row has both that owner and that currency |
| SqlStore.Queries.CreateTransfer | db/sqlc/transfer.sql.go:12-39 | Inserts a transfer row if both accounts exist |
| SqlStore.Queries.CreateEntry | db/sqlc/entry.sql.go:12-36 | Inserts an entry row if the account exists |
| SqlStore.Queries.ListAccounts | db/sqlc/account.sql.go:113-151 | A scan by id that filters, skips and stops early returns exactly the rows LIMIT and OFFSET cut out of the owner's accounts in id order; a negative offset is an error |
| SqlStore.Queries.AddMoney | db/sqlc/tx_transfer.go:66-87 | Both balances updated one after the other; the second is not sent when the first fails |
| SqlStore.Queries.UpdateUser | db/sqlc/user.sql.go:74-117 | Overwrites exactly the columns that are set, unless the user is missing or the email taken |
| SqlStore.Queries.UpdateVerifyEmail | db/sqlc/verify_email.sql.go:43-73 | Marks the row used exactly when id and code match and it is unused and unexpired |
| SqlStore.Store.Finish | db/sqlc/exec_tx.go:15-24 | On an error of the function the tables stay as they were, with the combined error if the rollback fails; otherwise all changes appear at once or none |
| SqlStore.Store.TransferTx | db/sqlc/tx_transfer.go:23-64 | For every fault point: succeeds exactly when all round trips survive and the transfer is possible, then changes the tables as "debit from, credit to" and answers the right row in each field; otherwise no change |
| SqlStore.Store.VerifyEmailTx | db/sqlc/tx_verify_email.go:19-44 | Consumes the code and flags its user, both or neither, with the exact condition for success; on a consistent database it depends on the code and the connection alone |
| SqlStore.Store.CreateUserTx | db/sqlc/tx_create_user.go:14-29 | Succeeds exactly when name and address are free and database and queue answer; then each column of the row is what was asked for and the task is enqueued; on any failure the tables are unchanged though the task may remain |
| SqlStore.Store.Migrated | db/migration/000001_init_schema.up.sql:1-22 | The empty database satisfies the invariant that every method keeps, a TransferTx of the smallest int64 aside |
| SqlStore.VerifyKeepsConsistent | db/sqlc/tx_verify_email.go:22-41 | Using a code and flagging its user together keeps "flagged exactly when a code is used" and the rest of the database invariant |
| SqlStore.TransferKeepsConsistent | db/sqlc/tx_transfer.go:29-58 | A transfer keeps the ledger and the rest of the database invariant if and only if its amount is not the smallest int64; every handler preserves the invariant |
| SqlStore.CodeKeepsConsistent | worker/task_send_verify_email.go:52-59 | A new unused code keeps the database invariant, however often a task is attempted |
| Handlers.CreateTransfer | api/transfer.go:20-57 | Answers 200 exactly when binding, accounts, currency, owner and arithmetic pass, and then moves the money of the caller and reports it field by field; any other status changes nothing |
| Handlers.TransferAnswers | api/transfer.go:20-78 | The condition for each of the five statuses, written out on the request and the account rows; a self-transfer is served |
| Handlers.ValidAccount | api/transfer.go:59-78 | Not found, currency mismatch or the account, in that order |
| Handlers.CreateAccount | api/account.go:16-42 | 200 exactly for a supported currency, a stored user and no stored row with that owner and currency; 400 for another currency, 403 otherwise; opens a zero-balance account |
| Handlers.ListAccounts | api/account.go:76-100 | 400 for a page below 1 or a size outside 5 to 10, 500 for an offset that wrapped below zero, otherwise the page |
| Handlers.ProcessTaskSendVerifyEmail | worker/task_send_verify_email.go:41-79 | Each attempt that finds the user leaves a new unused code; a mail goes out only after its code is committed and carries it |
| Handlers.UpdateUser | gapi/rpc_update_user.go:18-74 | Succeeds only with an unexpired access token of a banker, or of a depositor for its own row, and then leaves the row of UpdatedColumns and everything else alone |
| Handlers.UpdateAnswers | gapi/rpc_update_user.go:18-68 | The condition for each of the six statuses, in the order of the checks, written out on the token, the request and the user rows |
| Handlers.UpdatedColumns | gapi/rpc_update_user.go:33-60 | Column by column, what a profile update changes: the fields that are set, a new password together with its date, never the flag, the role, the name or the creation time |
| Handlers.CreateUser | gapi/rpc_create_user.go:18-65 | The exact answer, and column by column the row stored: the hash of the password and every other field as given |
| Handlers.SignUpThenLogIn | api/user.go:88-109 | Whoever signs up can log in with the chosen password and with no other |
| Handlers.UpdateThenLogIn | gapi/rpc_update_user.go:45-60 | After a password change exactly the new password logs in; after any other update exactly the old one |
| Handlers.LoginUser | api/user.go:88-155 | Tokens for the user and its stored role exactly if the password is right and the session row, given column by column, is stored; NotFound, Unauthorized or InternalError otherwise |
| Users.UpdateReaches | db/sqlc/user.sql.go:74-85 | Some partial update turns a row into another if and only if they share the key, creation time and role |
| Users.UpdateColumns | db/sqlc/user.sql.go:74-85 | COALESCE column by column |
| Users.PasswordMeaning | util/password.go:9-21 | A hash matches exactly the password it was made from |
| Users.UpdatesMerge | db/sqlc/user.sql.go:74-85 | Any sequence of updates equals its right-biased merge applied once |
| Users.VerificationCommutes | db/sqlc/tx_verify_email.go:33-39 | The verification lands anywhere among profile updates with the same result |
| EmailProtocol.InvStep | db/sqlc/tx_verify_email.go:22-41 | Every step of sign-ups, worker, updates and verifications keeps the invariant behind the results below |
| EmailResults.FlagMeansUsedCode | db/sqlc/tx_verify_email.go:22-41 | A user is flagged if and only if some verification row of the username is used |
| EmailResults.UsedOnce | db/sqlc/verify_email.sql.go:43-53 | A row is used if and only if one committed verification consumed it, with the right code and begun before expiry; never two |
| EmailResults.RowsAreOneShot | db/sqlc/verify_email.sql.go:43-53 | A verification row changes only from unused to used, by the commit of a verification of it |
| EmailResults.ExpiredStaysUnused | db/sqlc/verify_email.sql.go:43-53 | A code that expired with no timely verification under way stays unused in every continuation of the run |
| EmailResults.VerificationsNeverStuck | db/sqlc/tx_verify_email.go:22-41 | Concurrent verifications never wait in a circle and some unfinished one can always move |
| EmailResults.OutboxOrder | gapi/rpc_create_user.go:36-47 | Each sign-up's own task, shared with no other sign-up, is in the queue before its user commits; codes exist only for committed users; a mail carries the id, code and address of a committed row |
| EmailResults.MailedCodeWorks | worker/task_send_verify_email.go:61-71 | A mailed link, presented in time and unhindered, flags the user it was sent to, uses up its row and changes nothing else |
| EmailResults.NoLostUpdate | db/sqlc/user.sql.go:74-85 | A stored user is the created row changed by the merge of all committed updates; password and its date change together; the role never changes |
| EmailOrigins.CreatedAsAsked | db/sqlc/user.sql.go:14-38 | The created row that a stored user goes back to is the one a sign-up of the run asked for, column by column and created at that moment |
| EmailOrigins.UpdatedAsAsked | gapi/rpc_update_user.go:33-60 | Each update merged into a stored user was asked for by a profile update of the run, column by column, or is the commit of a verification of that user |
| EmailOrigins.SignUpIff | db/migration/000002_add_users.up.sql:1-8 | A sign-up can go on exactly when no user and no sign-up under way has its name or address |
| EmailOrigins.UpdateIff | db/sqlc/user.sql.go:74-85 | A profile update can go on exactly when its user exists and is not locked by a verification, and nobody else has the new address |
| EmailOrigins.AttemptMayFail | worker/task_send_verify_email.go:41-79 | An attempt may fail at any point before its mail is out, and what it stored stays |
| EmailOrigins.MayEnd | db/sqlc/exec_tx.go:15-24 | A sign-up may be rolled back, and a verification fail, at any point before its commit |
| EmailOrigins.AbandonFrees | db/sqlc/exec_tx.go:15-20 | A rolled-back sign-up gives its name and address back |
| EmailOrigins.FaultFrees | db/sqlc/exec_tx.go:15-20 | A failed verification changes nothing and releases both rows |
| EmailOrigins.StoredCode | db/migration/000004_add_verify_emails.up.sql:1-9 | A worker stores an unused code for the user and address it loaded, good for 900 seconds |
| EmailOrigins.CodeTakenIff | db/sqlc/verify_email.sql.go:43-53 | Presented at any later moment a code is taken exactly while it is right for its row, unused and unexpired |
| EmailOrigins.TaskDelivers | worker/task_send_verify_email.go:41-79 | Any task can be worked off whatever else is going on, and mails a new code to its own user |
| EmailBacking.EmailChangeKeepsFlag | gapi/rpc_update_user.go:33-43 | A flagged user with a confirmed address keeps the flag through any update, and the confirmed address if and only if the update sets none or one the user has used a code for |
| EmailBacking.VerificationBacks | db/sqlc/tx_verify_email.go:22-41 | A verification of an unflagged user confirms the address on file if and only if the code was mailed to it |
| EmailBacking.AlwaysBackedIff | db/sqlc/tx_verify_email.go:22-41 | Through a whole run every user is flagged exactly when a code mailed to the address on file is used, if and only if each address change of a flagged user and each verification of an unflagged one passes a check the code does not make |
| EmailBacking.BackedUntilChanged | worker/task_send_verify_email.go:52-59 | In every run without address changes a user is flagged if and only if a code mailed to the address on file is used |
| EmailBacking.VerifyThenChange | gapi/rpc_update_user.go:33-43 | For every sign-up and every new address a run that ends flagged at an address no code was mailed to |
| EmailBacking.ChangeThenVerify | db/sqlc/tx_verify_email.go:33-39 | The same by changing the address first and opening the link mailed to the old one |
| Tokens.TokenRoundTrip | token/paseto_maker.go:31-57 | A created token verifies to its own payload exactly under its key, for its type and until it expires |
| Sessions.AcceptedTokens | token/payload.go:34-61 | Every accepted access token goes back to a login of the same user, which at an earlier step of the run presented the password stored at that moment and carries the role stored then; it expires within the refresh plus access duration of that moment and within the access duration of blocking the session, plus the time handlers are at work, whatever is interleaved between their statements |
| Sessions.LoginBegan | api/user.go:95-109 | Every login of every run presented, at its recorded time, the password stored for its user then, and has the role stored then |
| Sessions.PasswordLogsIn | api/user.go:88-155 | The right password logs in: both tokens and the session row, field by field |
| Sessions.CredentialTakesEffect | api/user.go:105-109 | Once stored, exactly the new password logs in |
| Sessions.TokenIdsUnique | token/payload.go:34-50 | No two tokens handed out in any run share an id |
| Sessions.RenewIff | api/token.go:30-75 | The checks of renewal pass exactly for refresh tokens handed out by login that are unexpired and whose session is not blocked |
| Sessions.SessionCheckIff | api/token.go:37-69 | The five checks on the session row, and the status of each refusal, written out on the row |
| Sessions.ClearedIff | api/token.go:37-71 | The same for a renewal under way: it passes exactly if the token is unexpired and the session unblocked at the moment its row is read |
| Sessions.BlockedTooLate | api/token.go:37-75 | A renewal that read its session before the blocking still hands out a token, whose life reaches the bound of AcceptedTokens |
| Sessions.SessionsAgree | api/user.go:122-141 | A session row's id, username and expiry are those inside the refresh token it stores |
| Sessions.LoginGrants | api/user.go:88-155 | After a login its access token is accepted and its refresh token passes renewal exactly while their durations last, counted from minting |
| Sessions.RenewalGrants | api/token.go:30-86 | A renewal with nothing in its way hands out a token accepted for exactly one access duration |
| Sessions.BlockedForever | api/token.go:46-50 | A blocked session stays blocked through every run, so no renewal that reads it afterwards passes |
| Sessions.BlockTakesEffect | api/token.go:46-50 | Any session can be blocked, once, and then its refresh token is refused |
| Sessions.InvStep | gapi/rpc_login_user.go:47-66 | Every statement of login and renewal, interleaved with blocking and credential changes, keeps every token traced and every session row in agreement |
| EndToEnd.DebitsAreOwners | api/middleware.go:20-52 | In every run of the whole API, whatever step lowers the balance of an account commits a transfer submitted at an earlier step for this account and amount, with a token accepted at that moment and handed out after the owner presented its password, within the refresh plus access duration before |
| EndToEnd.AccountsAreOwners | api/account.go:16-28 | Every account was opened at a step of the run by its owner, in its currency, with a token accepted at that moment |
| EndToEnd.DebitsHappen | api/transfer.go:20-57 | For every positive amount a run of the whole API, from two sign-ups over logins and account openings to a committed debit |
| EndToEnd.InvStep | api/server.go:47-56 | Logins, renewals, requests and transactions interleaved keep every admitted request traced to a login of its user |

## Left out

- Transaction bodies in `Protocol.dfy` are lists of statements whose parameters are fixed beforehand; the verification transaction, whose second statement uses the row returned by the first, has its own machine.
- Keys.KeysUnique: sequences are unbounded integers; exhaustion of bigserial is not modelled.
- Sessions.AcceptedTokens: the two clock readings inside one NewPayload count as one.
- EndToEnd.DebitsAreOwners: the token check and the first account lookup of a request are one step; the gRPC profile update and sign-up tables have their own machine.
- Sessions.SessionsAgree: times are integers of one precision; the rounding of timestamptz to microseconds is not modelled.
- Sessions.RenewIff: PASETO is ideal encryption, bcrypt an injective hash, and UUIDs are fresh by construction.
- SqlStore.Queries.CreateTransfer: in the classes one transaction runs at a time; interleaving is the subject of the state machines.
- SqlStore.Store.Finish: a commit whose acknowledgement is lost is not modelled.
- SqlStore.Store.TransferTx: the partly filled result returned beside an error is not specified; no caller reads it.
- Handlers.ProcessTaskSendVerifyEmail: the text of the mail is its address, user, row id and code; asynq delays, weights and retry counts become "any number of attempts".
- EmailProtocol.InvStep: rows are never deleted, as no handler deletes any; the foreign-key locks of single-statement transactions never outlive a step and are not modelled.
- Handlers.UpdateUser: the field validators are one verdict passed in, and bcrypt never refuses a password.
- The statuses of `getAccount`, of the REST `createUser` and of the gRPC `VerifyEmail`: their statements are modelled.
- `UpdateAccount`, `DeleteAccount` and the list queries on entries and transfers: called by no handler.
- The JWT maker, field validators, routing, logging, configuration, migrations down, mocks and the web front end.
- PostgreSQL beyond committed rows, private writes, row locks, unique and foreign-key checks and sequences.
