// The store: tables changed in place by one statement after another, and transactions that commit or leave no trace.
module SqlStore {
  import opened Wrappers
  import opened Integers
  import opened Bank
  import opened Transfers
  import opened Users
  import opened Sessions
  import opened Paging
  import Ledger
  import EmailProtocol

  datatype Database = Database(
    bank: Tables, users: map<string, User>, emails: map<int, VerifyEmail>, sessions: map<int, Session>)

  /** The next value of each bigserial column. */
  datatype Sequences = Sequences(account: nat, transfer: nat, entry: nat, email: nat)

  /** Statements sent over one connection. `db` is what the connection sees; each statement either changes it as SQL
      says or fails and leaves it alone. `left` counts the round trips the connection survives: the fault point. */
  class Queries {
    var db: Database
    var seqs: Sequences
    var left: nat
    const now: int

    constructor (db: Database, seqs: Sequences, left: nat, now: int)
      ensures this.db == db && this.seqs == seqs && this.left == left && this.now == now
    {
      this.db, this.seqs, this.left, this.now := db, seqs, left, now;
    }

    method RoundTrip() returns (err: Option<DbError>)
      modifies this`left
      ensures left == if old(left) == 0 then 0 else old(left) - 1
      ensures err == if old(left) == 0 then Some(ConnectionLost) else None
    {
      if left == 0 {
        err := Some(ConnectionLost);
      } else {
        left, err := left - 1, None;
      }
    }

    // ----- accounts, transfers, entries

    method GetAccount(id: int) returns (row: Option<Account>, err: Option<DbError>)
      modifies this`left
      ensures left == if old(left) == 0 then 0 else old(left) - 1
      ensures err == if old(left) == 0 then Some(ConnectionLost)
                     else if id !in db.bank.accounts then Some(NoRows) else None
      ensures row == if err.None? then Some(db.bank.accounts[id]) else None
    {
      err := RoundTrip();
      row := None;
      if err.None? {
        if id in db.bank.accounts {
          row := Some(db.bank.accounts[id]);
        } else {
          err := Some(NoRows);
        }
      }
    }

    /** One page of the owner's accounts: an index scan by id that filters, skips `offset` rows and stops at `limit`. */
    method ListAccounts(owner: string, limit: nat, offset: int) returns (items: seq<Account>, err: Option<DbError>)
      modifies this`left
      ensures left == if old(left) == 0 then 0 else old(left) - 1
      ensures err == if old(left) == 0 then Some(ConnectionLost) else if offset < 0 then Some(OutOfRange) else None
      ensures items == if err.None? then Slice(Owned(db.bank.accounts, owner, seqs.account), limit, offset) else []
    {
      items := [];
      err := RoundTrip();
      if err.None? && offset < 0 {
        err := Some(OutOfRange);
      }
      if err.Some? {
        return;
      }
      var accounts := db.bank.accounts;
      var id, skipped := 0, 0;
      while id < seqs.account && |items| < limit
        invariant id <= seqs.account
        invariant skipped == Min(offset, |Owned(accounts, owner, id)|)
        invariant items == Slice(Owned(accounts, owner, id), limit, offset)
      {
        if id in accounts && accounts[id].owner == owner {
          if skipped < offset {
            skipped := skipped + 1;
          } else {
            items := items + [accounts[id]];
          }
        }
        id := id + 1;
      }
      OwnedGrows(accounts, owner, id, seqs.account);
      FullSlice(Owned(accounts, owner, id), Owned(accounts, owner, seqs.account), limit, offset);
    }

    method CreateAccount(owner: string, balance: Int64, currency: string) returns (row: Account, err: Option<DbError>)
      modifies this
      ensures left == if old(left) == 0 then 0 else old(left) - 1
      ensures err == if old(left) == 0 then Some(ConnectionLost)
                     else if exists a | a in old(db).bank.accounts ::
                               old(db).bank.accounts[a].owner == owner && old(db).bank.accounts[a].currency == currency
                     then Some(UniqueViolation)
                     else if owner !in old(db).users then Some(ForeignKeyViolation)
                     else None
      ensures row == Account(old(seqs).account, owner, balance, currency, now)
      ensures db == if err.None? then WithAccounts(old(db), old(db).bank.accounts[row.id := row]) else old(db)
      ensures seqs == if old(left) == 0 then old(seqs) else old(seqs).(account := old(seqs).account + 1)
    {
      row := Account(seqs.account, owner, balance, currency, now);
      err := RoundTrip();
      if err.None? {
        seqs := seqs.(account := seqs.account + 1);
        if HasAccount(db.bank.accounts, owner, currency) {
          err := Some(UniqueViolation);
        } else if owner !in db.users {
          err := Some(ForeignKeyViolation);
        } else {
          db := WithAccounts(db, db.bank.accounts[row.id := row]);
        }
      }
    }

    method CreateTransfer(arg: TransferParams) returns (row: Transfer, err: Option<DbError>)
      modifies this
      ensures left == if old(left) == 0 then 0 else old(left) - 1
      ensures err == if old(left) == 0 then Some(ConnectionLost)
                     else if !Exist(old(db).bank.accounts, arg) then Some(ForeignKeyViolation)
                     else None
      ensures row == Transfer(old(seqs).transfer, arg.from, arg.to, arg.amount, now)
      ensures db == if err.None? then old(db).(bank := old(db).bank.(transfers := old(db).bank.transfers + [row]))
                    else old(db)
      ensures seqs == if old(left) == 0 then old(seqs) else old(seqs).(transfer := old(seqs).transfer + 1)
    {
      row := Transfer(seqs.transfer, arg.from, arg.to, arg.amount, now);
      err := RoundTrip();
      if err.None? {
        seqs := seqs.(transfer := seqs.transfer + 1);
        if arg.from in db.bank.accounts && arg.to in db.bank.accounts {
          db := db.(bank := db.bank.(transfers := db.bank.transfers + [row]));
        } else {
          err := Some(ForeignKeyViolation);
        }
      }
    }

    method CreateEntry(account: int, amount: int) returns (row: Entry, err: Option<DbError>)
      modifies this
      ensures left == if old(left) == 0 then 0 else old(left) - 1
      ensures err == if old(left) == 0 then Some(ConnectionLost)
                     else if account !in old(db).bank.accounts then Some(ForeignKeyViolation)
                     else None
      ensures row == Entry(old(seqs).entry, account, amount, now)
      ensures db == if err.None? then old(db).(bank := old(db).bank.(entries := old(db).bank.entries + [row]))
                    else old(db)
      ensures seqs == if old(left) == 0 then old(seqs) else old(seqs).(entry := old(seqs).entry + 1)
    {
      row := Entry(seqs.entry, account, amount, now);
      err := RoundTrip();
      if err.None? {
        seqs := seqs.(entry := seqs.entry + 1);
        if account in db.bank.accounts {
          db := db.(bank := db.bank.(entries := db.bank.entries + [row]));
        } else {
          err := Some(ForeignKeyViolation);
        }
      }
    }

    method AddAccountBalance(id: int, amount: int) returns (row: Option<Account>, err: Option<DbError>)
      modifies this`db, this`left
      ensures left == if old(left) == 0 then 0 else old(left) - 1
      ensures err == if old(left) == 0 then Some(ConnectionLost)
                     else if id !in old(db).bank.accounts then Some(NoRows)
                     else if !InInt64(old(db).bank.accounts[id].balance + amount) then Some(OutOfRange)
                     else None
      ensures err.None? ==> row == Some(Credit(old(db).bank.accounts[id], amount))
      ensures db == if err.None? then
                      WithAccounts(old(db), old(db).bank.accounts[id := Credit(old(db).bank.accounts[id], amount)])
                    else old(db)
    {
      row := None;
      err := RoundTrip();
      if err.None? {
        if id !in db.bank.accounts {
          err := Some(NoRows);
        } else if !InInt64(db.bank.accounts[id].balance + amount) {
          err := Some(OutOfRange);
        } else {
          var account := Credit(db.bank.accounts[id], amount);
          db := WithAccounts(db, db.bank.accounts[id := account]);
          row := Some(account);
        }
      }
    }

    /** Two updates; the second is not sent if the first fails. */
    method AddMoney(account1: int, amount1: int, account2: int, amount2: int)
      returns (row1: Option<Account>, row2: Option<Account>, err: Option<DbError>)
      modifies this`db, this`left
      ensures err.None? <==> old(left) >= 2 && CanAddMoney(old(db).bank.accounts, account1, amount1, account2, amount2)
      ensures left <= old(left) <= left + 2 && (err.None? ==> left == old(left) - 2)
      ensures err.None? ==> var before := old(db).bank.accounts;
                            var accounts := before[account1 := Credit(before[account1], amount1)];
                            && row1 == Some(accounts[account1])
                            && row2 == Some(Credit(accounts[account2], amount2))
                            && db == WithAccounts(old(db), accounts[account2 := Credit(accounts[account2], amount2)])
      ensures err.Some? && old(left) >= 2 && account1 in old(db).bank.accounts && account2 in old(db).bank.accounts ==>
                err.value.OutOfRange?
    {
      row2 := None;
      row1, err := AddAccountBalance(account1, amount1);
      if err.Some? {
        return;
      }
      row2, err := AddAccountBalance(account2, amount2);
    }

    // ----- users, verification codes, sessions

    method CreateUser(arg: CreateUserParams) returns (row: User, err: Option<DbError>)
      modifies this`db, this`left
      ensures left == if old(left) == 0 then 0 else old(left) - 1
      ensures err == if old(left) == 0 then Some(ConnectionLost)
                     else if arg.username in old(db).users ||
                             exists name | name in old(db).users :: old(db).users[name].email == arg.email
                     then Some(UniqueViolation)
                     else None
      ensures row == NewUser(arg, now)
      ensures row.username == arg.username && row.hashedPassword == arg.hashedPassword
      ensures row.fullName == arg.fullName && row.email == arg.email && row.createdAt == now
      ensures row.passwordChangedAt == 0 && !row.isEmailVerified && row.role == "depositor"
      ensures db == if err.None? then old(db).(users := old(db).users[arg.username := row]) else old(db)
    {
      row := NewUser(arg, now);
      err := RoundTrip();
      if err.None? {
        if Taken(db.users, arg) {
          err := Some(UniqueViolation);
        } else {
          db := db.(users := db.users[arg.username := row]);
        }
      }
    }

    method GetUser(username: string) returns (row: Option<User>, err: Option<DbError>)
      modifies this`left
      ensures left == if old(left) == 0 then 0 else old(left) - 1
      ensures err == if old(left) == 0 then Some(ConnectionLost)
                     else if username !in db.users then Some(NoRows) else None
      ensures row == if err.None? then Some(db.users[username]) else None
    {
      err := RoundTrip();
      row := None;
      if err.None? {
        if username in db.users {
          row := Some(db.users[username]);
        } else {
          err := Some(NoRows);
        }
      }
    }

    /** COALESCE keeps the stored value of every column that is not set; a new email must be nobody else's. */
    method UpdateUser(username: string, update: UserUpdate) returns (row: Option<User>, err: Option<DbError>)
      modifies this`db, this`left
      ensures left == if old(left) == 0 then 0 else old(left) - 1
      ensures err == if old(left) == 0 then Some(ConnectionLost)
                     else if username !in old(db).users then Some(NoRows)
                     else if update.email.Some? && exists name | name in old(db).users ::
                               name != username && old(db).users[name].email == update.email.value
                     then Some(UniqueViolation)
                     else None
      ensures err.None? ==> row == Some(ApplyUpdate(old(db).users[username], update))
      ensures db == if err.None? then
                      old(db).(users := old(db).users[username := ApplyUpdate(old(db).users[username], update)])
                    else old(db)
    {
      row := None;
      err := RoundTrip();
      if err.None? {
        if username !in db.users {
          err := Some(NoRows);
        } else if update.email.Some? && EmailTaken(db.users, update.email.value, username) {
          err := Some(UniqueViolation);
        } else {
          var user := ApplyUpdate(db.users[username], update);
          db := db.(users := db.users[username := user]);
          row := Some(user);
        }
      }
    }

    method CreateVerifyEmail(username: string, email: string, secretCode: string)
      returns (row: VerifyEmail, err: Option<DbError>)
      modifies this
      ensures left == if old(left) == 0 then 0 else old(left) - 1
      ensures err == if old(left) == 0 then Some(ConnectionLost)
                     else if username !in old(db).users then Some(ForeignKeyViolation)
                     else None
      ensures row == NewVerifyEmail(old(seqs).email, username, email, secretCode, now)
      ensures row.id == old(seqs).email && row.username == username && row.email == email
      ensures row.secretCode == secretCode && !row.isUsed && row.createdAt == now && row.expiredAt == now + 900
      ensures db == if err.None? then old(db).(emails := old(db).emails[row.id := row]) else old(db)
      ensures seqs == if old(left) == 0 then old(seqs) else old(seqs).(email := old(seqs).email + 1)
    {
      row := NewVerifyEmail(seqs.email, username, email, secretCode, now);
      err := RoundTrip();
      if err.None? {
        seqs := seqs.(email := seqs.email + 1);
        if username in db.users {
          db := db.(emails := db.emails[row.id := row]);
        } else {
          err := Some(ForeignKeyViolation);
        }
      }
    }

    /** The guarded update that consumes a code; no row qualifies unless the code is unused, right and unexpired. */
    method UpdateVerifyEmail(id: int, secretCode: string) returns (row: Option<VerifyEmail>, err: Option<DbError>)
      modifies this`db, this`left
      ensures left == if old(left) == 0 then 0 else old(left) - 1
      ensures err == if old(left) == 0 then Some(ConnectionLost)
                     else if !Consumable(old(db).emails, id, secretCode, now) then Some(NoRows)
                     else None
      ensures err.None? <==>
                && old(left) > 0 && id in old(db).emails && old(db).emails[id].secretCode == secretCode
                && !old(db).emails[id].isUsed && old(db).emails[id].expiredAt > now
      ensures err.None? ==> row == Some(old(db).emails[id].(isUsed := true))
      ensures db == if err.None? then
                      old(db).(emails := old(db).emails[id := old(db).emails[id].(isUsed := true)])
                    else old(db)
    {
      row := None;
      err := RoundTrip();
      if err.None? {
        if Consumable(db.emails, id, secretCode, now) {
          var used := db.emails[id].(isUsed := true);
          db := db.(emails := db.emails[id := used]);
          row := Some(used);
        } else {
          err := Some(NoRows);
        }
      }
    }

    method CreateSession(session: Session) returns (err: Option<DbError>)
      modifies this`db, this`left
      ensures left == if old(left) == 0 then 0 else old(left) - 1
      ensures err == if old(left) == 0 then Some(ConnectionLost)
                     else if session.id in old(db).sessions then Some(UniqueViolation)
                     else if session.username !in old(db).users then Some(ForeignKeyViolation)
                     else None
      ensures db == if err.None? then old(db).(sessions := old(db).sessions[session.id := session]) else old(db)
    {
      err := RoundTrip();
      if err.None? {
        if session.id in db.sessions {
          err := Some(UniqueViolation);
        } else if session.username !in db.users {
          err := Some(ForeignKeyViolation);
        } else {
          db := db.(sessions := db.sessions[session.id := session]);
        }
      }
    }
  }

  function WithAccounts(db: Database, accounts: map<int, Account>): Database {
    db.(bank := db.bank.(accounts := accounts))
  }

  /** No owner has two accounts in one currency, and every owner is a user. */
  ghost predicate OwnersOk(accounts: map<int, Account>, users: map<string, User>) {
    && (forall a | a in accounts :: accounts[a].owner in users)
    && (forall a, b | a in accounts && b in accounts && a != b ::
          accounts[a].owner != accounts[b].owner || accounts[a].currency != accounts[b].currency)
  }

  /** No two users share an address. */
  ghost predicate EmailsUnique(users: map<string, User>) {
    forall a, b | a in users && b in users && a != b :: users[a].email != users[b].email
  }

  /** What every operation keeps: the books balance, owners have one account per currency, users one address each, rows
      sit under their keys and below their sequences, each code belongs to a user, and a user is flagged exactly when
      one of the user's codes is used. */
  ghost predicate Consistent(db: Database, seqs: Sequences) {
    && Ledger.LedgerOk(db.bank) && OwnersOk(db.bank.accounts, db.users) && EmailsUnique(db.users)
    && (forall id | id in db.bank.accounts :: id < seqs.account)
    && (forall name | name in db.users :: db.users[name].username == name)
    && (forall id | id in db.emails :: db.emails[id].id == id < seqs.email && db.emails[id].username in db.users)
    && EmailProtocol.FlagOk(db.users, db.emails)
  }

  /** Sequences only move forward. */
  predicate Forward(seqs: Sequences, seqs': Sequences) {
    && seqs.account <= seqs'.account && seqs.transfer <= seqs'.transfer
    && seqs.entry <= seqs'.entry && seqs.email <= seqs'.email
  }

  /** A transfer keeps the database consistent unless its amount is the one that int64 cannot negate. */
  lemma TransferKeepsOwners(db: Tables, users: map<string, User>, arg: TransferParams, stamp: Stamp)
    requires OwnersOk(db.accounts, users) && Exist(db.accounts, arg)
    ensures OwnersOk(TransferSpec(db, arg, stamp).accounts, users)
  {
    WrittenRows(db, arg, stamp);
    var accounts' := TransferSpec(db, arg, stamp).accounts;
    forall id | id in db.accounts
      ensures accounts'[id].owner == db.accounts[id].owner && accounts'[id].currency == db.accounts[id].currency
    {
      assert accounts'[id].(balance := 0) == db.accounts[id].(balance := 0);
      assert accounts'[id].owner == accounts'[id].(balance := 0).owner == db.accounts[id].owner;
      assert accounts'[id].currency == accounts'[id].(balance := 0).currency == db.accounts[id].currency;
    }
  }

  lemma TransferKeepsConsistent(db: Database, seqs: Sequences, seqs': Sequences, arg: TransferParams, stamp: Stamp)
    requires Consistent(db, seqs) && Forward(seqs, seqs') && Exist(db.bank.accounts, arg)
    ensures Consistent(db.(bank := TransferSpec(db.bank, arg, stamp)), seqs') <==> arg.amount != MIN_INT64
  {
    Ledger.TransferKeepsLedger(db.bank, arg, stamp);
    TransferKeepsOwners(db.bank, db.users, arg, stamp);
  }

  /** Committed or not, a transfer leaves a consistent database consistent. */
  lemma TransferEnds(db: Database, seqs: Sequences, db': Database, seqs': Sequences, arg: TransferParams, stamp: Stamp,
                     committed: bool)
    requires Forward(seqs, seqs') && (committed ==> Exist(db.bank.accounts, arg))
    requires db' == if committed then db.(bank := TransferSpec(db.bank, arg, stamp)) else db
    ensures Consistent(db, seqs) ==> (Consistent(db', seqs') <==> !committed || arg.amount != MIN_INT64)
  {
    if Consistent(db, seqs) && committed {
      TransferKeepsConsistent(db, seqs, seqs', arg, stamp);
    }
  }

  /** A user row may be replaced by one with the same key and flag, and a new unverified user may come in. */
  lemma UserKeepsConsistent(db: Database, seqs: Sequences, user: User)
    requires Consistent(db, seqs)
    requires if user.username in db.users then user.isEmailVerified == db.users[user.username].isEmailVerified
             else !user.isEmailVerified
    requires !EmailTaken(db.users, user.email, user.username)
    ensures Consistent(db.(users := db.users[user.username := user]), seqs)
  {
    assert forall id | id in db.emails && db.emails[id].username == user.username :: user.username in db.users;
  }

  lemma CodeKeepsConsistent(db: Database, seqs: Sequences, row: VerifyEmail)
    requires Consistent(db, seqs) && row.id == seqs.email && !row.isUsed && row.username in db.users
    ensures Consistent(db.(emails := db.emails[row.id := row]), seqs.(email := seqs.email + 1))
  {
    EmailProtocol.StoreCodeFlags(db.users, db.emails, row);
  }

  lemma VerifyKeepsConsistent(db: Database, seqs: Sequences, id: int)
    requires Consistent(db, seqs) && id in db.emails
    ensures var row := db.emails[id].(isUsed := true);
            var user := ApplyUpdate(db.users[row.username], VERIFIED);
            Consistent(db.(emails := db.emails[id := row], users := db.users[row.username := user]), seqs)
  {
    var row := db.emails[id].(isUsed := true);
    EmailProtocol.CommitVerifyFlags(db.users, db.emails, row, ApplyUpdate(db.users[row.username], VERIFIED));
  }

  lemma OpenKeepsConsistent(db: Database, seqs: Sequences, account: Account)
    requires Consistent(db, seqs) && account.id == seqs.account && account.balance == 0
    requires account.owner in db.users && !HasAccount(db.bank.accounts, account.owner, account.currency)
    ensures Consistent(WithAccounts(db, db.bank.accounts[account.id := account]), seqs.(account := seqs.account + 1))
  {
    Ledger.OpenKeepsLedger(db.bank, account);
    OpenKeepsOwners(db.bank.accounts, db.users, account);
  }

  lemma OpenKeepsOwners(accounts: map<int, Account>, users: map<string, User>, account: Account)
    requires OwnersOk(accounts, users) && account.owner in users
    requires !HasAccount(accounts, account.owner, account.currency)
    ensures OwnersOk(accounts[account.id := account], users)
  {
  }

  predicate HasAccount(accounts: map<int, Account>, owner: string, currency: string) {
    exists id | id in accounts :: accounts[id].owner == owner && accounts[id].currency == currency
  }

  predicate CanAddMoney(accounts: map<int, Account>, account1: int, amount1: int, account2: int, amount2: int) {
    && account1 in accounts && account2 in accounts
    && InInt64(accounts[account1].balance + amount1)
    && var accounts' := accounts[account1 := Credit(accounts[account1], amount1)];
       InInt64(accounts'[account2].balance + amount2)
  }

  predicate EmailTaken(users: map<string, User>, email: string, username: string) {
    exists name | name in users :: name != username && users[name].email == email
  }

  predicate Taken(users: map<string, User>, arg: CreateUserParams) {
    arg.username in users || EmailTaken(users, arg.email, arg.username)
  }

  /** Redis, as far as sign-up is concerned: the tasks enqueued, and whether it answers. */
  class Distributor {
    var tasks: seq<string>
    var up: bool

    method DistributeTaskSendVerifyEmail(username: string) returns (err: Option<DbError>)
      modifies this`tasks
      ensures err == if up then None else Some(Callback)
      ensures tasks == if up then old(tasks) + [username] else old(tasks)
    {
      if up {
        tasks, err := tasks + [username], None;
      } else {
        err := Some(Callback);
      }
    }
  }

  // ----- transactions

  const NO_TRANSFER := Transfer(0, 0, 0, 0, 0)
  const NO_ENTRY := Entry(0, 0, 0, 0)
  const NO_ACCOUNT := Account(0, "", 0, "", 0)
  const NO_RESULT := TransferResult(NO_TRANSFER, NO_ACCOUNT, NO_ACCOUNT, NO_ENTRY, NO_ENTRY)

  const NO_DATA := Database(NO_ROWS_WRITTEN, map[], map[], map[])

  /** The connection pool outside any transaction: every statement on it commits by itself. */
  class Store {
    const pool: Queries

    /** The committed database is consistent. */
    ghost predicate Valid()
      reads pool
    {
      Consistent(pool.db, pool.seqs)
    }

    /** A pool on the freshly migrated, empty database. */
    constructor Migrated(left: nat, now: int)
      ensures Valid() && fresh(pool)
      ensures pool.db == NO_DATA && pool.seqs == Sequences(1, 1, 1, 1) && pool.left == left && pool.now == now
    {
      pool := new Queries(NO_DATA, Sequences(1, 1, 1, 1), left, now);
    }

    constructor (pool: Queries)
      ensures this.pool == pool
    {
      this.pool := pool;
    }

    /** The first half of execTx: a transaction that sees the committed tables and writes privately. */
    method Begin() returns (q: Queries, err: Option<DbError>)
      modifies pool`left
      ensures fresh(q) && q.db == pool.db && q.seqs == pool.seqs && q.left == pool.left && q.now == pool.now
      ensures pool.left == if old(pool.left) == 0 then 0 else old(pool.left) - 1
      ensures err == if old(pool.left) == 0 then Some(ConnectionLost) else None
    {
      err := pool.RoundTrip();
      q := new Queries(pool.db, pool.seqs, pool.left, pool.now);
    }

    /** The second half of execTx, given the error its function returned: roll back and leave no trace, or commit
        everything at once. Sequences never roll back. */
    method Finish(q: Queries, txErr: Option<DbError>) returns (err: Option<DbError>)
      requires q != pool
      modifies pool
      ensures err.None? <==> txErr.None? && q.left > 0
      ensures pool.db == if err.None? then q.db else old(pool.db)
      ensures pool.seqs == q.seqs && pool.left == if q.left == 0 then 0 else q.left - 1
      ensures txErr.Some? ==> err == if q.left > 0 then txErr else Some(TxAndRollback(txErr.value, ConnectionLost))
      ensures txErr.None? && err.Some? ==> err == Some(ConnectionLost)
    {
      pool.left, pool.seqs := q.left, q.seqs;
      var trip := pool.RoundTrip();
      if txErr.Some? {
        err := if trip.Some? then Some(TxAndRollback(txErr.value, trip.value)) else txErr;
      } else {
        if trip.None? {
          pool.db := q.db;
        }
        err := trip;
      }
    }

    /** The function TransferTx runs in its transaction. */
    method TransferBody(q: Queries, arg: TransferParams) returns (result: TransferResult, err: Option<DbError>)
      modifies q
      ensures err.None? <==> old(q.left) >= 5 && CanTransfer(old(q.db).bank.accounts, arg)
      ensures old(q.left) <= q.left + 5 && (err.None? ==> q.left == old(q.left) - 5)
      ensures Forward(old(q.seqs), q.seqs)
      ensures var stamp := Stamp(old(q.seqs).transfer, old(q.seqs).entry, old(q.seqs).entry + 1, q.now);
              err.None? ==>
                && q.db == old(q.db).(bank := TransferSpec(old(q.db).bank, arg, stamp))
                && result == ResultSpec(old(q.db).bank, arg, stamp)
      ensures err.Some? && old(q.left) >= 5 ==>
                err.value == if Exist(old(q.db).bank.accounts, arg) then OutOfRange else ForeignKeyViolation
    {
      result := NO_RESULT;
      ghost var accounts := q.db.bank.accounts;
      var transfer;
      transfer, err := q.CreateTransfer(arg);
      result := result.(transfer := transfer);
      if err.Some? {
        return;
      }
      var fromEntry;
      fromEntry, err := q.CreateEntry(arg.from, Neg64(arg.amount));
      result := result.(fromEntry := fromEntry);
      if err.Some? {
        return;
      }
      var toEntry;
      toEntry, err := q.CreateEntry(arg.to, arg.amount);
      result := result.(toEntry := toEntry);
      if err.Some? {
        return;
      }
      assert q.db.bank.accounts == accounts;
      var fromAccount, toAccount;
      if arg.from < arg.to {
        fromAccount, toAccount, err := q.AddMoney(arg.from, Neg64(arg.amount), arg.to, arg.amount);
      } else {
        toAccount, fromAccount, err := q.AddMoney(arg.to, arg.amount, arg.from, Neg64(arg.amount));
      }
      if err.None? {
        result := result.(fromAccount := fromAccount.value, toAccount := toAccount.value);
      }
    }

    /** Either the whole transfer, as "debit from, credit to" says, or nothing, whichever round trip is lost. */
    method TransferTx(arg: TransferParams) returns (result: TransferResult, err: Option<DbError>)
      modifies pool
      ensures err.None? <==> old(pool.left) >= 7 && CanTransfer(old(pool.db).bank.accounts, arg)
      ensures var stamp := Stamp(old(pool.seqs).transfer, old(pool.seqs).entry, old(pool.seqs).entry + 1, pool.now);
              if err.None? then
                && pool.db == old(pool.db).(bank := TransferSpec(old(pool.db).bank, arg, stamp))
                && result == ResultSpec(old(pool.db).bank, arg, stamp)
              else
                pool.db == old(pool.db)
      ensures err.None? ==>
                var seqs, now, minus := old(pool.seqs), pool.now,
                                        if arg.amount == -9223372036854775808 then arg.amount else 0 - arg.amount;
                var accounts := old(pool.db).bank.accounts;
                && arg.from in accounts && arg.to in accounts
                && result.transfer == Transfer(seqs.transfer, arg.from, arg.to, arg.amount, now)
                && result.fromEntry == Entry(seqs.entry, arg.from, minus, now)
                && result.toEntry == Entry(seqs.entry + 1, arg.to, arg.amount, now)
                && result.toAccount == accounts[arg.to].(balance := accounts[arg.to].balance + arg.amount)
                && result.fromAccount == accounts[arg.from].(
                     balance := accounts[arg.from].balance + minus + if arg.from == arg.to then arg.amount else 0)
      ensures err.Some? && old(pool.left) >= 7 ==>
                err.value == if Exist(old(pool.db).bank.accounts, arg) then OutOfRange else ForeignKeyViolation
      ensures Forward(old(pool.seqs), pool.seqs)
      ensures old(Valid()) ==> (Valid() <==> err.Some? || arg.amount != MIN_INT64)
    {
      result := NO_RESULT;
      ghost var db, seqs := pool.db, pool.seqs;
      var q;
      q, err := Begin();
      if err.Some? {
        return;
      }
      result, err := TransferBody(q, arg);
      err := Finish(q, err);
      if err.None? {
        ResultFields(db.bank, arg, Stamp(seqs.transfer, seqs.entry, seqs.entry + 1, pool.now));
      }
      ghost var stamp := Stamp(seqs.transfer, seqs.entry, seqs.entry + 1, pool.now);
      TransferEnds(db, seqs, pool.db, pool.seqs, arg, stamp, err.None?);
    }

    /** Consume the code and flag its user, both or neither. */
    method VerifyEmailTx(emailId: int, secretCode: string)
      returns (user: Option<User>, verifyEmail: Option<VerifyEmail>, err: Option<DbError>)
      modifies pool
      ensures err.None? <==>
                && old(pool.left) >= 4
                && Consumable(old(pool.db).emails, emailId, secretCode, pool.now)
                && old(pool.db).emails[emailId].username in old(pool.db).users
      ensures old(Valid()) ==>
                (err.None? <==> old(pool.left) >= 4 && Consumable(old(pool.db).emails, emailId, secretCode, pool.now))
      ensures if err.None? then
                var row := old(pool.db).emails[emailId];
                var flagged := old(pool.db).users[row.username].(isEmailVerified := true);
                && pool.db == old(pool.db).(emails := old(pool.db).emails[emailId := row.(isUsed := true)],
                                            users := old(pool.db).users[row.username := flagged])
                && user == Some(flagged) && verifyEmail == Some(row.(isUsed := true))
              else
                pool.db == old(pool.db)
      ensures old(Valid()) ==> Valid()
    {
      user, verifyEmail := None, None;
      ghost var db, seqs := pool.db, pool.seqs;
      var q;
      q, err := Begin();
      if err.Some? {
        return;
      }
      verifyEmail, err := q.UpdateVerifyEmail(emailId, secretCode);
      if err.None? {
        user, err := q.UpdateUser(verifyEmail.value.username, VERIFIED);
      }
      err := Finish(q, err);
      if Consistent(db, seqs) && err.None? {
        VerifyKeepsConsistent(db, seqs, emailId);
      }
    }

    /** Insert the user, run the callback that enqueues the task, then commit: a committed user has its task enqueued,
        and whenever anything fails the tables are as before, though the task may stay behind. */
    method CreateUserTx(arg: CreateUserParams, distributor: Distributor) returns (user: User, err: Option<DbError>)
      modifies pool, distributor`tasks
      ensures err.None? <==>
                && old(pool.left) >= 3 && distributor.up && arg.username !in old(pool.db).users
                && forall name | name in old(pool.db).users :: old(pool.db).users[name].email != arg.email
      ensures pool.left <= old(pool.left) <= pool.left + 3
      ensures pool.db == if err.None? then old(pool.db).(users := old(pool.db).users[arg.username := user])
                         else old(pool.db)
      ensures err.None? ==>
                && user.username == arg.username && user.hashedPassword == arg.hashedPassword
                && user.fullName == arg.fullName && user.email == arg.email && user.createdAt == pool.now
                && user.passwordChangedAt == 0 && !user.isEmailVerified && user.role == "depositor"
      ensures err.None? ==> user == NewUser(arg, pool.now)
      ensures distributor.tasks ==
                if old(pool.left) >= 2 && distributor.up && arg.username !in old(pool.db).users &&
                   forall name | name in old(pool.db).users :: old(pool.db).users[name].email != arg.email
                then old(distributor.tasks) + [arg.username] else old(distributor.tasks)
      ensures err.Some? && old(pool.left) >= 3 ==>
                err.value == if arg.username in old(pool.db).users ||
                                exists name | name in old(pool.db).users :: old(pool.db).users[name].email == arg.email
                             then UniqueViolation else Callback
      ensures err.Some? && old(pool.left) < 3 ==> !err.value.UniqueViolation?
      ensures old(Valid()) ==> Valid()
    {
      user := NewUser(arg, pool.now);
      ghost var db, seqs := pool.db, pool.seqs;
      var q;
      q, err := Begin();
      if err.Some? {
        return;
      }
      user, err := q.CreateUser(arg);
      if err.None? {
        err := distributor.DistributeTaskSendVerifyEmail(user.username);
      }
      err := Finish(q, err);
      if Consistent(db, seqs) && err.None? {
        UserKeepsConsistent(db, seqs, user);
      }
    }
  }
}
