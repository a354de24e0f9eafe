// The money tables, the SQL statements that touch them, and a transaction body run on its own.
module Bank {
  import opened Wrappers
  import opened Integers

  datatype Account = Account(id: int, owner: string, balance: int, currency: string, createdAt: int)

  datatype Transfer = Transfer(id: int, from: int, to: int, amount: int, createdAt: int)

  datatype Entry = Entry(id: int, account: int, amount: int, createdAt: int)

  /** The three tables. `transfers` and `entries` only ever grow, so they are kept in commit order. The same shape
      serves as a transaction's private writes: overwritten account rows and appended transfer and entry rows. */
  datatype Tables = Tables(accounts: map<int, Account>, transfers: seq<Transfer>, entries: seq<Entry>)

  const NO_ROWS_WRITTEN: Tables := Tables(map[], [], [])

  /** The tables after the private writes `w` become visible. */
  function Merge(db: Tables, w: Tables): Tables {
    Tables(db.accounts + w.accounts, db.transfers + w.transfers, db.entries + w.entries)
  }

  /** What the database does for one statement, cut at the points where it may have to wait. An INSERT adds its row and
      then runs one foreign-key check per referenced account; an UPDATE is a single locked read-modify-write; a SELECT
      reads a row, either plainly or FOR NO KEY UPDATE. */
  datatype Op =
    | InsertTransfer(from: int, to: int, amount: int)
    | InsertEntry(account: int, amount: int)
    | CheckKey(account: int)
    | AddBalance(account: int, amount: int)
    | ReadAccount(account: int)
    | LockAccount(account: int)

  /** The row a statement hands back through RETURNING. */
  datatype Row =
    | TransferRow(transfer: Transfer)
    | EntryRow(entry: Entry)
    | KeyRow
    | AccountRow(account: Account)

  datatype DbError =
    | NoRows
    | ForeignKeyViolation
    | UniqueViolation
    | OutOfRange
    | ConnectionLost
    | Callback
    | TxAndRollback(txErr: DbError, rbErr: DbError)

  /** A transaction's private progress: its uncommitted writes and the rows returned so far. */
  datatype Work = Work(writes: Tables, rows: seq<Row>)

  const NO_WORK: Work := Work(NO_ROWS_WRITTEN, [])

  /** A statement sees the committed rows, overridden by the transaction's own writes. */
  function Visible(db: Tables, w: Work): map<int, Account> {
    db.accounts + w.writes.accounts
  }

  /** One step of a body. `id` is the sequence value an INSERT draws; `now` is the start time of the transaction. */
  function ExecOp(db: Tables, w: Work, op: Op, id: int, now: int): Result<Work, DbError> {
    match op
    case InsertTransfer(from, to, amount) =>
      var row := Transfer(id, from, to, amount, now);
      Ok(Work(w.writes.(transfers := w.writes.transfers + [row]), w.rows + [TransferRow(row)]))
    case InsertEntry(account, amount) =>
      var row := Entry(id, account, amount, now);
      Ok(Work(w.writes.(entries := w.writes.entries + [row]), w.rows + [EntryRow(row)]))
    case CheckKey(account) =>
      if account in Visible(db, w) then Ok(w.(rows := w.rows + [KeyRow])) else Err(ForeignKeyViolation)
    case AddBalance(account, amount) =>
      if account !in Visible(db, w) then
        Err(NoRows)
      else
        var row := Visible(db, w)[account];
        if InInt64(row.balance + amount) then
          var row' := row.(balance := row.balance + amount);
          Ok(Work(w.writes.(accounts := w.writes.accounts[account := row']), w.rows + [AccountRow(row')]))
        else
          Err(OutOfRange)
    case ReadAccount(account) => Fetch(db, w, account)
    case LockAccount(account) => Fetch(db, w, account)
  }

  /** The row a SELECT returns. */
  function Fetch(db: Tables, w: Work, account: int): Result<Work, DbError> {
    if account in Visible(db, w) then Ok(w.(rows := w.rows + [AccountRow(Visible(db, w)[account])])) else Err(NoRows)
  }

  /** An update fails exactly on a missing account or a balance outside bigint. */
  lemma UpdateFailsIff(db: Tables, w: Work, a: int, amount: int, id: int, now: int)
    ensures var r := ExecOp(db, w, AddBalance(a, amount), id, now);
            var accounts := db.accounts + w.writes.accounts;
            && (r == Err(NoRows) <==> a !in accounts)
            && (r == Err(OutOfRange) <==>
                  a in accounts && !(-9223372036854775808 <= accounts[a].balance + amount <= 9223372036854775807))
            && (r.Ok? <==> a in accounts && -9223372036854775808 <= accounts[a].balance + amount <= 9223372036854775807)
  {
  }

  /** A transaction sees its own uncommitted update, in a plain SELECT, in a locking one, in the next update and in a
      foreign-key check; what it has not written it sees as committed. */
  lemma OwnWritesVisible(db: Tables, w: Work, a: int, amount: int, b: int, id: int, now: int)
    requires a in db.accounts && ExecOp(db, w, AddBalance(a, amount), id, now).Ok?
    ensures var w' := ExecOp(db, w, AddBalance(a, amount), id, now).value;
            var before := if a in w.writes.accounts then w.writes.accounts[a] else db.accounts[a];
            var seen := AccountRow(before.(balance := before.balance + amount));
            && w'.rows == w.rows + [seen]
            && ExecOp(db, w', ReadAccount(a), id, now) == Ok(w'.(rows := w'.rows + [seen]))
            && ExecOp(db, w', LockAccount(a), id, now) == Ok(w'.(rows := w'.rows + [seen]))
            && ExecOp(db, w', CheckKey(a), id, now) == Ok(w'.(rows := w'.rows + [KeyRow]))
            && (b != a && b !in w.writes.accounts ==>
                  if b in db.accounts then
                    var row := AccountRow(db.accounts[b]);
                    && ExecOp(db, w', ReadAccount(b), id, now) == Ok(w'.(rows := w'.rows + [row]))
                    && ExecOp(db, w', LockAccount(b), id, now) == Ok(w'.(rows := w'.rows + [row]))
                  else
                    && ExecOp(db, w', ReadAccount(b), id, now) == Err(NoRows)
                    && ExecOp(db, w', LockAccount(b), id, now) == Err(NoRows)
                    && ExecOp(db, w', CheckKey(b), id, now) == Err(ForeignKeyViolation)
                    && ExecOp(db, w', AddBalance(b, amount), id, now) == Err(NoRows))
            && -9223372036854775808 <= before.balance + amount <= 9223372036854775807
  {
  }

  /** The steps that hold an account row against every other update: the UPDATE and the locking SELECT. */
  predicate Claims(op: Op) {
    op.AddBalance? || op.LockAccount?
  }

  /** Step `i` is a plain SELECT of an account that no earlier step of the body claims. */
  ghost predicate Loose(prog: seq<Op>, i: nat)
    requires i < |prog|
  {
    prog[i].ReadAccount? && forall k | 0 <= k < i && Claims(prog[k]) :: prog[k].account != prog[i].account
  }

  /** The rows returned by two runs of a body are the same, those of loose SELECTs aside. */
  ghost predicate SameRows(prog: seq<Op>, rows: seq<Row>, rows': seq<Row>) {
    && |rows| == |rows'| <= |prog|
    && forall i: nat | i < |rows| && !Loose(prog, i) :: rows[i] == rows'[i]
  }

  /** Two runs of a body have written the same and, loose SELECTs aside, returned the same. */
  ghost predicate SameWork(prog: seq<Op>, w: Work, w': Work) {
    w.writes == w'.writes && SameRows(prog, w.rows, w'.rows)
  }

  lemma SameWorkTransitive(prog: seq<Op>, a: Work, b: Work, c: Work)
    requires SameWork(prog, a, b) && SameWork(prog, b, c)
    ensures SameWork(prog, a, c)
  {
  }

  lemma NoPlainReads(prog: seq<Op>, w: Work, w': Work)
    requires SameWork(prog, w, w') && forall i | 0 <= i < |prog| :: !prog[i].ReadAccount?
    ensures w == w'
  {
    assert w.rows == w'.rows;
  }

  /** The first `n` steps of a body with nobody else around: every statement reads the same committed tables. */
  function RunAlone(db: Tables, prog: seq<Op>, ids: seq<int>, now: int, n: nat): Result<Work, DbError>
    requires n <= |prog| && n <= |ids|
  {
    if n == 0 then
      Ok(NO_WORK)
    else
      match RunAlone(db, prog, ids, now, n - 1)
      case Err(e) => Err(e)
      case Ok(w) => ExecOp(db, w, prog[n - 1], ids[n - 1], now)
  }

  /** Account `a` is updated by one of the first `n` steps. */
  ghost predicate Adds(prog: seq<Op>, n: nat, a: int)
    requires n <= |prog|
  {
    exists k :: 0 <= k < n && prog[k].AddBalance? && prog[k].account == a
  }

  /** A row keeps everything but its balance. */
  predicate SameHolder(a: Account, b: Account) {
    a.(balance := 0) == b.(balance := 0)
  }

  /** A body only overwrites accounts it updates, which exist, and changes nothing in them but the balance. */
  lemma {:induction false} RunWrites(db: Tables, prog: seq<Op>, ids: seq<int>, now: int, n: nat)
    requires n <= |prog| && n <= |ids|
    requires RunAlone(db, prog, ids, now, n).Ok?
    ensures var w := RunAlone(db, prog, ids, now, n).value;
            && |w.rows| == n
            && forall a :: a in w.writes.accounts ==>
                 && Adds(prog, n, a)
                 && a in db.accounts
                 && SameHolder(w.writes.accounts[a], db.accounts[a])
                 && InInt64(w.writes.accounts[a].balance)
  {
    if n > 0 {
      RunWrites(db, prog, ids, now, n - 1);
      var w := RunAlone(db, prog, ids, now, n - 1).value;
      forall a | Adds(prog, n - 1, a)
        ensures Adds(prog, n, a)
      {
        var k :| 0 <= k < n - 1 && prog[k].AddBalance? && prog[k].account == a;
        assert prog[k].AddBalance?;
      }
      if prog[n - 1].AddBalance? {
        assert Adds(prog, n, prog[n - 1].account);
      }
    }
  }

  /** `db'` may hold more accounts than `db`, but agrees with it on every account the first `n` steps claim. */
  ghost predicate Agree(db: Tables, db': Tables, prog: seq<Op>, n: nat)
    requires n <= |prog|
  {
    && db.accounts.Keys <= db'.accounts.Keys
    && forall k :: 0 <= k < n && Claims(prog[k]) && prog[k].account in db.accounts ==>
         db'.accounts[prog[k].account] == db.accounts[prog[k].account]
  }

  /** The row step `op` returns. */
  function LastRow(w: Work): Row
    requires w.rows != []
  {
    w.rows[|w.rows| - 1]
  }

  /** A step does the same on tables that agree on the account it claims; unless `loose`, also on the one it reads. */
  lemma ExecFrame(db: Tables, db': Tables, w: Work, w': Work, op: Op, id: int, now: int, loose: bool)
    requires w.writes == w'.writes && ExecOp(db, w, op, id, now).Ok?
    requires db.accounts.Keys <= db'.accounts.Keys
    requires (Claims(op) || (op.ReadAccount? && !loose)) && op.account in db.accounts ==>
               db'.accounts[op.account] == db.accounts[op.account]
    ensures ExecOp(db', w', op, id, now).Ok?
    ensures var v, v' := ExecOp(db, w, op, id, now).value, ExecOp(db', w', op, id, now).value;
            && v.writes == v'.writes
            && |v.rows| == |w.rows| + 1 && v.rows[..|w.rows|] == w.rows
            && |v'.rows| == |w'.rows| + 1 && v'.rows[..|w'.rows|] == w'.rows
            && (!op.ReadAccount? || !loose ==> LastRow(v) == LastRow(v'))
  {
  }

  /** A body that succeeds does the same on any tables that agree on the accounts it claims. */
  lemma {:induction false} RunFrame(db: Tables, db': Tables, prog: seq<Op>, ids: seq<int>, now: int, n: nat)
    requires n <= |prog| && n <= |ids|
    requires Agree(db, db', prog, n)
    requires RunAlone(db, prog, ids, now, n).Ok?
    ensures RunAlone(db', prog, ids, now, n).Ok?
    ensures |RunAlone(db, prog, ids, now, n).value.rows| == n
    ensures SameWork(prog, RunAlone(db, prog, ids, now, n).value, RunAlone(db', prog, ids, now, n).value)
  {
    if n > 0 {
      RunFrame(db, db', prog, ids, now, n - 1);
      var w, w' := RunAlone(db, prog, ids, now, n - 1).value, RunAlone(db', prog, ids, now, n - 1).value;
      var r, r' := ExecOp(db, w, prog[n - 1], ids[n - 1], now), ExecOp(db', w', prog[n - 1], ids[n - 1], now);
      assert RunAlone(db, prog, ids, now, n) == r && RunAlone(db', prog, ids, now, n) == r';
      ExecFrame(db, db', w, w', prog[n - 1], ids[n - 1], now, Loose(prog, n - 1));
      SameRowsExtend(prog, w.rows, w'.rows, r.value.rows, r'.value.rows);
    }
  }

  /** One more step on both sides. */
  lemma SameRowsExtend(prog: seq<Op>, rows: seq<Row>, rows': seq<Row>, longer: seq<Row>, longer': seq<Row>)
    requires SameRows(prog, rows, rows') && |longer| == |rows| + 1 == |longer'| <= |prog|
    requires longer[..|rows|] == rows && longer'[..|rows|] == rows'
    requires !Loose(prog, |rows|) ==> longer[|rows|] == longer'[|rows|]
    ensures SameRows(prog, longer, longer')
  {
    assert forall i: nat | i < |rows| ::
        longer[i] == longer[..|rows|][i] == rows[i] && longer'[i] == longer'[..|rows|][i] == rows'[i];
  }

  /** The sequence values drawn after step `n` do not matter to the first `n` steps. */
  lemma {:induction false} RunPrefix(db: Tables, prog: seq<Op>, ids: seq<int>, id: int, now: int, n: nat)
    requires n <= |prog| && n <= |ids|
    ensures RunAlone(db, prog, ids + [id], now, n) == RunAlone(db, prog, ids, now, n)
  {
    if n > 0 {
      RunPrefix(db, prog, ids, id, now, n - 1);
    }
  }

  lemma RunNext(db: Tables, prog: seq<Op>, ids: seq<int>, id: int, now: int)
    requires |ids| < |prog| && RunAlone(db, prog, ids, now, |ids|).Ok?
    ensures RunAlone(db, prog, ids + [id], now, |ids| + 1) ==
              ExecOp(db, RunAlone(db, prog, ids, now, |ids|).value, prog[|ids|], id, now)
  {
    RunPrefix(db, prog, ids, id, now, |ids|);
    assert (ids + [id])[|ids|] == id;
  }

  /** One step of two runs that have done the same so far, on the same tables. */
  lemma ExecSame(db: Tables, prog: seq<Op>, n: nat, w: Work, w': Work, id: int, now: int)
    requires SameWork(prog, w, w') && |w.rows| == n < |prog| && ExecOp(db, w, prog[n], id, now).Ok?
    ensures ExecOp(db, w', prog[n], id, now).Ok?
    ensures SameWork(prog, ExecOp(db, w, prog[n], id, now).value, ExecOp(db, w', prog[n], id, now).value)
  {
    ExecFrame(db, db, w, w', prog[n], id, now, false);
    var v, v' := ExecOp(db, w, prog[n], id, now).value, ExecOp(db, w', prog[n], id, now).value;
    SameRowsExtend(prog, w.rows, w'.rows, v.rows, v'.rows);
  }

  /** A run that has done so far what it would do alone, and takes its next step, still has. */
  lemma RunStep(db: Tables, prog: seq<Op>, ids: seq<int>, id: int, now: int, work: Work)
    requires |ids| < |prog| && RunAlone(db, prog, ids, now, |ids|).Ok?
    requires SameWork(prog, work, RunAlone(db, prog, ids, now, |ids|).value)
    requires ExecOp(db, work, prog[|ids|], id, now).Ok?
    ensures RunAlone(db, prog, ids + [id], now, |ids| + 1).Ok?
    ensures SameWork(prog, ExecOp(db, work, prog[|ids|], id, now).value,
                     RunAlone(db, prog, ids + [id], now, |ids| + 1).value)
  {
    RunNext(db, prog, ids, id, now);
    RunWrites(db, prog, ids, now, |ids|);
    ExecSame(db, prog, |ids|, work, RunAlone(db, prog, ids, now, |ids|).value, id, now);
  }
}
