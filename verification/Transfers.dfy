// One money transfer: the statements TransferTx sends, and the plain "debit from, credit to" they amount to.
module Transfers {
  import opened Wrappers
  import opened Integers
  import opened Bank

  datatype TransferParams = TransferParams(from: Int64, to: Int64, amount: Int64)

  datatype TransferResult = TransferResult(
    transfer: Transfer, fromAccount: Account, toAccount: Account, fromEntry: Entry, toEntry: Entry)

  const BODY_LENGTH := 9

  /** The two balance updates of addMoney. */
  function AddMoney(account1: int, amount1: int, account2: int, amount2: int): seq<Op> {
    [AddBalance(account1, amount1), AddBalance(account2, amount2)]
  }

  /** The closure TransferTx hands to execTx, lower account id updated first. */
  function Body(arg: TransferParams): (prog: seq<Op>)
    ensures |prog| == BODY_LENGTH
  {
    [ InsertTransfer(arg.from, arg.to, arg.amount), CheckKey(arg.from), CheckKey(arg.to),
      InsertEntry(arg.from, Neg64(arg.amount)), CheckKey(arg.from),
      InsertEntry(arg.to, arg.amount), CheckKey(arg.to) ] +
    if arg.from < arg.to then
      AddMoney(arg.from, Neg64(arg.amount), arg.to, arg.amount)
    else
      AddMoney(arg.to, arg.amount, arg.from, Neg64(arg.amount))
  }

  /** How TransferTx reads its result out of the returned rows. */
  function ResultOf(arg: TransferParams, rows: seq<Row>): Option<TransferResult> {
    if |rows| == BODY_LENGTH && rows[0].TransferRow? && rows[3].EntryRow? && rows[5].EntryRow? &&
       rows[7].AccountRow? && rows[8].AccountRow?
    then
      var (fromAccount, toAccount) :=
        if arg.from < arg.to then (rows[7].account, rows[8].account) else (rows[8].account, rows[7].account);
      Some(TransferResult(rows[0].transfer, fromAccount, toAccount, rows[3].entry, rows[5].entry))
    else
      None
  }

  // ----- the specification, which knows nothing of the order of the updates

  /** The sequence values a transfer drew and its start time. */
  datatype Stamp = Stamp(transferId: int, fromEntryId: int, toEntryId: int, now: int)

  function StampOf(ids: seq<int>, now: int): Stamp
    requires |ids| == BODY_LENGTH
  {
    Stamp(ids[0], ids[3], ids[5], now)
  }

  function Credit(account: Account, amount: int): Account {
    account.(balance := account.balance + amount)
  }

  /** Debit one account, then credit the other. */
  function Moved(accounts: map<int, Account>, arg: TransferParams): map<int, Account>
    requires arg.from in accounts && arg.to in accounts
  {
    var debited := accounts[arg.from := Credit(accounts[arg.from], Neg64(arg.amount))];
    debited[arg.to := Credit(debited[arg.to], arg.amount)]
  }

  predicate Exist(accounts: map<int, Account>, arg: TransferParams) {
    arg.from in accounts && arg.to in accounts
  }

  /** Both accounts exist and the balances the transfer leaves behind are bigints. A self-transfer also has to pass
      through the credited balance. */
  predicate CanTransfer(accounts: map<int, Account>, arg: TransferParams) {
    && Exist(accounts, arg)
    && InInt64(Moved(accounts, arg)[arg.from].balance)
    && InInt64(accounts[arg.to].balance + arg.amount)
  }

  function NewTransfer(arg: TransferParams, stamp: Stamp): Transfer {
    Transfer(stamp.transferId, arg.from, arg.to, arg.amount, stamp.now)
  }

  function FromEntry(arg: TransferParams, stamp: Stamp): Entry {
    Entry(stamp.fromEntryId, arg.from, Neg64(arg.amount), stamp.now)
  }

  function ToEntry(arg: TransferParams, stamp: Stamp): Entry {
    Entry(stamp.toEntryId, arg.to, arg.amount, stamp.now)
  }

  function TransferSpec(db: Tables, arg: TransferParams, stamp: Stamp): Tables
    requires Exist(db.accounts, arg)
  {
    Tables(Moved(db.accounts, arg),
           db.transfers + [NewTransfer(arg, stamp)],
           db.entries + [FromEntry(arg, stamp), ToEntry(arg, stamp)])
  }

  function ResultSpec(db: Tables, arg: TransferParams, stamp: Stamp): TransferResult
    requires Exist(db.accounts, arg)
  {
    TransferResult(NewTransfer(arg, stamp),
                   Moved(db.accounts, arg)[arg.from],
                   Credit(db.accounts[arg.to], arg.amount),
                   FromEntry(arg, stamp),
                   ToEntry(arg, stamp))
  }

  // ----- the two branches refine the specification

  /** A run that has only inserted rows so far, spelt out table by table. */
  ghost predicate Inserted(r: Result<Work, DbError>, transfers: seq<Transfer>, entries: seq<Entry>, rows: seq<Row>) {
    && r.Ok?
    && r.value.writes.accounts == map[]
    && r.value.writes.transfers == transfers
    && r.value.writes.entries == entries
    && r.value.rows == rows
  }

  /** The seven steps before the balance updates: they succeed exactly when both accounts exist. */
  lemma InsertsRun(db: Tables, arg: TransferParams, ids: seq<int>, now: int)
    requires |ids| == BODY_LENGTH
    ensures var r := RunAlone(db, Body(arg), ids, now, 7);
            var stamp := StampOf(ids, now);
            var t, f, c := NewTransfer(arg, stamp), FromEntry(arg, stamp), ToEntry(arg, stamp);
            if Exist(db.accounts, arg) then
              Inserted(r, [t], [f, c], [TransferRow(t), KeyRow, KeyRow, EntryRow(f), KeyRow, EntryRow(c), KeyRow])
            else
              r == Err(ForeignKeyViolation)
  {
    var prog, stamp := Body(arg), StampOf(ids, now);
    var t, f, c := NewTransfer(arg, stamp), FromEntry(arg, stamp), ToEntry(arg, stamp);
    assert prog[0] == InsertTransfer(arg.from, arg.to, arg.amount) && prog[1] == CheckKey(arg.from);
    assert prog[2] == CheckKey(arg.to) && prog[3] == InsertEntry(arg.from, Neg64(arg.amount));
    assert prog[4] == CheckKey(arg.from) && prog[5] == InsertEntry(arg.to, arg.amount) && prog[6] == CheckKey(arg.to);
    assert RunAlone(db, prog, ids, now, 0) == Ok(NO_WORK);
    assert Inserted(RunAlone(db, prog, ids, now, 1), [t], [], [TransferRow(t)]);
    var r2, r3 := RunAlone(db, prog, ids, now, 2), RunAlone(db, prog, ids, now, 3);
    assert if arg.from in db.accounts then Inserted(r2, [t], [], [TransferRow(t), KeyRow])
           else r2 == Err(ForeignKeyViolation);
    if Exist(db.accounts, arg) {
      assert Inserted(r3, [t], [], [TransferRow(t), KeyRow, KeyRow]);
      assert Inserted(RunAlone(db, prog, ids, now, 4), [t], [f], [TransferRow(t), KeyRow, KeyRow, EntryRow(f)]);
      assert Inserted(RunAlone(db, prog, ids, now, 5), [t], [f],
                      [TransferRow(t), KeyRow, KeyRow, EntryRow(f), KeyRow]);
      assert Inserted(RunAlone(db, prog, ids, now, 6), [t], [f, c],
                      [TransferRow(t), KeyRow, KeyRow, EntryRow(f), KeyRow, EntryRow(c)]);
    } else {
      assert r3 == Err(ForeignKeyViolation);
      assert RunAlone(db, prog, ids, now, 5) == Err(ForeignKeyViolation);
    }
  }

  /** Two balance updates in a row. */
  function Update2(db: Tables, w: Work, account1: int, amount1: int, account2: int, amount2: int)
    : Result<Work, DbError>
  {
    match ExecOp(db, w, AddBalance(account1, amount1), 0, 0)
    case Err(e) => Err(e)
    case Ok(w') => ExecOp(db, w', AddBalance(account2, amount2), 0, 0)
  }

  /** The rows the two updates return, in the order of the updates. */
  function UpdatedRows(accounts: map<int, Account>, arg: TransferParams): seq<Row>
    requires Exist(accounts, arg)
  {
    var from, to := AccountRow(Moved(accounts, arg)[arg.from]), AccountRow(Credit(accounts[arg.to], arg.amount));
    if arg.from < arg.to then [from, to] else [to, from]
  }

  /** The accounts after two credits, the second on top of the first. */
  function Credited2(accounts: map<int, Account>, account1: int, amount1: int, account2: int, amount2: int)
    : map<int, Account>
    requires account1 in accounts && account2 in accounts
  {
    var accounts' := accounts[account1 := Credit(accounts[account1], amount1)];
    accounts'[account2 := Credit(accounts'[account2], amount2)]
  }

  lemma Update2Credits(db: Tables, w: Work, account1: int, amount1: int, account2: int, amount2: int)
    requires w.writes.accounts == map[] && account1 in db.accounts && account2 in db.accounts
    ensures var r, after := Update2(db, w, account1, amount1, account2, amount2),
                            Credited2(db.accounts, account1, amount1, account2, amount2);
            && (r.Ok? <==> InInt64(db.accounts[account1].balance + amount1) && InInt64(after[account2].balance))
            && (r.Err? ==> r.error == OutOfRange)
            && (r.Ok? ==> db.accounts + r.value.writes.accounts == after)
            && (r.Ok? ==> r.value.writes.transfers == w.writes.transfers && r.value.writes.entries == w.writes.entries)
            && (r.Ok? ==> r.value.rows == w.rows + [AccountRow(Credit(db.accounts[account1], amount1)),
                                                    AccountRow(after[account2])])
  {
  }

  /** In either branch the two updates leave the accounts of the specification. */
  lemma UpdatesRun(db: Tables, w: Work, arg: TransferParams)
    requires w.writes.accounts == map[] && Exist(db.accounts, arg)
    ensures var r := if arg.from < arg.to then Update2(db, w, arg.from, Neg64(arg.amount), arg.to, arg.amount)
                     else Update2(db, w, arg.to, arg.amount, arg.from, Neg64(arg.amount));
            && (r.Ok? <==> CanTransfer(db.accounts, arg))
            && (r.Err? ==> r.error == OutOfRange)
            && (r.Ok? ==> db.accounts + r.value.writes.accounts == Moved(db.accounts, arg))
            && (r.Ok? ==> r.value.writes.transfers == w.writes.transfers && r.value.writes.entries == w.writes.entries)
            && (r.Ok? ==> r.value.rows == w.rows + UpdatedRows(db.accounts, arg))
  {
    if arg.from < arg.to {
      Update2Credits(db, w, arg.from, Neg64(arg.amount), arg.to, arg.amount);
    } else {
      Update2Credits(db, w, arg.to, arg.amount, arg.from, Neg64(arg.amount));
      assert Credited2(db.accounts, arg.to, arg.amount, arg.from, Neg64(arg.amount)) == Moved(db.accounts, arg);
    }
  }

  /** Run alone, the id-ordered two-branch body commits exactly what "debit from, credit to" says, returns the right
      row in each result field, and fails exactly when an account is missing or a balance leaves bigint. */
  lemma BodyRefinesSpec(db: Tables, arg: TransferParams, ids: seq<int>, now: int)
    requires |ids| == BODY_LENGTH
    ensures var r := RunAlone(db, Body(arg), ids, now, BODY_LENGTH);
            var stamp := StampOf(ids, now);
            && (r.Ok? <==> CanTransfer(db.accounts, arg))
            && (r.Ok? ==> Merge(db, r.value.writes) == TransferSpec(db, arg, stamp))
            && (r.Ok? ==> ResultOf(arg, r.value.rows) == Some(ResultSpec(db, arg, stamp)))
            && (r.Err? ==> r.error == if Exist(db.accounts, arg) then OutOfRange else ForeignKeyViolation)
  {
    InsertsRun(db, arg, ids, now);
    var prog := Body(arg);
    var r7 := RunAlone(db, prog, ids, now, 7);
    assert RunAlone(db, prog, ids, now, 8).Ok? ==> r7.Ok?;
    if Exist(db.accounts, arg) {
      UpdatesRun(db, r7.value, arg);
      BodyTail(db, arg, ids, now);
    }
  }

  /** Field by field, what a successful transfer answers: its own row, each entry with its account and sign, and each
      account with its new balance. The smallest int64 is its own negation. */
  lemma AnswerFields(db: Tables, arg: TransferParams, ids: seq<int>, now: int)
    requires |ids| == BODY_LENGTH && RunAlone(db, Body(arg), ids, now, BODY_LENGTH).Ok?
    ensures arg.from in db.accounts && arg.to in db.accounts
    ensures var result := ResultOf(arg, RunAlone(db, Body(arg), ids, now, BODY_LENGTH).value.rows);
            var minus := if arg.amount == -9223372036854775808 then arg.amount else 0 - arg.amount;
            var from, to := db.accounts[arg.from], db.accounts[arg.to];
            && result.Some?
            && result.value.transfer == Transfer(ids[0], arg.from, arg.to, arg.amount, now)
            && result.value.fromEntry == Entry(ids[3], arg.from, minus, now)
            && result.value.toEntry == Entry(ids[5], arg.to, arg.amount, now)
            && result.value.toAccount == to.(balance := to.balance + arg.amount)
            && result.value.fromAccount ==
                 from.(balance := from.balance + minus + if arg.from == arg.to then arg.amount else 0)
  {
    BodyRefinesSpec(db, arg, ids, now);
    ResultFields(db, arg, StampOf(ids, now));
  }

  lemma ResultFields(db: Tables, arg: TransferParams, stamp: Stamp)
    requires Exist(db.accounts, arg)
    ensures var result := ResultSpec(db, arg, stamp);
            var minus := if arg.amount == -9223372036854775808 then arg.amount else 0 - arg.amount;
            var from, to := db.accounts[arg.from], db.accounts[arg.to];
            && result.transfer == Transfer(stamp.transferId, arg.from, arg.to, arg.amount, stamp.now)
            && result.fromEntry == Entry(stamp.fromEntryId, arg.from, minus, stamp.now)
            && result.toEntry == Entry(stamp.toEntryId, arg.to, arg.amount, stamp.now)
            && result.toAccount == to.(balance := to.balance + arg.amount)
            && result.fromAccount ==
                 from.(balance := from.balance + minus + if arg.from == arg.to then arg.amount else 0)
  {
  }

  /** Table by table, what a transfer writes: one transfer row, a debit entry and a credit entry, and two balances. */
  lemma WrittenRows(db: Tables, arg: TransferParams, stamp: Stamp)
    requires Exist(db.accounts, arg)
    ensures var db' := TransferSpec(db, arg, stamp);
            var minus := if arg.amount == -9223372036854775808 then arg.amount else 0 - arg.amount;
            && db'.transfers == db.transfers + [Transfer(stamp.transferId, arg.from, arg.to, arg.amount, stamp.now)]
            && db'.entries == db.entries + [Entry(stamp.fromEntryId, arg.from, minus, stamp.now),
                                            Entry(stamp.toEntryId, arg.to, arg.amount, stamp.now)]
            && db'.accounts.Keys == db.accounts.Keys
            && forall id | id in db.accounts ::
                 && SameHolder(db'.accounts[id], db.accounts[id])
                 && db'.accounts[id].balance == db.accounts[id].balance
                      + (if id == arg.from then minus else 0) + (if id == arg.to then arg.amount else 0)
  {
  }

  lemma BodyTail(db: Tables, arg: TransferParams, ids: seq<int>, now: int)
    requires |ids| == BODY_LENGTH && RunAlone(db, Body(arg), ids, now, 7).Ok?
    ensures RunAlone(db, Body(arg), ids, now, BODY_LENGTH) ==
              var w := RunAlone(db, Body(arg), ids, now, 7).value;
              if arg.from < arg.to then Update2(db, w, arg.from, Neg64(arg.amount), arg.to, arg.amount)
              else Update2(db, w, arg.to, arg.amount, arg.from, Neg64(arg.amount))
  {
    var prog := Body(arg);
    assert RunAlone(db, prog, ids, now, 8) == ExecOp(db, RunAlone(db, prog, ids, now, 7).value, prog[7], 0, 0);
  }

  /** A transfer never reads an account without claiming it. */
  lemma BodyReadsNothing(arg: TransferParams)
    ensures forall i | 0 <= i < BODY_LENGTH :: !Body(arg)[i].ReadAccount?
  {
  }

  /** For a positive amount the arithmetic condition is symmetric in the two ids: a transfer between distinct accounts
      passes exactly when both new balances are bigints; a self-transfer exactly when balance + amount is one. */
  lemma PassesIffBalancesFit(accounts: map<int, Account>, arg: TransferParams)
    requires arg.amount > 0 && Exist(accounts, arg)
    requires forall a :: a in accounts ==> InInt64(accounts[a].balance)
    ensures CanTransfer(accounts, arg) <==>
              if arg.from == arg.to then
                accounts[arg.from].balance + arg.amount <= MAX_INT64
              else
                && accounts[arg.from].balance - arg.amount >= MIN_INT64
                && accounts[arg.to].balance + arg.amount <= MAX_INT64
  {
    assert InInt64(arg.amount);
    assert InInt64(accounts[arg.from].balance) && InInt64(accounts[arg.to].balance);
  }

  /** A self-transfer leaves the stored row as it was, yet reports the credited value as ToAccount and the restored one
      as FromAccount. */
  lemma SelfTransfer(db: Tables, arg: TransferParams, ids: seq<int>, now: int)
    requires |ids| == BODY_LENGTH && arg.from == arg.to && arg.amount != MIN_INT64
    requires RunAlone(db, Body(arg), ids, now, BODY_LENGTH).Ok?
    ensures var w := RunAlone(db, Body(arg), ids, now, BODY_LENGTH).value;
            var result := ResultOf(arg, w.rows);
            && Merge(db, w.writes).accounts == db.accounts
            && result.Some?
            && result.value.fromAccount == db.accounts[arg.from]
            && result.value.toAccount == Credit(db.accounts[arg.from], arg.amount)
  {
    BodyRefinesSpec(db, arg, ids, now);
  }
}
