// What the committed tables mean: double entry, balances that agree with the ledger, and a constant total.
module Ledger {
  import opened Wrappers
  import opened Integers
  import opened Bank
  import opened Transfers
  import opened Protocol

  // ----- committed transfers, one at a time

  /** Each committed transfer, whatever ran beside it, is "debit from, credit to" on the tables left by the commits
      before it, and its caller got the result that serial execution gives. */
  lemma CommittedTransfer(s: State, run: seq<Action>, i: nat, arg: TransferParams)
    requires Initial(s) && ValidRun(s, run)
    requires var log := Final(s, run).log; i < |log| && log[i].Applied? && log[i].tx.prog == Body(arg)
    ensures var end := Final(s, run);
            var tx, before := end.log[i].tx, Replay(s.db, end.log[..i]);
            && |tx.ids| == BODY_LENGTH
            && CanTransfer(before.accounts, arg)
            && Replay(s.db, end.log[..i + 1]) == TransferSpec(before, arg, StampOf(tx.ids, tx.now))
            && end.log[i].tid < |end.txs|
            && ResultOf(arg, end.txs[end.log[i].tid].work.rows) ==
                 Some(ResultSpec(before, arg, StampOf(tx.ids, tx.now)))
  {
    ReachableInv(s, run);
    var log := Final(s, run).log;
    assert SerialAt(s.db, log, i);
    var before := Replay(s.db, log[..i]);
    BodyRefinesSpec(before, arg, log[i].tx.ids, log[i].tx.now);
    BodyReadsNothing(arg);
    NoPlainReads(Body(arg), log[i].tx.work,
                 RunAlone(before, Body(arg), log[i].tx.ids, log[i].tx.now, BODY_LENGTH).value);
    LogGrows(s.db, log[..i], log[i]);
    assert log[..i] + [log[i]] == log[..i + 1];
  }

  // ----- sums

  /** Everything the ledger says about account `a`. */
  function EntrySum(entries: seq<Entry>, a: int): int {
    if entries == [] then 0
    else
      var last := entries[|entries| - 1];
      EntrySum(entries[..|entries| - 1], a) + if last.account == a then last.amount else 0
  }

  function EntryTotal(entries: seq<Entry>): int {
    if entries == [] then 0 else EntryTotal(entries[..|entries| - 1]) + entries[|entries| - 1].amount
  }

  /** Incoming minus outgoing transfer amounts of account `a`. */
  function NetTransfers(transfers: seq<Transfer>, a: int): int {
    if transfers == [] then 0
    else
      var last := transfers[|transfers| - 1];
      NetTransfers(transfers[..|transfers| - 1], a)
        + (if last.to == a then last.amount else 0) - (if last.from == a then last.amount else 0)
  }

  /** The balances in one currency, over all accounts with ids below `n`. */
  function Total(accounts: map<int, Account>, currency: string, n: nat): int {
    if n == 0 then 0
    else
      Total(accounts, currency, n - 1) +
        if n - 1 in accounts && accounts[n - 1].currency == currency then accounts[n - 1].balance else 0
  }

  lemma SumAppend(entries: seq<Entry>, e: Entry, a: int)
    ensures EntrySum(entries + [e], a) == EntrySum(entries, a) + if e.account == a then e.amount else 0
    ensures EntryTotal(entries + [e]) == EntryTotal(entries) + e.amount
  {
    assert (entries + [e])[..|entries|] == entries;
  }

  lemma NetAppend(transfers: seq<Transfer>, t: Transfer, a: int)
    ensures NetTransfers(transfers + [t], a) ==
              NetTransfers(transfers, a) + (if t.to == a then t.amount else 0) - (if t.from == a then t.amount else 0)
  {
    assert (transfers + [t])[..|transfers|] == transfers;
  }

  lemma {:induction false} NothingRecorded(a: int, entries: seq<Entry>, transfers: seq<Transfer>)
    requires forall k | 0 <= k < |entries| :: entries[k].account != a
    requires forall k | 0 <= k < |transfers| :: transfers[k].from != a && transfers[k].to != a
    ensures EntrySum(entries, a) == 0 && NetTransfers(transfers, a) == 0
    decreases |entries| + |transfers|
  {
    if entries != [] {
      NothingRecorded(a, entries[..|entries| - 1], transfers);
    } else if transfers != [] {
      NothingRecorded(a, entries, transfers[..|transfers| - 1]);
    }
  }

  lemma {:induction false} TotalUpdate(accounts: map<int, Account>, row: Account, id: int, currency: string, n: nat)
    requires 0 <= id < n && id in accounts && SameHolder(accounts[id], row)
    ensures Total(accounts[id := row], currency, n) ==
              Total(accounts, currency, n) + if row.currency == currency then row.balance - accounts[id].balance else 0
  {
    assert accounts[id].currency == accounts[id].(balance := 0).currency == row.(balance := 0).currency;
    if n - 1 != id {
      TotalUpdate(accounts, row, id, currency, n - 1);
    } else {
      TotalSame(accounts, accounts[id := row], currency, n - 1);
    }
  }

  lemma {:induction false} TotalSame(accounts: map<int, Account>, accounts': map<int, Account>, currency: string,
                                     n: nat)
    requires forall id | 0 <= id < n ::
               (id in accounts <==> id in accounts') && (id in accounts ==> accounts[id] == accounts'[id])
    ensures Total(accounts', currency, n) == Total(accounts, currency, n)
  {
    if n > 0 {
      TotalSame(accounts, accounts', currency, n - 1);
    }
  }

  /** Ids that were never handed out contribute nothing. */
  lemma {:induction false} TotalBeyond(accounts: map<int, Account>, currency: string, n: nat, m: nat)
    requires n <= m && forall id | id in accounts :: id < n
    ensures Total(accounts, currency, m) == Total(accounts, currency, n)
  {
    if n < m {
      TotalBeyond(accounts, currency, n, m - 1);
    }
  }

  /** A new account with nothing on it changes no total. */
  lemma {:induction false} TotalOpen(accounts: map<int, Account>, row: Account, currency: string, n: nat)
    requires row.id !in accounts && row.balance == 0
    ensures Total(accounts[row.id := row], currency, n) == Total(accounts, currency, n)
  {
    if n > 0 {
      TotalOpen(accounts, row, currency, n - 1);
    }
  }

  /** Where no balance is negative, none exceeds the total of its currency. */
  lemma {:induction false} TotalBounds(accounts: map<int, Account>, currency: string, n: nat)
    requires forall id | id in accounts :: accounts[id].balance >= 0
    ensures Total(accounts, currency, n) >= 0
    ensures forall id | 0 <= id < n && id in accounts && accounts[id].currency == currency ::
              accounts[id].balance <= Total(accounts, currency, n)
  {
    if n > 0 {
      TotalBounds(accounts, currency, n - 1);
    }
  }

  // ----- the ledger invariant

  /** The two entries of a transfer. */
  predicate Paired(t: Transfer, debit: Entry, credit: Entry) {
    && debit.account == t.from && debit.amount == -t.amount
    && credit.account == t.to && credit.amount == t.amount
  }

  /** Entries are in bijection with two per transfer: number 2k debits and number 2k+1 credits transfer k. */
  ghost predicate DoubleEntry(db: Tables) {
    && |db.entries| == 2 * |db.transfers|
    && forall k {:trigger db.transfers[k]} | 0 <= k < |db.transfers| ::
         Paired(db.transfers[k], db.entries[2 * k], db.entries[2 * k + 1])
  }

  /** Transfers and entries name existing accounts: the foreign keys of the schema. */
  ghost predicate ForeignKeysOk(db: Tables) {
    && (forall k | 0 <= k < |db.entries| :: db.entries[k].account in db.accounts)
    && (forall k | 0 <= k < |db.transfers| :: db.transfers[k].from in db.accounts && db.transfers[k].to in db.accounts)
  }

  /** Every balance is what the entries say and what the transfers say. */
  ghost predicate Agrees(db: Tables) {
    forall a | a in db.accounts ::
      && db.accounts[a].balance == EntrySum(db.entries, a)
      && db.accounts[a].balance == NetTransfers(db.transfers, a)
  }

  ghost predicate LedgerOk(db: Tables) {
    DoubleEntry(db) && ForeignKeysOk(db) && Agrees(db)
  }

  lemma TransferEntries(db: Tables, arg: TransferParams, stamp: Stamp, a: int)
    requires Exist(db.accounts, arg)
    ensures var db' := TransferSpec(db, arg, stamp);
            && EntrySum(db'.entries, a) == EntrySum(db.entries, a)
                 + (if arg.from == a then Neg64(arg.amount) else 0) + (if arg.to == a then arg.amount else 0)
            && EntryTotal(db'.entries) == EntryTotal(db.entries) + Neg64(arg.amount) + arg.amount
  {
    var f, c := FromEntry(arg, stamp), ToEntry(arg, stamp);
    assert db.entries + [f, c] == (db.entries + [f]) + [c];
    SumAppend(db.entries, f, a);
    SumAppend(db.entries + [f], c, a);
  }

  /** A transfer keeps the whole ledger in order, except for the one amount whose negation overflows. */
  lemma TransferKeepsLedger(db: Tables, arg: TransferParams, stamp: Stamp)
    requires LedgerOk(db) && Exist(db.accounts, arg)
    ensures LedgerOk(TransferSpec(db, arg, stamp)) <==> arg.amount != MIN_INT64
  {
    if arg.amount != MIN_INT64 {
      NegatableKeepsLedger(db, arg, stamp);
    } else {
      var db', n := TransferSpec(db, arg, stamp), |db.transfers|;
      assert !Paired(db'.transfers[n], db'.entries[2 * n], db'.entries[2 * n + 1]);
    }
  }

  lemma NegatableKeepsLedger(db: Tables, arg: TransferParams, stamp: Stamp)
    requires LedgerOk(db) && Exist(db.accounts, arg) && arg.amount != MIN_INT64
    ensures LedgerOk(TransferSpec(db, arg, stamp))
  {
    var db' := TransferSpec(db, arg, stamp);
    forall a | a in db'.accounts
      ensures db'.accounts[a].balance == EntrySum(db'.entries, a) == NetTransfers(db'.transfers, a)
    {
      TransferEntries(db, arg, stamp, a);
      NetAppend(db.transfers, NewTransfer(arg, stamp), a);
    }
    forall k {:trigger db'.transfers[k]} | 0 <= k < |db'.transfers|
      ensures Paired(db'.transfers[k], db'.entries[2 * k], db'.entries[2 * k + 1])
    {
      if k < |db.transfers| {
        assert db'.transfers[k] == db.transfers[k];
      }
    }
  }

  lemma OpenKeepsLedger(db: Tables, account: Account)
    requires LedgerOk(db) && account.id !in db.accounts && account.balance == 0
    ensures LedgerOk(db.(accounts := db.accounts[account.id := account]))
  {
    NothingRecorded(account.id, db.entries, db.transfers);
  }

  lemma {:induction false} EntriesSumToZero(entries: seq<Entry>, transfers: seq<Transfer>)
    requires |entries| == 2 * |transfers|
    requires forall k {:trigger transfers[k]} | 0 <= k < |transfers| ::
               Paired(transfers[k], entries[2 * k], entries[2 * k + 1])
    ensures EntryTotal(entries) == 0
    decreases |transfers|
  {
    if transfers != [] {
      var n := |transfers| - 1;
      var rest := entries[..2 * n];
      assert Paired(transfers[n], entries[2 * n], entries[2 * n + 1]);
      EntriesSumToZero(rest, transfers[..n]);
      assert entries == (rest + [entries[2 * n]]) + [entries[2 * n + 1]];
      SumAppend(rest, entries[2 * n], 0);
      SumAppend(rest + [entries[2 * n]], entries[2 * n + 1], 0);
    }
  }

  // ----- conservation

  /** What a transfer adds to the total of one currency. */
  lemma TransferTotal(db: Tables, arg: TransferParams, stamp: Stamp, n: nat, currency: string)
    requires Exist(db.accounts, arg) && 0 <= arg.from < n && 0 <= arg.to < n
    ensures Total(TransferSpec(db, arg, stamp).accounts, currency, n) ==
              Total(db.accounts, currency, n)
                + (if db.accounts[arg.from].currency == currency then Neg64(arg.amount) else 0)
                + (if db.accounts[arg.to].currency == currency then arg.amount else 0)
  {
    var debited := db.accounts[arg.from := Credit(db.accounts[arg.from], Neg64(arg.amount))];
    TotalUpdate(db.accounts, debited[arg.from], arg.from, currency, n);
    TotalUpdate(debited, Credit(debited[arg.to], arg.amount), arg.to, currency, n);
  }

  /** A transfer keeps the total of every currency exactly when it moves nothing, or moves an amount that int64 can
      negate between accounts of one currency, which TransferTx itself does not check. */
  lemma ConservedIffNegatable(db: Tables, arg: TransferParams, stamp: Stamp, n: nat)
    requires Exist(db.accounts, arg) && 0 <= arg.from < n && 0 <= arg.to < n
    ensures (forall currency ::
               Total(TransferSpec(db, arg, stamp).accounts, currency, n) == Total(db.accounts, currency, n))
            <==> arg.amount == 0 ||
                 (arg.amount != MIN_INT64 && db.accounts[arg.from].currency == db.accounts[arg.to].currency)
  {
    forall currency
      ensures Total(TransferSpec(db, arg, stamp).accounts, currency, n) ==
                Total(db.accounts, currency, n)
                  + (if db.accounts[arg.from].currency == currency then Neg64(arg.amount) else 0)
                  + (if db.accounts[arg.to].currency == currency then arg.amount else 0)
    {
      TransferTotal(db, arg, stamp, n, currency);
    }
    TransferTotal(db, arg, stamp, n, db.accounts[arg.from].currency);
  }

  /** Called outside the API with the smallest int64, the transfer goes through and takes money from both accounts. */
  lemma SmallestAmountLosesMoney(db: Tables, from: Int64, to: Int64, stamp: Stamp)
    requires from != to && from in db.accounts && to in db.accounts
    requires db.accounts[from].balance == 0 == db.accounts[to].balance
    ensures var arg := TransferParams(from, to, MIN_INT64);
            && CanTransfer(db.accounts, arg)
            && TransferSpec(db, arg, stamp).accounts[from].balance == MIN_INT64
            && TransferSpec(db, arg, stamp).accounts[to].balance == MIN_INT64
  {
  }
}
