// What a plain SELECT, which takes no lock, may return: exactly which of them serial execution does not account for.
module PlainReads {
  import opened Wrappers
  import opened Integers
  import opened Bank
  import opened Transfers
  import opened Protocol
  import opened Solo
  import LockChoices

  ghost predicate Bigints(db: Tables) {
    forall a | a in db.accounts :: InInt64(db.accounts[a].balance)
  }

  /** Step `i` of the `j`-th commit returned the row it returns when the commits run one at a time. */
  ghost predicate RowIsSerial(db: Tables, log: seq<Event>, j: nat, i: nat) {
    && j < |log| && log[j].Applied? && SerialAt(db, log, j)
    && var tx := log[j].tx;
       && i < |tx.work.rows|
       && tx.work.rows[i] == RunAlone(Replay(db, log[..j]), tx.prog, tx.ids, tx.now, |tx.prog|).value.rows[i]
  }

  /** In every run, whatever other bodies run beside it, a committed `prog` got its serial row from step `i`. */
  ghost predicate AlwaysSerial(prog: seq<Op>, i: nat) {
    forall s: State, run: seq<Action>, j: nat |
        && Initial(s) && s.keyMode.KeyShare? && Bigints(s.db) && ValidRun(s, run)
        && j < |Final(s, run).log| && Final(s, run).log[j].Applied? && Final(s, run).log[j].tx.prog == prog ::
      RowIsSerial(s.db, Final(s, run).log, j, i)
  }

  ghost predicate NeverPasses(prog: seq<Op>) {
    forall db | Bigints(db) :: !Passes(db, prog, |prog|)
  }

  // ----- balances stay bigints

  ghost predicate OpenedOk(log: seq<Event>) {
    forall e | e in log && e.Opened? :: InInt64(e.account.balance)
  }

  lemma {:induction false} OpenedRun(s: State, run: seq<Action>)
    requires OpenedOk(s.log) && ValidRun(s, run)
    ensures OpenedOk(Final(s, run).log)
    decreases |run|
  {
    if run != [] {
      OpenedRun(Apply(s, run[0]), run[1..]);
    }
  }

  lemma {:induction false} ReplayBigints(db: Tables, log: seq<Event>)
    requires Bigints(db) && OpenedOk(log)
    ensures Bigints(Replay(db, log))
  {
    if log != [] {
      var before, e := log[..|log| - 1], log[|log| - 1];
      ReplayBigints(db, before);
      if e.Applied? && |e.tx.ids| == |e.tx.prog| {
        var r := RunAlone(Replay(db, before), e.tx.prog, e.tx.ids, e.tx.now, |e.tx.prog|);
        if r.Ok? {
          RunWrites(Replay(db, before), e.tx.prog, e.tx.ids, e.tx.now, |e.tx.prog|);
        }
      }
    }
  }

  // ----- rows that are always serial

  /** Every step but a loose SELECT, and every step of a body that never passes. */
  lemma TightIsSerial(prog: seq<Op>, i: nat)
    requires i < |prog| && (!Loose(prog, i) || NeverPasses(prog))
    ensures AlwaysSerial(prog, i)
  {
    forall s: State, run: seq<Action>, j: nat |
        && Initial(s) && s.keyMode.KeyShare? && Bigints(s.db) && ValidRun(s, run)
        && j < |Final(s, run).log| && Final(s, run).log[j].Applied? && Final(s, run).log[j].tx.prog == prog
      ensures RowIsSerial(s.db, Final(s, run).log, j, i)
    {
      ReachableInv(s, run);
      var log := Final(s, run).log;
      CommittedPasses(s, run, j);
      assert SerialAt(s.db, log, j);
    }
  }

  lemma CommittedPasses(s: State, run: seq<Action>, j: nat)
    requires Initial(s) && Bigints(s.db) && ValidRun(s, run)
    requires j < |Final(s, run).log| && Final(s, run).log[j].Applied?
    ensures var log := Final(s, run).log;
            var before, tx := Replay(s.db, log[..j]), log[j].tx;
            && Bigints(before) && Passes(before, tx.prog, |tx.prog|) && |tx.work.rows| == |tx.prog|
  {
    ReachableInv(s, run);
    OpenedRun(s, run);
    var log := Final(s, run).log;
    ReplayBigints(s.db, log[..j]);
    assert SerialAt(s.db, log, j);
    var before, tx := Replay(s.db, log[..j]), log[j].tx;
    PassesAny(before, tx.prog, |tx.prog|, tx.ids, tx.now);
    RunWrites(before, tx.prog, tx.ids, tx.now, |tx.prog|);
  }

  // ----- rows that are not

  /** Alone, a loose SELECT returns the committed row. */
  lemma {:induction false} LooseRow(db: Tables, prog: seq<Op>, ids: seq<int>, now: int, n: nat, i: nat)
    requires i < n <= |prog| && n <= |ids| && Loose(prog, i) && RunAlone(db, prog, ids, now, n).Ok?
    ensures prog[i].account in db.accounts
    ensures |RunAlone(db, prog, ids, now, n).value.rows| == n
    ensures RunAlone(db, prog, ids, now, n).value.rows[i] == AccountRow(db.accounts[prog[i].account])
  {
    Earlier(db, prog, ids, now, i + 1, n);
    Earlier(db, prog, ids, now, i, i + 1);
    RunWrites(db, prog, ids, now, i);
    var w := RunAlone(db, prog, ids, now, i).value;
    assert prog[i].account !in w.writes.accounts;
    assert RunAlone(db, prog, ids, now, i + 1) == ExecOp(db, w, prog[i], ids[i], now);
  }

  /** The tables with `d` less on account `a`. */
  function Less(db: Tables, a: int, d: int): Tables
    requires a in db.accounts
  {
    db.(accounts := db.accounts[a := Credit(db.accounts[a], -d)])
  }

  function Start(db: Tables, bound: nat): State {
    State(KeyShare, {}, db, [], {}, bound, 1, 1, [])
  }

  function Adder(a: int, d: int): seq<Op> {
    [AddBalance(a, d)]
  }

  /** Up to and including the loose SELECT of `a` the balance of `a` makes no difference. */
  lemma SameUpTo(db: Tables, prog: seq<Op>, i: nat, d: int, ids: seq<int>, now: int)
    requires i < |prog| && Loose(prog, i) && prog[i].account in db.accounts && i + 1 <= |ids|
    requires RunAlone(db, prog, ids, now, i + 1).Ok? ||
               RunAlone(Less(db, prog[i].account, d), prog, ids, now, i + 1).Ok?
    ensures var r, r' := RunAlone(db, prog, ids, now, i + 1),
                         RunAlone(Less(db, prog[i].account, d), prog, ids, now, i + 1);
            r.Ok? && r'.Ok? && r.value.writes == r'.value.writes
  {
    var less := Less(db, prog[i].account, d);
    if RunAlone(db, prog, ids, now, i + 1).Ok? {
      RunFrame(db, less, prog, ids, now, i + 1);
    } else {
      RunFrame(less, db, prog, ids, now, i + 1);
    }
  }

  /** The reader has begun and taken its loose SELECT; the adder has begun. */
  ghost predicate HasRead(s: State, before: Tables, prog: seq<Op>, i: nat, d: int)
    requires i < |prog| && prog[i].ReadAccount?
  {
    && s.keyMode.KeyShare? && s.db == before && s.log == [] && |s.txs| == 2
    && s.txs[1] == Tx(Adder(prog[i].account, d), 0, Running, [], NO_WORK)
    && Undisturbed(s, 0, i + 1) && s.txs[0].prog == prog && s.txs[0].now == 0 && |s.txs[0].ids| == i + 1
    && Alone(before, s.txs[0]).value == s.txs[0].work
  }

  lemma Reads(before: Tables, bound: nat, prog: seq<Op>, i: nat, d: int) returns (run: seq<Action>)
    requires i < |prog| && Loose(prog, i) && Passes(before, prog, i + 1)
    ensures ValidRun(Start(before, bound), run)
    ensures HasRead(Final(Start(before, bound), run), before, prog, i, d)
  {
    var s0, a, b := Start(before, bound), Begin(prog, 0), Begin(Adder(prog[i].account, d), 0);
    var s1 := Apply(s0, a);
    var s2 := Apply(s1, b);
    assert ValidRun(s0, []) && Final(s0, []) == s0;
    RunOne(s0, [], a);
    RunOne(s0, [] + [a], b);
    var steps := TakesSteps(s2, 0, i + 1);
    RunAppend(s0, [] + [a] + [b], steps);
    run := [] + [a] + [b] + steps;
  }

  /** The reader's locks on the account it reads are those of foreign-key checks. */
  lemma ReadLocksNothing(s: State, before: Tables, prog: seq<Op>, i: nat, d: int)
    requires i < |prog| && Loose(prog, i) && HasRead(s, before, prog, i, d) && LocksOk(s)
    ensures forall l | l in s.locks && l.account == prog[i].account :: l.mode.KeyShare?
  {
    forall l | l in s.locks && l.account == prog[i].account
      ensures l.mode.KeyShare?
    {
      assert Justified(s, l);
      var k :| 0 <= k < i + 1 && LockNeeded(KeyShare, prog[k]) == Some(Need(l.account, l.mode));
      assert k < i ==> !Claims(prog[k]);
    }
  }

  /** The adder is not kept from running and committing. */
  lemma AdderCommits(s: State, db: Tables, prog: seq<Op>, i: nat, d: int)
    requires i < |prog| && Loose(prog, i) && prog[i].account in db.accounts
    requires InInt64(db.accounts[prog[i].account].balance)
    requires HasRead(s, Less(db, prog[i].account, d), prog, i, d) && LocksOk(s)
    ensures Enabled(s, Exec(1)) && Enabled(Apply(s, Exec(1)), Commit(1))
    ensures var s' := Apply(Apply(s, Exec(1)), Commit(1));
            && s'.db == db && |s'.txs| == 2 && s'.txs[0] == s.txs[0] && s'.keyMode.KeyShare?
            && (forall l | l in s'.locks :: l.holder == 0)
            && |s'.log| == 1
  {
    ReadLocksNothing(s, Less(db, prog[i].account, d), prog, i, d);
    var a := prog[i].account;
    assert NextOp(s, 1) == AddBalance(a, d);
    CanExec(s, 1);
    var s1 := Apply(s, Exec(1));
    assert s1.txs[1].work.writes == Tables(map[a := db.accounts[a]], [], []);
  }

  /** What the reader read before the adder's commit it read on the tables as they were then, and the rest on the tables
      the adder left. */
  ghost predicate RowsAround(tx: Tx, db: Tables, i: nat, d: int)
    requires i < |tx.prog| && tx.prog[i].ReadAccount? && tx.prog[i].account in db.accounts
  {
    && |tx.ids| == |tx.prog|
    && var first, all := RunAlone(Less(db, tx.prog[i].account, d), tx.prog, tx.ids, tx.now, i + 1), Alone(db, tx);
       && first.Ok? && all.Ok? && |first.value.rows| == i + 1 && |all.value.rows| == |tx.prog|
       && tx.work.rows == first.value.rows + all.value.rows[i + 1..]
  }

  ghost predicate ReadAround(end: State, db: Tables, prog: seq<Op>, i: nat, d: int)
    requires i < |prog| && prog[i].ReadAccount? && prog[i].account in db.accounts
  {
    && |end.log| == 2 && end.log[1].Applied? && |end.txs| == 2
    && var tx := end.log[1].tx;
       tx == end.txs[0] && tx.status.Committed? && tx.prog == prog && RowsAround(tx, db, i, d)
  }

  /** The reader right after its loose SELECT, on the tables without the adder's `d`. */
  ghost predicate JustRead(tx: Tx, db: Tables, i: nat, d: int)
    requires i < |tx.prog| && tx.prog[i].ReadAccount? && tx.prog[i].account in db.accounts
  {
    && tx.status.Running? && |tx.ids| == i + 1 == |tx.work.rows|
    && var r := Alone(Less(db, tx.prog[i].account, d), tx); r.Ok? && r.value == tx.work
  }

  lemma RowsSplit(tx: Tx, tx': Tx, db: Tables, i: nat, d: int)
    requires i < |tx.prog| && Loose(tx.prog, i) && tx.prog[i].account in db.accounts
    requires JustRead(tx, db, i, d) && Later(db, tx, tx') && |tx'.ids| == |tx'.prog|
    ensures RowsAround(tx', db, i, d)
  {
    SameIds(Less(db, tx.prog[i].account, d), tx.prog, tx.ids, tx'.ids, tx.now, i + 1);
    assert tx'.work.rows == tx'.work.rows[..i + 1] + tx'.work.rows[i + 1..];
  }

  /** The reader goes on after the adder has committed. */
  lemma ReadsOn(s: State, db: Tables, i: nat, d: int) returns (run: seq<Action>)
    requires |s.txs| == 2 && s.db == db && s.keyMode.KeyShare? && |s.log| == 1
    requires i < |s.txs[0].prog| && Loose(s.txs[0].prog, i) && s.txs[0].prog[i].account in db.accounts
    requires JustRead(s.txs[0], db, i, d) && Passes(db, s.txs[0].prog, |s.txs[0].prog|)
    requires forall l | l in s.locks :: l.holder == 0
    ensures ValidRun(s, run) && ReadAround(Final(s, run), db, s.txs[0].prog, i, d)
  {
    SameUpTo(db, s.txs[0].prog, i, d, s.txs[0].ids, s.txs[0].now);
    var tx;
    run, tx := RunsToCommit(s, 0);
    RowsSplit(s.txs[0], tx, db, i, d);
  }

  /** The reader reads, and the adder runs and commits. */
  lemma ReadsThenAdds(db: Tables, bound: nat, prog: seq<Op>, i: nat, d: int) returns (run: seq<Action>)
    requires i < |prog| && Loose(prog, i) && Passes(db, prog, |prog|) && prog[i].account in db.accounts
    requires InInt64(db.accounts[prog[i].account].balance) && forall id | id in db.accounts :: id < bound
    ensures ValidRun(Start(Less(db, prog[i].account, d), bound), run)
    ensures var s := Final(Start(Less(db, prog[i].account, d), bound), run);
            && |s.txs| == 2 && s.db == db && s.keyMode.KeyShare? && |s.log| == 1
            && s.txs[0].prog == prog && JustRead(s.txs[0], db, i, d)
            && forall l | l in s.locks :: l.holder == 0
  {
    var less := Less(db, prog[i].account, d);
    var s0 := Start(less, bound);
    PassesPrefix(db, prog, |prog|, Zeros(i + 1), 0, i + 1);
    SameUpTo(db, prog, i, d, Zeros(i + 1), 0);
    var first := Reads(less, bound, prog, i, d);
    var s1 := Final(s0, first);
    ReachableInv(s0, first);
    AdderCommits(s1, db, prog, i, d);
    RunOne(s0, first, Exec(1));
    RunOne(s0, first + [Exec(1)], Commit(1));
    run := first + [Exec(1)] + [Commit(1)];
  }

  /** Another transaction changes the balance between the SELECT and the commit. */
  lemma ReadsAround(db: Tables, bound: nat, prog: seq<Op>, i: nat, d: int) returns (run: seq<Action>)
    requires i < |prog| && Loose(prog, i) && Passes(db, prog, |prog|) && prog[i].account in db.accounts
    requires InInt64(db.accounts[prog[i].account].balance) && forall id | id in db.accounts :: id < bound
    ensures ValidRun(Start(Less(db, prog[i].account, d), bound), run)
    ensures var end := Final(Start(Less(db, prog[i].account, d), bound), run);
            ReadAround(end, db, prog, i, d) && Replay(Less(db, prog[i].account, d), end.log[..1]) == db
  {
    var s0 := Start(Less(db, prog[i].account, d), bound);
    var middle := ReadsThenAdds(db, bound, prog, i, d);
    var s := Final(s0, middle);
    HistorySoFar(s0, middle);
    var last := ReadsOn(s, db, i, d);
    RunAppend(s0, middle, last);
    LogPrefix(s, last);
    run := middle + last;
    assert Final(s, last).log[..1] == s.log;
  }

  lemma HistorySoFar(s: State, run: seq<Action>)
    requires Initial(s) && ValidRun(s, run)
    ensures Final(s, run).db == Replay(s.db, Final(s, run).log)
  {
    ReachableInv(s, run);
  }

  lemma {:induction false} LogPrefix(s: State, run: seq<Action>)
    requires ValidRun(s, run)
    ensures s.log <= Final(s, run).log
    decreases |run|
  {
    if run != [] {
      LogPrefix(Apply(s, run[0]), run[1..]);
    }
  }

  lemma {:induction false} IdBound(ids: set<int>) returns (bound: nat)
    ensures forall id | id in ids :: id < bound
  {
    if id :| id in ids {
      var rest := ids - {id};
      bound := IdBound(rest);
      bound := Above(bound, if id >= 0 then id else 0);
      assert forall x | x in ids :: x == id || x in rest;
    } else {
      bound := 0;
    }
  }

  /** A loose SELECT of a body that can pass returns a row that serial execution does not, in some run. */
  lemma LooseIsNot(prog: seq<Op>, i: nat, db: Tables)
    requires i < |prog| && Loose(prog, i) && Bigints(db) && Passes(db, prog, |prog|)
    ensures !AlwaysSerial(prog, i)
  {
    LooseRow(db, prog, Zeros(|prog|), 0, |prog|, i);
    var a := prog[i].account;
    var d := if db.accounts[a].balance > 0 then 1 else -1;
    var bound := IdBound(db.accounts.Keys);
    var run := ReadsAround(db, bound, prog, i, d);
    var s := Start(Less(db, a, d), bound);
    RowDiffers(Final(s, run).log[1].tx, db, i, d);
    assert !RowIsSerial(s.db, Final(s, run).log, 1, i);
  }

  lemma RowDiffers(tx: Tx, db: Tables, i: nat, d: int)
    requires i < |tx.prog| && Loose(tx.prog, i) && tx.prog[i].account in db.accounts && d != 0
    requires RowsAround(tx, db, i, d)
    ensures tx.work.rows[i] != Alone(db, tx).value.rows[i]
  {
    var less := Less(db, tx.prog[i].account, d);
    LooseRow(db, tx.prog, tx.ids, tx.now, |tx.prog|, i);
    LooseRow(less, tx.prog, tx.ids, tx.now, i + 1, i);
    assert tx.work.rows[i] == AccountRow(less.accounts[tx.prog[i].account]);
  }

  // ----- main results

  /** A step of a body returns its serial row in every run exactly when it is not a plain SELECT of an account that no
      earlier step claims, or the body never gets through at all. */
  lemma SerialRowIff(prog: seq<Op>, i: nat)
    requires i < |prog|
    ensures AlwaysSerial(prog, i) <==> !Loose(prog, i) || NeverPasses(prog)
  {
    if Loose(prog, i) && !NeverPasses(prog) {
      var db :| Bigints(db) && Passes(db, prog, |prog|);
      LooseIsNot(prog, i, db);
    } else {
      TightIsSerial(prog, i);
    }
  }

  const READ_TWICE := [ReadAccount(1), ReadAccount(1)]

  /** Alone, on whatever tables, the reader returns the same row twice. */
  lemma ReadsTheSame(db: Tables, ids: seq<int>, now: int)
    requires |ids| == 2 && RunAlone(db, READ_TWICE, ids, now, 2).Ok?
    ensures 1 in db.accounts
    ensures RunAlone(db, READ_TWICE, ids, now, 2).value.rows == [AccountRow(db.accounts[1]), AccountRow(db.accounts[1])]
  {
    LooseRow(db, READ_TWICE, ids, now, 2, 0);
    LooseRow(db, READ_TWICE, ids, now, 2, 1);
  }

  /** A transaction that reads a row twice around another's commit returns rows that it returns on no tables when run
      alone. */
  lemma UnlockedReadIsNotSerial() returns (run: seq<Action>)
    ensures ValidRun(LockChoices.TwoAccounts(KeyShare), run) && Initial(LockChoices.TwoAccounts(KeyShare))
    ensures var end := Final(LockChoices.TwoAccounts(KeyShare), run);
            && |end.txs| == 2 && end.txs[0].prog == READ_TWICE && end.txs[0].status.Committed?
            && forall db, ids, now | |ids| == 2 && RunAlone(db, READ_TWICE, ids, now, 2).Ok? ::
                 RunAlone(db, READ_TWICE, ids, now, 2).value.rows != end.txs[0].work.rows
  {
    var init := LockChoices.TwoAccounts(KeyShare);
    var db := init.db.(accounts := init.db.accounts[1 := Credit(LockChoices.NewRow(1), 5)]);
    assert RunAlone(db, READ_TWICE, Zeros(2), 0, 1).Ok?;
    assert Less(db, 1, 5) == init.db;
    run := ReadsAround(db, 3, READ_TWICE, 0, 5);
    var tx := Final(init, run).txs[0];
    LooseRow(init.db, READ_TWICE, tx.ids, tx.now, 1, 0);
    ReadsTheSame(db, tx.ids, tx.now);
    assert tx.work.rows == [AccountRow(LockChoices.NewRow(1)), AccountRow(Credit(LockChoices.NewRow(1), 5))];
    forall db, ids, now | |ids| == 2 && RunAlone(db, READ_TWICE, ids, now, 2).Ok?
      ensures RunAlone(db, READ_TWICE, ids, now, 2).value.rows != tx.work.rows
    {
      ReadsTheSame(db, ids, now);
    }
  }
}
