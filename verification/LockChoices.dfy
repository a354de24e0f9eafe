// Why the protocol is built the way it is: which foreign-key lock modes and which update orders avoid deadlock.
module LockChoices {
  import opened Wrappers
  import opened Integers
  import opened Bank
  import opened Transfers
  import opened Protocol
  import opened Deadlock
  import opened Solo

  /** Every transaction that begins is a money transfer. */
  ghost predicate TransfersOnly(run: seq<Action>) {
    forall i | 0 <= i < |run| && run[i].Begin? :: exists arg :: run[i].prog == Body(arg)
  }

  /** No run of transfers, however many and between whatever accounts, reaches a deadlock. */
  ghost predicate AlwaysLive(mode: LockMode) {
    forall s, run | Initial(s) && s.keyMode == mode && ValidRun(s, run) && TransfersOnly(run) :: !Stuck(Final(s, run))
  }

  // ----- the inserting steps

  const INSERTS := 7

  /** `tid` is still in the seven inserting and checking steps, and the accounts they check exist. */
  ghost predicate Inserting(s: State, tid: nat) {
    && IsRunning(s, tid)
    && |s.txs[tid].ids| <= INSERTS < |s.txs[tid].prog|
    && (forall k | 0 <= k < INSERTS ::
          !Claims(s.txs[tid].prog[k]) && !s.txs[tid].prog[k].ReadAccount? &&
          (s.txs[tid].prog[k].CheckKey? ==> s.txs[tid].prog[k].account in s.db.accounts))
  }

  ghost predicate OnlyKeyLocks(s: State) {
    forall l | l in s.locks :: l.mode == s.keyMode
  }

  /** `s'` is `s` after `tid` alone has finished its inserting steps. */
  ghost predicate InsertsDone(s: State, s': State, tid: nat)
    requires tid < |s.txs|
  {
    && OnlyKeyLocks(s') && s'.keyMode == s.keyMode && s'.db == s.db
    && |s'.txs| == |s.txs|
    && s'.txs[tid].status.Running? && s'.txs[tid].prog == s.txs[tid].prog && |s'.txs[tid].ids| == INSERTS
    && s'.txs[tid].work.writes.accounts == s.txs[tid].work.writes.accounts
    && forall u | 0 <= u < |s.txs| && u != tid :: s'.txs[u] == s.txs[u]
  }

  lemma {:induction false} RunInserts(s: State, tid: nat) returns (run: seq<Action>)
    requires !Conflicts(s.keyMode, s.keyMode) && OnlyKeyLocks(s) && Inserting(s, tid)
    ensures ValidRun(s, run) && InsertsDone(s, Final(s, run), tid) && forall i | 0 <= i < |run| :: !run[i].Begin?
    decreases INSERTS - |s.txs[tid].ids|
  {
    if |s.txs[tid].ids| == INSERTS {
      run := [];
    } else {
      var op := NextOp(s, tid);
      assert op == s.txs[tid].prog[|s.txs[tid].ids|];
      CanExec(s, tid);
      var s' := Apply(s, Exec(tid));
      assert s'.txs[tid].work.writes.accounts == s.txs[tid].work.writes.accounts;
      var rest := RunInserts(s', tid);
      run := [Exec(tid)] + rest;
      assert run[1..] == rest;
    }
  }

  // ----- two crossing transfers between accounts 1 and 2

  function NewRow(id: int): Account {
    Account(id, "owner", 0, "USD", 0)
  }

  function TwoAccounts(mode: LockMode): State {
    State(mode, {}, Tables(map[1 := NewRow(1), 2 := NewRow(2)], [], []), [], {}, 3, 1, 1, [])
  }

  const THERE := TransferParams(1, 2, 10)
  const BACK := TransferParams(2, 1, 10)

  ghost function BothBegun(mode: LockMode, there: seq<Op>, back: seq<Op>): State {
    Apply(Apply(TwoAccounts(mode), Begin(there, 0)), Begin(back, 0))
  }

  lemma Begun(mode: LockMode, there: seq<Op>, back: seq<Op>)
    ensures ValidRun(TwoAccounts(mode), [Begin(there, 0), Begin(back, 0)])
    ensures Final(TwoAccounts(mode), [Begin(there, 0), Begin(back, 0)]) == BothBegun(mode, there, back)
  {
    var s := TwoAccounts(mode);
    assert ValidRun(s, []) && Final(s, []) == s;
    RunOne(s, [], Begin(there, 0));
    assert [] + [Begin(there, 0)] == [Begin(there, 0)];
    RunOne(s, [Begin(there, 0)], Begin(back, 0));
    assert [Begin(there, 0)] + [Begin(back, 0)] == [Begin(there, 0), Begin(back, 0)];
  }

  /** `there` and `back` begin, and nothing else does. */
  ghost predicate Pair(run: seq<Action>, there: seq<Op>, back: seq<Op>) {
    && |run| >= 2 && run[0] == Begin(there, 0) && run[1] == Begin(back, 0)
    && forall i | 2 <= i < |run| :: !run[i].Begin?
  }

  lemma Inserts(arg: TransferParams, s: State, tid: nat)
    requires IsRunning(s, tid) && s.txs[tid].ids == [] && Exist(s.db.accounts, arg)
    requires |s.txs[tid].prog| == BODY_LENGTH && s.txs[tid].prog[..INSERTS] == Body(arg)[..INSERTS]
    ensures Inserting(s, tid)
  {
    var prog := s.txs[tid].prog;
    assert forall k | 0 <= k < INSERTS :: prog[k] == prog[..INSERTS][k] == Body(arg)[..INSERTS][k] == Body(arg)[k];
  }

  lemma BothInserting(mode: LockMode, there: seq<Op>, back: seq<Op>)
    requires |there| == |back| == BODY_LENGTH
    requires there[..INSERTS] == Body(THERE)[..INSERTS] && back[..INSERTS] == Body(BACK)[..INSERTS]
    ensures Inserting(BothBegun(mode, there, back), 0) && Inserting(BothBegun(mode, there, back), 1)
  {
    Inserts(THERE, BothBegun(mode, there, back), 0);
    Inserts(BACK, BothBegun(mode, there, back), 1);
  }

  /** Both transfers run up to their balance updates, all foreign-key checks passed. */
  lemma BothInsert(mode: LockMode, there: seq<Op>, back: seq<Op>) returns (run: seq<Action>)
    requires !Conflicts(mode, mode)
    requires |there| == |back| == BODY_LENGTH
    requires there[..INSERTS] == Body(THERE)[..INSERTS] && back[..INSERTS] == Body(BACK)[..INSERTS]
    ensures ValidRun(TwoAccounts(mode), run)
    ensures Pair(run, there, back)
    ensures var end := Final(TwoAccounts(mode), run);
            && OnlyKeyLocks(end) && end.keyMode == mode && |end.txs| == 2 && end.db == TwoAccounts(mode).db
            && (forall tid: nat | tid < 2 :: IsRunning(end, tid) && |end.txs[tid].ids| == INSERTS &&
                                             end.txs[tid].work.writes.accounts == map[])
            && end.txs[0].prog == there && end.txs[1].prog == back
  {
    var begins := [Begin(there, 0), Begin(back, 0)];
    var s := BothBegun(mode, there, back);
    Begun(mode, there, back);
    BothInserting(mode, there, back);
    var run0 := RunInserts(s, 0);
    var s0 := Final(s, run0);
    assert s0.txs[1] == s.txs[1];
    var run1 := RunInserts(s0, 1);
    RunAppend(s, run0, run1);
    RunAppend(TwoAccounts(mode), begins, run0 + run1);
    run := begins + (run0 + run1);
    assert Final(TwoAccounts(mode), run).txs[0] == s0.txs[0];
  }

  /** Two running transactions that wait for each other, and nobody else, are a deadlock. */
  lemma EachOther(s: State)
    requires |s.txs| == 2 && IsRunning(s, 0) && WaitsFor(s, 0, 1) && WaitsFor(s, 1, 0)
    ensures Stuck(s)
  {
  }

  // ----- foreign-key checks that conflict with updates deadlock crossing transfers

  lemma ShareStuck(s: State)
    requires s.keyMode.Share? && |s.txs| == 2
    requires forall tid: nat | tid < 2 :: IsRunning(s, tid) && |s.txs[tid].ids| == INSERTS
    requires s.txs[0].prog == Body(THERE) && s.txs[1].prog == Body(BACK)
    requires HoldsItsLocks(s, 0) && HoldsItsLocks(s, 1)
    ensures Stuck(s)
  {
    var there, back := Body(THERE), Body(BACK);
    assert there[1] == CheckKey(1) && back[2] == CheckKey(1);
    assert LockNeeded(Share, there[1]).Some? && LockNeeded(Share, back[2]).Some?;
    assert Lock(0, 1, Share) in s.locks && Lock(1, 1, Share) in s.locks;
    assert IsRunning(s, 0) && IsRunning(s, 1);
    assert NextOp(s, 0) == there[7] == AddBalance(1, -10) && NextOp(s, 1) == back[7] == AddBalance(1, 10);
    EachOther(s);
  }

  /** FOR SHARE: both transfers share both rows, then neither may update account 1. */
  lemma ShareDeadlocks()
    ensures !AlwaysLive(Share)
  {
    var there, back := Body(THERE), Body(BACK);
    var run := BothInsert(Share, there, back);
    var init := TwoAccounts(Share);
    ReachableInv(init, run);
    assert HoldsItsLocks(Final(init, run), 0) && HoldsItsLocks(Final(init, run), 1);
    ShareStuck(Final(init, run));
    BeginsAreTransfers(run);
  }

  lemma BeginsAreTransfers(run: seq<Action>)
    requires Pair(run, Body(THERE), Body(BACK))
    ensures TransfersOnly(run)
  {
    forall i | 0 <= i < |run| && run[i].Begin?
      ensures exists arg :: run[i].prog == Body(arg)
    {
      assert run[i].prog == Body(if i == 0 then THERE else BACK);
    }
  }

  /** The crossing transfers after `n0` and `n1` inserting steps. */
  ghost predicate Crossing(s: State, mode: LockMode, n0: nat, n1: nat, locks: set<Lock>) {
    && s.keyMode == mode && |s.txs| == 2 && s.db == TwoAccounts(mode).db && s.locks == locks
    && IsRunning(s, 0) && s.txs[0].prog == Body(THERE) && |s.txs[0].ids| == n0
    && IsRunning(s, 1) && s.txs[1].prog == Body(BACK) && |s.txs[1].ids| == n1
  }

  /** A run of the two crossing transfers that has come this far. */
  ghost predicate CrossRun(run: seq<Action>, mode: LockMode, n0: nat, n1: nat, locks: set<Lock>) {
    && ValidRun(TwoAccounts(mode), run) && Pair(run, Body(THERE), Body(BACK))
    && Crossing(Final(TwoAccounts(mode), run), mode, n0, n1, locks)
  }

  /** Transfer `tid` inserts its row and then locks the key of its source account. */
  lemma CrossStep(s: State, mode: LockMode, n0: nat, n1: nat, locks: set<Lock>, tid: nat)
    requires tid < 2 && Crossing(s, mode, n0, n1, locks)
    requires (if tid == 0 then n0 else n1) < 2
    requires forall l | l in locks :: l.holder != tid && l.account != if tid == 0 then 1 else 2
    ensures Enabled(s, Exec(tid))
    ensures var first := (if tid == 0 then n0 else n1) == 0;
            Crossing(Apply(s, Exec(tid)), mode, if tid == 0 then n0 + 1 else n0, if tid == 1 then n1 + 1 else n1,
                     if first then locks else locks + {Lock(tid, if tid == 0 then 1 else 2, mode)})
  {
    var arg := if tid == 0 then THERE else BACK;
    assert Body(arg)[0] == InsertTransfer(arg.from, arg.to, arg.amount) && Body(arg)[1] == CheckKey(arg.from);
    CanExec(s, tid);
  }

  lemma CrossTwice(run: seq<Action>, mode: LockMode, n0: nat, n1: nat, locks: set<Lock>, tid: nat)
    returns (run': seq<Action>)
    requires tid < 2 && CrossRun(run, mode, n0, n1, locks) && (if tid == 0 then n0 else n1) == 0
    requires forall l | l in locks :: l.holder != tid && l.account != if tid == 0 then 1 else 2
    ensures CrossRun(run', mode, if tid == 0 then 2 else n0, if tid == 1 then 2 else n1,
                     locks + {Lock(tid, if tid == 0 then 1 else 2, mode)})
  {
    var init := TwoAccounts(mode);
    var s := Final(init, run);
    CrossStep(s, mode, n0, n1, locks, tid);
    RunOne(init, run, Exec(tid));
    CrossStep(Apply(s, Exec(tid)), mode, if tid == 0 then 1 else n0, if tid == 1 then 1 else n1, locks, tid);
    RunOne(init, run + [Exec(tid)], Exec(tid));
    run' := run + [Exec(tid)] + [Exec(tid)];
  }

  /** FOR NO KEY UPDATE or FOR UPDATE: each transfer locks its own `from` row ... */
  lemma ExclusiveRun(mode: LockMode) returns (run: seq<Action>)
    requires Conflicts(mode, mode)
    ensures CrossRun(run, mode, 2, 2, {Lock(0, 1, mode), Lock(1, 2, mode)})
  {
    Begun(mode, Body(THERE), Body(BACK));
    run := CrossTwice([Begin(Body(THERE), 0), Begin(Body(BACK), 0)], mode, 0, 0, {}, 0);
    assert {} + {Lock(0, 1, mode)} == {Lock(0, 1, mode)};
    run := CrossTwice(run, mode, 2, 0, {Lock(0, 1, mode)}, 1);
    assert {Lock(0, 1, mode)} + {Lock(1, 2, mode)} == {Lock(0, 1, mode), Lock(1, 2, mode)};
  }

  /** ... and then needs the other's. */
  lemma ExclusiveDeadlocks(mode: LockMode)
    requires Conflicts(mode, mode)
    ensures !AlwaysLive(mode)
  {
    var run := ExclusiveRun(mode);
    var end := Final(TwoAccounts(mode), run);
    assert NextOp(end, 0) == Body(THERE)[2] == CheckKey(2) && NextOp(end, 1) == Body(BACK)[2] == CheckKey(1);
    assert Lock(0, 1, mode) in end.locks && Lock(1, 2, mode) in end.locks;
    EachOther(end);
    BeginsAreTransfers(run);
  }

  /** Transfers are deadlock-free exactly when the lock of a foreign-key check is compatible with the lock of a balance
      update, which is why KEY SHARE against NO KEY UPDATE matters. */
  lemma LiveIffKeyLockCompatible(mode: LockMode)
    ensures AlwaysLive(mode) <==> !Conflicts(mode, NoKeyUpdate)
  {
    if mode.KeyShare? {
      forall s: State, run: seq<Action> | Initial(s) && s.keyMode == mode && ValidRun(s, run) && TransfersOnly(run)
        ensures !Stuck(Final(s, run))
      {
        forall i | 0 <= i < |run| && run[i].Begin?
          ensures Ascending(run[i].prog)
        {
          var arg :| run[i].prog == Body(arg);
          BodyAscends(arg);
        }
        DeadlockFree(s, run);
      }
    } else if mode.Share? {
      ShareDeadlocks();
    } else {
      ExclusiveDeadlocks(mode);
    }
  }

  // ----- the id order of the updates

  /** The body without the id order: always debit first. */
  function DebitFirst(arg: TransferParams): seq<Op> {
    Body(arg)[..INSERTS] + AddMoney(arg.from, Neg64(arg.amount), arg.to, arg.amount)
  }

  /** A first balance update, with no other update in its way. */
  lemma FirstUpdate(s: State, tid: nat)
    requires IsRunning(s, tid) && |s.txs[tid].ids| == INSERTS < |s.txs[tid].prog|
    requires s.txs[tid].prog[INSERTS].AddBalance?
    requires s.keyMode.KeyShare? && s.txs[tid].work.writes.accounts == map[]
    requires var op := s.txs[tid].prog[INSERTS];
             && op.account in s.db.accounts && InInt64(s.db.accounts[op.account].balance + op.amount)
             && forall l | l in s.locks && l.account == op.account :: l.mode.KeyShare?
    ensures Enabled(s, Exec(tid))
    ensures var s' := Apply(s, Exec(tid));
            && s'.locks == s.locks + {Lock(tid, s.txs[tid].prog[INSERTS].account, NoKeyUpdate)}
            && s'.keyMode == s.keyMode && s'.db == s.db && |s'.txs| == |s.txs|
            && IsRunning(s', tid) && |s'.txs[tid].ids| == INSERTS + 1 && s'.txs[tid].prog == s.txs[tid].prog
            && forall u | 0 <= u < |s.txs| && u != tid :: s'.txs[u] == s.txs[u]
  {
    CanExec(s, tid);
  }

  /** Without the order, two crossing transfers deadlock even with the real lock modes. */
  lemma OrderIsNeeded() returns (run: seq<Action>)
    ensures ValidRun(TwoAccounts(KeyShare), run) && Initial(TwoAccounts(KeyShare))
    ensures Pair(run, DebitFirst(THERE), DebitFirst(BACK))
    ensures Stuck(Final(TwoAccounts(KeyShare), run))
  {
    var there, back := DebitFirst(THERE), DebitFirst(BACK);
    assert there[..INSERTS] == Body(THERE)[..INSERTS] && back[..INSERTS] == Body(BACK)[..INSERTS];
    var run0 := BothInsert(KeyShare, there, back);
    run := DebitBoth(run0);
  }

  /** Both transfers have passed their foreign-key checks and updated nothing yet. */
  ghost predicate BothChecked(s: State) {
    && OnlyKeyLocks(s) && s.keyMode.KeyShare? && |s.txs| == 2 && s.db == TwoAccounts(KeyShare).db
    && (forall tid: nat | tid < 2 :: IsRunning(s, tid) && |s.txs[tid].ids| == INSERTS &&
                                     s.txs[tid].work.writes.accounts == map[])
    && s.txs[0].prog == DebitFirst(THERE) && s.txs[1].prog == DebitFirst(BACK)
  }

  lemma DebitBoth(run: seq<Action>) returns (run': seq<Action>)
    requires ValidRun(TwoAccounts(KeyShare), run) && BothChecked(Final(TwoAccounts(KeyShare), run))
    ensures run' == run + [Exec(0), Exec(1)]
    ensures ValidRun(TwoAccounts(KeyShare), run') && Stuck(Final(TwoAccounts(KeyShare), run'))
  {
    var init, s := TwoAccounts(KeyShare), Final(TwoAccounts(KeyShare), run);
    DebitsStuck(s);
    RunOne(init, run, Exec(0));
    RunOne(init, run + [Exec(0)], Exec(1));
    run' := run + [Exec(0)] + [Exec(1)];
  }

  /** Each debits its own source and then waits for the other's. */
  lemma DebitsStuck(s: State)
    requires BothChecked(s)
    ensures Enabled(s, Exec(0)) && Enabled(Apply(s, Exec(0)), Exec(1)) && Stuck(Apply(Apply(s, Exec(0)), Exec(1)))
  {
    var there, back := DebitFirst(THERE), DebitFirst(BACK);
    assert there[7] == AddBalance(1, -10) && there[8] == AddBalance(2, 10);
    assert back[7] == AddBalance(2, -10) && back[8] == AddBalance(1, 10);
    FirstUpdate(s, 0);
    var s1 := Apply(s, Exec(0));
    assert s1.txs[1] == s.txs[1];
    FirstUpdate(s1, 1);
    var s2 := Apply(s1, Exec(1));
    assert s2.txs[0] == s1.txs[0];
    assert NextOp(s2, 0) == there[8] && NextOp(s2, 1) == back[8];
    assert Lock(0, 1, NoKeyUpdate) in s2.locks && Lock(1, 2, NoKeyUpdate) in s2.locks;
    EachOther(s2);
  }
}
