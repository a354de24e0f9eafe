// Bodies that claim accounts in ascending id order, transfers among them, never deadlock, and every run of them ends.
module Deadlock {
  import opened Bank
  import opened Transfers
  import opened Protocol

  /** Accounts are updated or locked in ascending id order. */
  ghost predicate Ascending(prog: seq<Op>) {
    forall i, j | 0 <= i < j < |prog| && Claims(prog[i]) && Claims(prog[j]) ::
      prog[i].account <= prog[j].account
  }

  ghost predicate AllAscending(s: State) {
    forall tid: nat | tid < |s.txs| :: Ascending(s.txs[tid].prog)
  }

  ghost predicate AscendingRun(run: seq<Action>) {
    forall i | 0 <= i < |run| && run[i].Begin? :: Ascending(run[i].prog)
  }

  /** Some transaction is unfinished and none of the unfinished ones can take its next step. */
  ghost predicate Stuck(s: State) {
    && (exists tid :: IsRunning(s, tid))
    && (forall tid | IsRunning(s, tid) :: Blocked(s, tid))
  }

  // ----- no cycle of waiting transactions

  lemma BodyAscends(arg: TransferParams)
    ensures Ascending(Body(arg))
  {
    var prog := Body(arg);
    forall i, j | 0 <= i < j < |prog| && Claims(prog[i]) && Claims(prog[j])
      ensures prog[i].account <= prog[j].account
    {
      assert i == 7 && j == 8;
    }
  }

  lemma {:induction false} AscendingRunKeeps(s: State, run: seq<Action>)
    requires AllAscending(s) && ValidRun(s, run) && AscendingRun(run)
    ensures AllAscending(Final(s, run)) && Final(s, run).keyMode == s.keyMode
    decreases |run|
  {
    if run != [] {
      assert run[0].Begin? ==> Ascending(run[0].prog);
      AscendingRunKeeps(Apply(s, run[0]), run[1..]);
    }
  }

  /** Foreign-key checks never wait; a claim waits for a transaction that has claimed the same account. */
  lemma WaitsOnUpdate(s: State, tid: nat, u: nat)
    requires LocksOk(s) && s.keyMode.KeyShare? && WaitsFor(s, tid, u)
    ensures Claims(NextOp(s, tid))
    ensures IsRunning(s, u) && Lock(u, NextOp(s, tid).account, NoKeyUpdate) in s.locks
    ensures exists k :: 0 <= k < |s.txs[u].ids| && k < |s.txs[u].prog| && Claims(s.txs[u].prog[k]) &&
              s.txs[u].prog[k].account == NextOp(s, tid).account
  {
    var need := LockNeeded(s.keyMode, NextOp(s, tid)).value;
    var m :| Lock(u, need.account, m) in s.locks && Conflicts(need.mode, m);
    assert Justified(s, Lock(u, need.account, m));
  }

  /** The accounts awaited along a chain of waiting transactions strictly increase. */
  lemma AwaitedIncreases(s: State, tid: nat, u: nat, w: nat)
    requires LocksOk(s) && s.keyMode.KeyShare? && AllAscending(s)
    requires WaitsFor(s, tid, u) && WaitsFor(s, u, w)
    ensures Claims(NextOp(s, tid)) && Claims(NextOp(s, u))
    ensures NextOp(s, tid).account < NextOp(s, u).account
  {
    WaitsOnUpdate(s, tid, u);
    WaitsOnUpdate(s, u, w);
    var x, y := NextOp(s, tid).account, NextOp(s, u).account;
    assert Ascending(s.txs[u].prog);
    assert x <= y;
  }

  /** A chain of transactions, each waiting for the next. */
  ghost predicate Chain(s: State, path: seq<nat>) {
    |path| >= 2 && forall i | 0 <= i < |path| - 1 :: WaitsFor(s, path[i], path[i + 1])
  }

  lemma {:induction false} ChainIncreases(s: State, path: seq<nat>, last: nat)
    requires LocksOk(s) && s.keyMode.KeyShare? && AllAscending(s)
    requires Chain(s, path) && WaitsFor(s, path[0], path[1]) && WaitsFor(s, path[|path| - 1], last)
    ensures Claims(NextOp(s, path[0])) && Claims(NextOp(s, path[|path| - 1]))
    ensures NextOp(s, path[0]).account < NextOp(s, path[|path| - 1]).account
    decreases |path|
  {
    assert WaitsFor(s, path[0], path[1]);
    if |path| == 2 {
      AwaitedIncreases(s, path[0], path[1], last);
    } else {
      var rest := path[1..];
      forall i | 0 <= i < |rest| - 1
        ensures WaitsFor(s, rest[i], rest[i + 1])
      {
        assert WaitsFor(s, path[i + 1], path[i + 2]);
      }
      assert WaitsFor(s, path[1], path[2]);
      AwaitedIncreases(s, path[0], path[1], path[2]);
      ChainIncreases(s, rest, last);
    }
  }

  lemma NoCycle(s: State, path: seq<nat>)
    requires LocksOk(s) && s.keyMode.KeyShare? && AllAscending(s) && Chain(s, path)
    ensures path[0] != path[|path| - 1]
  {
    assert WaitsFor(s, path[0], path[1]);
    if path[0] == path[|path| - 1] {
      ChainIncreases(s, path, path[1]);
    }
  }

  // ----- somebody can always move

  /** Among the first `n` transactions, the blocked one that awaits the highest account; `n` if none is blocked. */
  ghost function Highest(s: State, n: nat): (tid: nat)
    requires n <= |s.txs|
    requires forall t: nat | Blocked(s, t) :: Claims(NextOp(s, t))
    ensures tid < n ==> Blocked(s, tid)
    ensures forall t: nat | t < n && Blocked(s, t) :: tid < n && NextOp(s, t).account <= NextOp(s, tid).account
  {
    if n == 0 then
      0
    else
      var best := Highest(s, n - 1);
      if !Blocked(s, n - 1) then
        if best == n - 1 then n else best
      else if best < n - 1 && NextOp(s, n - 1).account <= NextOp(s, best).account then
        best
      else
        n - 1
  }

  lemma NotStuck(s: State)
    requires LocksOk(s) && s.keyMode.KeyShare? && AllAscending(s)
    ensures !Stuck(s)
  {
    forall t: nat | Blocked(s, t)
      ensures Claims(NextOp(s, t))
    {
      var u :| WaitsFor(s, t, u);
      WaitsOnUpdate(s, t, u);
    }
    var top := Highest(s, |s.txs|);
    if top < |s.txs| {
      var u :| WaitsFor(s, top, u);
      WaitsOnUpdate(s, top, u);
      if Blocked(s, u) {
        var w :| WaitsFor(s, u, w);
        AwaitedIncreases(s, top, u, w);
        assert false;
      }
    }
  }

  /** Bodies that update accounts in ascending order never deadlock: the wait-for relation has no cycle and, while
      anything is unfinished, some unfinished transaction can take its next step. */
  lemma DeadlockFree(s: State, run: seq<Action>)
    requires Initial(s) && s.keyMode.KeyShare? && ValidRun(s, run) && AscendingRun(run)
    ensures !Stuck(Final(s, run))
    ensures forall path :: Chain(Final(s, run), path) ==> path[0] != path[|path| - 1]
  {
    var end := Final(s, run);
    ReachableInv(s, run);
    AscendingRunKeeps(s, run);
    NotStuck(end);
    forall path | Chain(end, path)
      ensures path[0] != path[|path| - 1]
    {
      NoCycle(end, path);
    }
  }

  // ----- every run ends

  /** The steps a transaction may still take, counting its end. */
  function Remaining(tx: Tx): nat {
    if tx.status.Running? && |tx.ids| <= |tx.prog| then |tx.prog| - |tx.ids| + 1 else 0
  }

  function Measure(txs: seq<Tx>): nat {
    if txs == [] then 0 else Measure(txs[..|txs| - 1]) + Remaining(txs[|txs| - 1])
  }

  lemma {:induction false} MeasureUpdate(txs: seq<Tx>, tid: nat, tx: Tx)
    requires tid < |txs|
    ensures Measure(txs[tid := tx]) == Measure(txs) - Remaining(txs[tid]) + Remaining(tx)
  {
    var n := |txs| - 1;
    if tid == n {
      assert txs[tid := tx][..n] == txs[..n];
    } else {
      assert txs[tid := tx][..n] == txs[..n][tid := tx];
      MeasureUpdate(txs[..n], tid, tx);
    }
  }

  /** A step taken by a transaction, as opposed to one that brings in new users, accounts or transactions. */
  predicate IsTxStep(a: Action) {
    a.Exec? || a.Fail? || a.Fault? || a.Commit?
  }

  function TxStep(a: Action): nat {
    if IsTxStep(a) then 1 else 0
  }

  lemma StepShrinks(s: State, a: Action)
    requires TxsOk(s) && Enabled(s, a) && !a.Begin?
    ensures Measure(Apply(s, a).txs) + TxStep(a) <= Measure(s.txs)
  {
    if IsTxStep(a) {
      assert AsIfAlone(s, a.tid);
      var tx' := Apply(s, a).txs[a.tid];
      assert Apply(s, a).txs == s.txs[a.tid := tx'];
      MeasureUpdate(s.txs, a.tid, tx');
    }
  }

  function TxSteps(run: seq<Action>): nat {
    if run == [] then 0 else TxStep(run[0]) + TxSteps(run[1..])
  }

  lemma {:induction false} RunShrinks(s: State, run: seq<Action>)
    requires LocksOk(s) && TxsOk(s) && ValidRun(s, run) && forall i | 0 <= i < |run| :: !run[i].Begin?
    ensures TxSteps(run) + Measure(Final(s, run).txs) <= Measure(s.txs)
    decreases |run|
  {
    if run != [] {
      assert !run[0].Begin?;
      StepShrinks(s, run[0]);
      LocksStep(s, run[0]);
      TxsStep(s, run[0]);
      RunShrinks(Apply(s, run[0]), run[1..]);
    }
  }

  /** No transaction can step without an outside fault. */
  ghost predicate Quiet(s: State) {
    forall tid :: !Enabled(s, Exec(tid)) && !Enabled(s, Fail(tid)) && !Enabled(s, Commit(tid))
  }

  lemma QuietIsDone(s: State)
    requires LocksOk(s) && s.keyMode.KeyShare? && AllAscending(s) && Quiet(s)
    ensures s.locks == {} && forall tid: nat | tid < |s.txs| :: !s.txs[tid].status.Running?
  {
    NotStuck(s);
    forall tid: nat | IsRunning(s, tid)
      ensures Blocked(s, tid)
    {
      assert !Enabled(s, Exec(tid)) && !Enabled(s, Fail(tid)) && !Enabled(s, Commit(tid));
    }
    assert forall tid: nat | tid < |s.txs| :: IsRunning(s, tid) <==> s.txs[tid].status.Running?;
    forall l | l in s.locks
      ensures IsRunning(s, l.holder)
    {
      assert Justified(s, l);
    }
  }

  /** Once no more transactions begin, a run has a bounded number of transaction steps; and where none can step without
      an outside fault, all of them are committed or rolled back and the lock table is empty. */
  lemma Termination(s: State, run: seq<Action>, more: seq<Action>)
    requires Initial(s) && s.keyMode.KeyShare? && ValidRun(s, run) && AscendingRun(run)
    requires ValidRun(Final(s, run), more) && forall i | 0 <= i < |more| :: !more[i].Begin?
    ensures var end := Final(Final(s, run), more);
            && TxSteps(more) <= Measure(Final(s, run).txs)
            && (Quiet(end) ==> end.locks == {} && forall tid: nat | tid < |end.txs| :: !end.txs[tid].status.Running?)
  {
    var mid := Final(s, run);
    ReachableInv(s, run);
    RunShrinks(mid, more);
    InvRun(s.db, mid, more);
    AscendingRunKeeps(s, run);
    AscendingRunKeeps(mid, more);
    if Quiet(Final(mid, more)) {
      QuietIsDone(Final(mid, more));
    }
  }
}
