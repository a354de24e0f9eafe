// Building runs: one run after another, and a transaction that nobody hinders.
module Solo {
  import opened Wrappers
  import opened Integers
  import opened Bank
  import opened Protocol

  // ----- building runs

  lemma {:induction false} RunAppend(s: State, run: seq<Action>, more: seq<Action>)
    requires ValidRun(s, run) && ValidRun(Final(s, run), more)
    ensures ValidRun(s, run + more) && Final(s, run + more) == Final(Final(s, run), more)
    decreases |run|
  {
    if run == [] {
      assert run + more == more;
    } else {
      assert (run + more)[1..] == run[1..] + more;
      RunAppend(Apply(s, run[0]), run[1..], more);
    }
  }

  lemma RunOne(s: State, run: seq<Action>, a: Action)
    requires ValidRun(s, run) && Enabled(Final(s, run), a)
    ensures ValidRun(s, run + [a]) && Final(s, run + [a]) == Apply(Final(s, run), a)
  {
    var end := Final(s, run);
    assert [a][0] == a && [a][1..] == [];
    assert ValidRun(Apply(end, a), []) && Final(Apply(end, a), []) == Apply(end, a);
    assert ValidRun(end, [a]);
    assert Final(end, [a]) == Final(Apply(end, a), []);
    RunAppend(s, run, [a]);
  }

  /** A step whose row lock nobody else's lock stands against, and which reports no error, can be taken. */
  lemma CanExec(s: State, tid: nat)
    requires HasNext(s, tid) && Outcome(s, tid).Ok?
    requires LockNeeded(s.keyMode, NextOp(s, tid)).Some? ==>
               forall l | l in s.locks && l.holder != tid &&
                          l.account == LockNeeded(s.keyMode, NextOp(s, tid)).value.account ::
                 !Conflicts(LockNeeded(s.keyMode, NextOp(s, tid)).value.mode, l.mode)
    ensures Enabled(s, Exec(tid))
  {
    forall u
      ensures !WaitsFor(s, tid, u)
    {
    }
  }

  // ----- bodies that get through

  /** Whether a body gets through, and what it writes and reads, depends neither on the sequence values it draws nor on
      its start time. */
  lemma {:induction false} AnyIds(db: Tables, prog: seq<Op>, ids: seq<int>, now: int, ids': seq<int>, now': int, n: nat)
    requires n <= |prog| && n <= |ids| && n <= |ids'|
    ensures RunAlone(db, prog, ids, now, n).Ok? <==> RunAlone(db, prog, ids', now', n).Ok?
    ensures RunAlone(db, prog, ids, now, n).Ok? ==>
              RunAlone(db, prog, ids, now, n).value.writes.accounts ==
                RunAlone(db, prog, ids', now', n).value.writes.accounts
  {
    if n > 0 {
      AnyIds(db, prog, ids, now, ids', now', n - 1);
    }
  }

  /** A body that got through its first `n` steps got through the first `m`, and returned these rows first. */
  lemma {:induction false} Earlier(db: Tables, prog: seq<Op>, ids: seq<int>, now: int, m: nat, n: nat)
    requires m <= n <= |prog| && n <= |ids| && RunAlone(db, prog, ids, now, n).Ok?
    ensures RunAlone(db, prog, ids, now, m).Ok?
    ensures var rows, rows' := RunAlone(db, prog, ids, now, m).value.rows, RunAlone(db, prog, ids, now, n).value.rows;
            |rows| == m && |rows'| == n && rows <= rows'
  {
    RunWrites(db, prog, ids, now, n);
    if m < n {
      Earlier(db, prog, ids, now, m, n - 1);
    }
  }

  function Zeros(n: nat): seq<int> {
    seq(n, i => 0)
  }

  /** Run alone on these tables, the body gets through its first `n` steps. */
  predicate Passes(db: Tables, prog: seq<Op>, n: nat)
    requires n <= |prog|
  {
    RunAlone(db, prog, Zeros(n), 0, n).Ok?
  }

  lemma PassesAny(db: Tables, prog: seq<Op>, n: nat, ids: seq<int>, now: int)
    requires n <= |prog| && n <= |ids|
    ensures Passes(db, prog, n) <==> RunAlone(db, prog, ids, now, n).Ok?
  {
    AnyIds(db, prog, ids, now, Zeros(n), 0, n);
  }

  /** The first `m` steps of a body that passes its first `n`. */
  lemma PassesPrefix(db: Tables, prog: seq<Op>, n: nat, ids: seq<int>, now: int, m: nat)
    requires m <= n <= |prog| && m <= |ids| && Passes(db, prog, n)
    ensures RunAlone(db, prog, ids, now, m).Ok? && |RunAlone(db, prog, ids, now, m).value.rows| == m
  {
    Earlier(db, prog, Zeros(n), 0, m, n);
    AnyIds(db, prog, ids, now, Zeros(n), 0, m);
    RunWrites(db, prog, ids, now, m);
  }

  // ----- a transaction alone with the tables

  /** What a run of `tx` on its own tables would have done by now. */
  function Alone(db: Tables, tx: Tx): Result<Work, DbError>
    requires |tx.ids| <= |tx.prog|
  {
    RunAlone(db, tx.prog, tx.ids, tx.now, |tx.ids|)
  }

  /** Transaction `tid` is the only one with locks and has nothing in its way up to step `n`. */
  ghost predicate Undisturbed(s: State, tid: nat, n: nat) {
    IsRunning(s, tid) && (forall l | l in s.locks :: l.holder == tid) && OnTrack(s.db, s.txs[tid], n)
  }

  /** `tx'` is `tx` some steps later, each of which returned the row it returns alone. */
  ghost predicate Later(db: Tables, tx: Tx, tx': Tx) {
    && tx'.prog == tx.prog && tx'.now == tx.now && tx'.status == tx.status
    && tx.ids <= tx'.ids && |tx'.ids| <= |tx'.prog|
    && |tx.work.rows| == |tx.ids| && |tx'.work.rows| == |tx'.ids| && tx.work.rows <= tx'.work.rows
    && Alone(db, tx').Ok? && |Alone(db, tx').value.rows| == |tx'.ids|
    && tx'.work.rows[|tx.ids|..] == Alone(db, tx').value.rows[|tx.ids|..]
  }

  /** `tx` has written so far what it writes alone, and passes alone up to step `n`. */
  predicate OnTrack(db: Tables, tx: Tx, n: nat) {
    && |tx.ids| <= n <= |tx.prog| && |tx.work.rows| == |tx.ids|
    && Passes(db, tx.prog, n)
    && Alone(db, tx).Ok? && Alone(db, tx).value.writes == tx.work.writes
  }

  function Stepped(tx: Tx, id: int, work: Work): Tx {
    tx.(ids := tx.ids + [id], work := work)
  }

  lemma StepsOn(db: Tables, tx: Tx, n: nat, id: int)
    requires OnTrack(db, tx, n) && |tx.ids| < n
    ensures var r := ExecOp(db, tx.work, tx.prog[|tx.ids|], id, tx.now);
            r.Ok? && OnTrack(db, Stepped(tx, id, r.value), n) && Later(db, tx, Stepped(tx, id, r.value))
  {
    var m, op, w := |tx.ids|, tx.prog[|tx.ids|], Alone(db, tx).value;
    RunNext(db, tx.prog, tx.ids, id, tx.now);
    PassesPrefix(db, tx.prog, n, tx.ids + [id], tx.now, m + 1);
    RunWrites(db, tx.prog, tx.ids, tx.now, m);
    ExecFrame(db, db, w, tx.work, op, id, tx.now, false);
    var tx' := Stepped(tx, id, ExecOp(db, tx.work, op, id, tx.now).value);
    assert tx'.work.rows[m..] == [LastRow(tx'.work)] && Alone(db, tx').value.rows[m..] == [LastRow(tx'.work)];
  }

  lemma UndisturbedStep(s: State, tid: nat, n: nat)
    requires Undisturbed(s, tid, n) && |s.txs[tid].ids| < n
    ensures Enabled(s, Exec(tid)) && Undisturbed(Apply(s, Exec(tid)), tid, n)
    ensures Later(s.db, s.txs[tid], Apply(s, Exec(tid)).txs[tid])
  {
    StepsOn(s.db, s.txs[tid], n, DrawnId(s, NextOp(s, tid)));
    CanExec(s, tid);
  }

  lemma LaterTransitive(db: Tables, a: Tx, b: Tx, c: Tx)
    requires Later(db, a, b) && Later(db, b, c)
    ensures Later(db, a, c)
  {
    Earlier(db, c.prog, c.ids, c.now, |b.ids|, |c.ids|);
    SameIds(db, c.prog, b.ids, c.ids, c.now, |b.ids|);
    var m, n := |a.ids|, |b.ids|;
    var rows, rows' := Alone(db, b).value.rows, Alone(db, c).value.rows;
    forall k | m <= k < |c.ids|
      ensures c.work.rows[k] == rows'[k]
    {
      if k < n {
        assert c.work.rows[k] == b.work.rows[k] == b.work.rows[m..][k - m] == rows[m..][k - m] == rows[k];
      } else {
        assert c.work.rows[k] == c.work.rows[n..][k - n] == rows'[n..][k - n];
      }
    }
  }

  lemma {:induction false} SameIds(db: Tables, prog: seq<Op>, ids: seq<int>, ids': seq<int>, now: int, n: nat)
    requires n <= |prog| && n <= |ids| && ids <= ids'
    ensures RunAlone(db, prog, ids', now, n) == RunAlone(db, prog, ids, now, n)
  {
    if n > 0 {
      SameIds(db, prog, ids, ids', now, n - 1);
    }
  }

  /** Everything but the progress and the locks of `tid`, and the sequences, is as before. */
  ghost predicate OnlyMoved(s: State, s': State, tid: nat)
    requires tid < |s.txs|
  {
    && s'.keyMode == s.keyMode && s'.users == s.users && s'.db == s.db && s'.log == s.log
    && |s'.txs| == |s.txs| && s'.txs == s.txs[tid := s'.txs[tid]]
  }

  /** An undisturbed transaction takes its steps up to number `n`. */
  lemma {:induction false} TakesSteps(s: State, tid: nat, n: nat) returns (run: seq<Action>)
    requires Undisturbed(s, tid, n)
    ensures ValidRun(s, run) && forall i | 0 <= i < |run| :: run[i] == Exec(tid)
    ensures var s' := Final(s, run);
            && OnlyMoved(s, s', tid) && Undisturbed(s', tid, n)
            && |s'.txs[tid].ids| == n && Later(s.db, s.txs[tid], s'.txs[tid])
    decreases n - |s.txs[tid].ids|
  {
    if |s.txs[tid].ids| == n {
      run := [];
      PassesPrefix(s.db, s.txs[tid].prog, n, s.txs[tid].ids, s.txs[tid].now, n);
    } else {
      UndisturbedStep(s, tid, n);
      var s1 := Apply(s, Exec(tid));
      var rest := TakesSteps(s1, tid, n);
      run := [Exec(tid)] + rest;
      assert run[1..] == rest;
      LaterTransitive(s.db, s.txs[tid], s1.txs[tid], Final(s1, rest).txs[tid]);
    }
  }

  /** And then commits what it commits alone. */
  lemma RunsToCommit(s: State, tid: nat) returns (run: seq<Action>, tx: Tx)
    requires IsRunning(s, tid) && Undisturbed(s, tid, |s.txs[tid].prog|)
    ensures ValidRun(s, run) && forall i | 0 <= i < |run| :: run[i] == Exec(tid) || run[i] == Commit(tid)
    ensures Later(s.db, s.txs[tid], tx) && |tx.ids| == |tx.prog|
    ensures var s' := Final(s, run);
            && s'.db == Merge(s.db, Alone(s.db, tx).value.writes)
            && s'.log == s.log + [Applied(tid, tx.(status := Committed))]
            && s'.txs == s.txs[tid := tx.(status := Committed)]
            && s'.locks == {} && s'.keyMode == s.keyMode
  {
    var steps := TakesSteps(s, tid, |s.txs[tid].prog|);
    var end := Final(s, steps);
    tx := end.txs[tid];
    RunOne(s, steps, Commit(tid));
    run := steps + [Commit(tid)];
    assert Release(end.locks, tid) == {};
  }
}
