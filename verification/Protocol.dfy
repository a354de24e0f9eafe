// Any number of transactions interleaved statement by statement under Read Committed, with row locks held to the end.
module Protocol {
  import opened Wrappers
  import opened Integers
  import opened Bank

  /** The row-level lock modes of PostgreSQL (PostgreSQL 17 documentation, section 13.3.2). */
  datatype LockMode = KeyShare | Share | NoKeyUpdate | Update

  predicate Conflicts(a: LockMode, b: LockMode) {
    match a
    case KeyShare => b.Update?
    case Share => b.NoKeyUpdate? || b.Update?
    case NoKeyUpdate => !b.KeyShare?
    case Update => true
  }

  datatype Lock = Lock(holder: nat, account: int, mode: LockMode)

  datatype Need = Need(account: int, mode: LockMode)

  /** The row lock a step has to get first. `keyMode` is the mode foreign-key checks ask for. */
  function LockNeeded(keyMode: LockMode, op: Op): Option<Need> {
    match op
    case CheckKey(account) => Some(Need(account, keyMode))
    case AddBalance(account, _) => Some(Need(account, NoKeyUpdate))
    case LockAccount(account) => Some(Need(account, NoKeyUpdate))
    case _ => None
  }

  datatype Status = Running | Committed | RolledBack

  /** A transaction: its body, its start time, and the private progress it has made. `|ids|` counts the steps taken;
      `ids[k]` is the sequence value drawn by step `k`. */
  datatype Tx = Tx(prog: seq<Op>, now: int, status: Status, ids: seq<int>, work: Work)

  /** What has been committed, in commit order. */
  datatype Event = Opened(account: Account) | Applied(tid: nat, tx: Tx)

  datatype State = State(
    keyMode: LockMode, users: set<string>, db: Tables, txs: seq<Tx>, locks: set<Lock>,
    accountBound: nat, nextTransfer: nat, nextEntry: nat, log: seq<Event>)

  datatype Action =
    | AddUser(name: string)
    | OpenAccount(account: Account)
    | Begin(prog: seq<Op>, now: int)
    | Exec(tid: nat)
    | Fail(tid: nat)
    | Fault(tid: nat)
    | Commit(tid: nat)

  // ----- one step

  predicate IsRunning(s: State, tid: nat) {
    tid < |s.txs| && s.txs[tid].status.Running?
  }

  /** `tid` is running and has a statement left to send. */
  predicate HasNext(s: State, tid: nat) {
    IsRunning(s, tid) && |s.txs[tid].ids| < |s.txs[tid].prog|
  }

  function NextOp(s: State, tid: nat): Op
    requires HasNext(s, tid)
  {
    s.txs[tid].prog[|s.txs[tid].ids|]
  }

  /** The transaction `u` holds a lock that keeps `tid` from taking its next step. */
  ghost predicate WaitsFor(s: State, tid: nat, u: nat) {
    && HasNext(s, tid)
    && u != tid
    && var need := LockNeeded(s.keyMode, NextOp(s, tid));
       && need.Some?
       && exists m :: Lock(u, need.value.account, m) in s.locks && Conflicts(need.value.mode, m)
  }

  ghost predicate Blocked(s: State, tid: nat) {
    exists u :: WaitsFor(s, tid, u)
  }

  function DrawnId(s: State, op: Op): int {
    match op
    case InsertTransfer(_, _, _) => s.nextTransfer
    case InsertEntry(_, _) => s.nextEntry
    case _ => 0
  }

  /** The next statement runs against the tables as committed at this moment, plus the transaction's own writes. */
  function Outcome(s: State, tid: nat): Result<Work, DbError>
    requires HasNext(s, tid)
  {
    var tx := s.txs[tid];
    ExecOp(s.db, tx.work, NextOp(s, tid), DrawnId(s, NextOp(s, tid)), tx.now)
  }

  ghost predicate Enabled(s: State, a: Action) {
    match a
    case AddUser(name) => name !in s.users
    case OpenAccount(account) =>
      && account.owner in s.users
      && account.id >= 1 && account.id !in s.db.accounts
      && InInt64(account.balance)
      && forall id :: id in s.db.accounts ==>
           s.db.accounts[id].owner != account.owner || s.db.accounts[id].currency != account.currency
    case Begin(prog, now) => true
    case Exec(tid) => HasNext(s, tid) && !Blocked(s, tid) && Outcome(s, tid).Ok?
    case Fail(tid) => HasNext(s, tid) && !Blocked(s, tid) && Outcome(s, tid).Err?
    case Fault(tid) => IsRunning(s, tid)
    case Commit(tid) => IsRunning(s, tid) && !HasNext(s, tid)
  }

  function Release(locks: set<Lock>, tid: nat): set<Lock> {
    set l | l in locks && l.holder != tid
  }

  /** The locks after `tid` has got the one its next step needs; locks are re-entrant. */
  function Acquire(locks: set<Lock>, tid: nat, need: Option<Need>): set<Lock> {
    match need
    case None => locks
    case Some(n) => locks + {Lock(tid, n.account, n.mode)}
  }

  function Finish(s: State, tid: nat, status: Status): State
    requires IsRunning(s, tid)
  {
    s.(txs := s.txs[tid := s.txs[tid].(status := status)], locks := Release(s.locks, tid))
  }

  /** A bound above one more account id; ids are unique but need not be committed in order. */
  function Above(bound: nat, id: int): nat {
    if id < bound then bound else id + 1
  }

  ghost function Apply(s: State, a: Action): State
    requires Enabled(s, a)
  {
    match a
    case AddUser(name) => s.(users := s.users + {name})
    case OpenAccount(account) =>
      s.(db := s.db.(accounts := s.db.accounts[account.id := account]),
         accountBound := Above(s.accountBound, account.id),
         log := s.log + [Opened(account)])
    case Begin(prog, now) => s.(txs := s.txs + [Tx(prog, now, Running, [], NO_WORK)])
    case Exec(tid) =>
      var tx, op := s.txs[tid], NextOp(s, tid);
      s.(txs := s.txs[tid := tx.(ids := tx.ids + [DrawnId(s, op)], work := Outcome(s, tid).value)],
         locks := Acquire(s.locks, tid, LockNeeded(s.keyMode, op)),
         nextTransfer := s.nextTransfer + (if op.InsertTransfer? then 1 else 0),
         nextEntry := s.nextEntry + (if op.InsertEntry? then 1 else 0))
    case Fail(tid) => Finish(s, tid, RolledBack)
    case Fault(tid) => Finish(s, tid, RolledBack)
    case Commit(tid) =>
      Finish(s, tid, Committed).(db := Merge(s.db, s.txs[tid].work.writes),
                                 log := s.log + [Applied(tid, s.txs[tid].(status := Committed))])
  }

  // ----- runs

  ghost predicate Initial(s: State) {
    && s.txs == [] && s.locks == {} && s.log == []
    && forall id :: id in s.db.accounts ==> id < s.accountBound
  }

  ghost predicate ValidRun(s: State, run: seq<Action>)
    decreases |run|
  {
    run == [] || (Enabled(s, run[0]) && ValidRun(Apply(s, run[0]), run[1..]))
  }

  ghost function Final(s: State, run: seq<Action>): State
    requires ValidRun(s, run)
    decreases |run|
  {
    if run == [] then s else Final(Apply(s, run[0]), run[1..])
  }

  // ----- the serial history

  /** Running one committed event on its own, from start to end. */
  ghost function ApplyEvent(db: Tables, e: Event): Tables {
    match e
    case Opened(account) => db.(accounts := db.accounts[account.id := account])
    case Applied(_, tx) =>
      if |tx.ids| == |tx.prog| && RunAlone(db, tx.prog, tx.ids, tx.now, |tx.prog|).Ok? then
        Merge(db, RunAlone(db, tx.prog, tx.ids, tx.now, |tx.prog|).value.writes)
      else
        db
  }

  /** The committed events one at a time, in commit order. */
  ghost function Replay(db: Tables, log: seq<Event>): Tables {
    if log == [] then db else ApplyEvent(Replay(db, log[..|log| - 1]), log[|log| - 1])
  }

  /** Run on its own at position `i` of the history, a transaction writes what it wrote and returns the very rows it
      returned, those of plain SELECTs of accounts it had not claimed aside. */
  ghost predicate SerialAt(db: Tables, log: seq<Event>, i: nat)
    requires i < |log| && log[i].Applied?
  {
    var tx := log[i].tx;
    && |tx.ids| == |tx.prog|
    && var r := RunAlone(Replay(db, log[..i]), tx.prog, tx.ids, tx.now, |tx.prog|);
       r.Ok? && SameWork(tx.prog, tx.work, r.value)
  }

  // ----- the invariant

  /** A running transaction has done so far what it would have done alone on the tables as they are now; only a loose
      SELECT may have returned a row that has changed since. */
  ghost predicate AsIfAlone(s: State, tid: nat)
    requires tid < |s.txs|
  {
    var tx := s.txs[tid];
    && |tx.ids| <= |tx.prog|
    && (tx.status.Running? ==>
          var r := RunAlone(s.db, tx.prog, tx.ids, tx.now, |tx.ids|);
          r.Ok? && SameWork(tx.prog, tx.work, r.value))
  }

  /** A running transaction holds the lock of every step it has taken. */
  ghost predicate HoldsItsLocks(s: State, tid: nat)
    requires tid < |s.txs|
  {
    var tx := s.txs[tid];
    tx.status.Running? ==>
      forall k :: 0 <= k < |tx.ids| && k < |tx.prog| && LockNeeded(s.keyMode, tx.prog[k]).Some? ==>
        Lock(tid, LockNeeded(s.keyMode, tx.prog[k]).value.account, LockNeeded(s.keyMode, tx.prog[k]).value.mode)
          in s.locks
  }

  /** A lock is held by a running transaction, for a step it has taken. */
  ghost predicate Justified(s: State, l: Lock) {
    && IsRunning(s, l.holder)
    && exists k :: 0 <= k < |s.txs[l.holder].ids| && k < |s.txs[l.holder].prog| &&
         LockNeeded(s.keyMode, s.txs[l.holder].prog[k]) == Some(Need(l.account, l.mode))
  }

  /** Two transactions never hold conflicting locks on one row. */
  ghost predicate Exclusive(locks: set<Lock>) {
    forall l, l' | l in locks && l' in locks && l.account == l'.account && l.holder != l'.holder ::
      !Conflicts(l.mode, l'.mode)
  }

  ghost predicate LocksOk(s: State) {
    && (forall l :: l in s.locks ==> Justified(s, l))
    && Exclusive(s.locks)
  }

  ghost predicate TxsOk(s: State) {
    && (forall tid: nat :: tid < |s.txs| ==> AsIfAlone(s, tid))
    && (forall tid: nat :: tid < |s.txs| ==> HoldsItsLocks(s, tid))
    && (forall id :: id in s.db.accounts ==> id < s.accountBound)
  }

  /** Entry `i` of the history is the transaction it names, and is true. */
  ghost predicate EntryOk(db: Tables, s: State, i: nat)
    requires i < |s.log| && s.log[i].Applied?
  {
    && SerialAt(db, s.log, i) && s.log[i].tid < |s.txs| && s.txs[s.log[i].tid] == s.log[i].tx
    && s.log[i].tx.status.Committed?
  }

  /** No transaction is in the history twice, and every committed one is. */
  ghost predicate OnceInLog(s: State) {
    && (forall i, j :: 0 <= i < j < |s.log| && s.log[i].Applied? && s.log[j].Applied? ==> s.log[i].tid != s.log[j].tid)
    && (forall tid: nat :: tid < |s.txs| && s.txs[tid].status.Committed? ==> Applied(tid, s.txs[tid]) in s.log)
  }

  ghost predicate LogOk(db: Tables, s: State) {
    && s.db == Replay(db, s.log)
    && (forall i: nat :: i < |s.log| && s.log[i].Applied? ==> EntryOk(db, s, i))
    && OnceInLog(s)
  }

  ghost predicate Inv(db: Tables, s: State) {
    LocksOk(s) && TxsOk(s) && LogOk(db, s)
  }

  // ----- locks

  lemma LocksStep(s: State, a: Action)
    requires LocksOk(s) && TxsOk(s) && Enabled(s, a)
    ensures LocksOk(Apply(s, a))
  {
    var s' := Apply(s, a);
    forall l | l in s'.locks
      ensures Justified(s', l)
    {
      if l in s.locks {
        var k :| 0 <= k < |s.txs[l.holder].ids| && k < |s.txs[l.holder].prog| &&
          LockNeeded(s.keyMode, s.txs[l.holder].prog[k]) == Some(Need(l.account, l.mode));
        assert LockNeeded(s'.keyMode, s'.txs[l.holder].prog[k]) == Some(Need(l.account, l.mode));
      } else {
        assert a.Exec?;
        var k := |s.txs[a.tid].ids|;
        assert LockNeeded(s'.keyMode, s'.txs[l.holder].prog[k]) == Some(Need(l.account, l.mode));
      }
    }
    if a.Exec? {
      ExclusiveStep(s, a.tid);
    }
  }

  /** How strong a lock is. */
  function Strength(mode: LockMode): nat {
    match mode
    case KeyShare => 0
    case Share => 1
    case NoKeyUpdate => 2
    case Update => 3
  }

  /** The conflict table in one line: two locks conflict when their strengths add up to that of FOR UPDATE. */
  lemma ConflictsByStrength(a: LockMode, b: LockMode)
    ensures Conflicts(a, b) <==> Strength(a) + Strength(b) >= 3
  {
  }

  lemma ConflictsIsSymmetric(a: LockMode, b: LockMode)
    ensures Conflicts(a, b) == Conflicts(b, a)
  {
  }

  lemma ExclusiveStep(s: State, tid: nat)
    requires LocksOk(s) && Enabled(s, Exec(tid))
    ensures Exclusive(Apply(s, Exec(tid)).locks)
  {
    var s' := Apply(s, Exec(tid));
    forall l, l' | l in s'.locks && l' in s'.locks && l.account == l'.account && l.holder != l'.holder
      ensures !Conflicts(l.mode, l'.mode)
    {
      ConflictsIsSymmetric(l.mode, l'.mode);
      if l !in s.locks {
        assert !WaitsFor(s, tid, l'.holder);
        assert Lock(l'.holder, l'.account, l'.mode) in s.locks;
      } else if l' !in s.locks {
        assert !WaitsFor(s, tid, l.holder);
        assert Lock(l.holder, l.account, l.mode) in s.locks;
      }
    }
  }

  // ----- private progress survives everybody else's steps

  /** A running transaction holds the update lock of every account it has written. */
  lemma WritesAreLocked(s: State, u: nat)
    requires TxsOk(s) && IsRunning(s, u)
    ensures forall a :: a in s.txs[u].work.writes.accounts ==> Lock(u, a, NoKeyUpdate) in s.locks
  {
    var v := s.txs[u];
    assert AsIfAlone(s, u) && HoldsItsLocks(s, u);
    RunWrites(s.db, v.prog, v.ids, v.now, |v.ids|);
    forall a | a in v.work.writes.accounts
      ensures Lock(u, a, NoKeyUpdate) in s.locks
    {
      assert Adds(v.prog, |v.ids|, a);
      var j :| 0 <= j < |v.ids| && v.prog[j].AddBalance? && v.prog[j].account == a;
      assert LockNeeded(s.keyMode, v.prog[j]) == Some(Need(a, NoKeyUpdate));
    }
  }

  /** While `tid` runs, no other transaction has updated an account that `tid` has updated or locked. */
  lemma NoCommonUpdate(s: State, tid: nat, u: nat)
    requires LocksOk(s) && TxsOk(s) && IsRunning(s, tid) && IsRunning(s, u) && tid != u
    ensures forall k :: 0 <= k < |s.txs[tid].ids| && k < |s.txs[tid].prog| && Claims(s.txs[tid].prog[k]) ==>
              s.txs[tid].prog[k].account !in s.txs[u].work.writes.accounts
  {
    var t := s.txs[tid];
    assert AsIfAlone(s, tid) && HoldsItsLocks(s, tid);
    WritesAreLocked(s, u);
    forall k | 0 <= k < |t.ids| && Claims(t.prog[k])
      ensures Lock(tid, t.prog[k].account, NoKeyUpdate) in s.locks
    {
      assert LockNeeded(s.keyMode, t.prog[k]) == Some(Need(t.prog[k].account, NoKeyUpdate));
    }
  }

  lemma StaysAlone(db: Tables, db': Tables, t: Tx)
    requires |t.ids| <= |t.prog| && Agree(db, db', t.prog, |t.ids|)
    requires var r := RunAlone(db, t.prog, t.ids, t.now, |t.ids|); r.Ok? && SameWork(t.prog, t.work, r.value)
    ensures var r := RunAlone(db', t.prog, t.ids, t.now, |t.ids|); r.Ok? && SameWork(t.prog, t.work, r.value)
  {
    RunFrame(db, db', t.prog, t.ids, t.now, |t.ids|);
    SameWorkTransitive(t.prog, t.work, RunAlone(db, t.prog, t.ids, t.now, |t.ids|).value,
                       RunAlone(db', t.prog, t.ids, t.now, |t.ids|).value);
  }

  lemma CommitKeepsAlone(s: State, u: nat, tid: nat)
    requires LocksOk(s) && TxsOk(s) && Enabled(s, Commit(u)) && IsRunning(s, tid) && tid != u
    ensures AsIfAlone(Apply(s, Commit(u)), tid)
  {
    var t := s.txs[tid];
    var db' := Merge(s.db, s.txs[u].work.writes);
    assert AsIfAlone(s, tid);
    NoCommonUpdate(s, tid, u);
    StaysAlone(s.db, db', t);
  }

  lemma OpenKeepsAlone(s: State, account: Account, tid: nat)
    requires TxsOk(s) && Enabled(s, OpenAccount(account)) && IsRunning(s, tid)
    ensures AsIfAlone(Apply(s, OpenAccount(account)), tid)
  {
    var t := s.txs[tid];
    var db' := Apply(s, OpenAccount(account)).db;
    assert AsIfAlone(s, tid);
    StaysAlone(s.db, db', t);
  }

  lemma ExecKeepsAlone(s: State, tid: nat)
    requires TxsOk(s) && Enabled(s, Exec(tid))
    ensures AsIfAlone(Apply(s, Exec(tid)), tid)
  {
    var t := s.txs[tid];
    assert AsIfAlone(s, tid);
    RunStep(s.db, t.prog, t.ids, DrawnId(s, NextOp(s, tid)), t.now, t.work);
  }

  lemma AloneStep(s: State, a: Action, tid: nat)
    requires LocksOk(s) && TxsOk(s) && Enabled(s, a) && tid < |Apply(s, a).txs|
    ensures AsIfAlone(Apply(s, a), tid)
  {
    if tid < |s.txs| {
      assert AsIfAlone(s, tid);
      match a {
        case OpenAccount(account) => if IsRunning(s, tid) { OpenKeepsAlone(s, account, tid); }
        case Exec(u) => if u == tid { ExecKeepsAlone(s, tid); }
        case Commit(u) => if u != tid && IsRunning(s, tid) { CommitKeepsAlone(s, u, tid); }
        case _ =>
      }
    }
  }

  lemma HoldsStep(s: State, a: Action, tid: nat)
    requires TxsOk(s) && Enabled(s, a) && tid < |Apply(s, a).txs|
    ensures HoldsItsLocks(Apply(s, a), tid)
  {
    if tid < |s.txs| {
      assert HoldsItsLocks(s, tid);
    }
  }

  lemma BoundStep(s: State, a: Action)
    requires TxsOk(s) && Enabled(s, a)
    ensures forall id :: id in Apply(s, a).db.accounts ==> id < Apply(s, a).accountBound
  {
    if a.Commit? {
      var v := s.txs[a.tid];
      assert AsIfAlone(s, a.tid);
      RunWrites(s.db, v.prog, v.ids, v.now, |v.ids|);
    }
  }

  lemma TxsStep(s: State, a: Action)
    requires LocksOk(s) && TxsOk(s) && Enabled(s, a)
    ensures TxsOk(Apply(s, a))
  {
    forall tid: nat | tid < |Apply(s, a).txs|
      ensures AsIfAlone(Apply(s, a), tid) && HoldsItsLocks(Apply(s, a), tid)
    {
      AloneStep(s, a, tid);
      HoldsStep(s, a, tid);
    }
    BoundStep(s, a);
  }

  // ----- the history

  lemma LogGrows(db: Tables, log: seq<Event>, e: Event)
    ensures Replay(db, log + [e]) == ApplyEvent(Replay(db, log), e)
    ensures forall i: nat :: i < |log| && log[i].Applied? ==> SerialAt(db, log + [e], i) == SerialAt(db, log, i)
  {
    assert (log + [e])[..|log|] == log;
    forall i: nat | i < |log| && log[i].Applied?
      ensures SerialAt(db, log + [e], i) == SerialAt(db, log, i)
    {
      assert (log + [e])[..i] == log[..i];
    }
  }

  lemma LogStep(db: Tables, s: State, a: Action)
    requires Inv(db, s) && Enabled(s, a)
    ensures LogOk(db, Apply(s, a))
  {
    match a {
      case OpenAccount(account) => OpenLog(db, s, account);
      case Commit(tid) => CommitLog(db, s, tid);
      case Begin(_, _) => SameLog(db, s, Apply(s, a));
      case AddUser(_) => SameLog(db, s, Apply(s, a));
      case Exec(_) => SameLog(db, s, Apply(s, a));
      case Fail(_) => SameLog(db, s, Apply(s, a));
      case Fault(_) => SameLog(db, s, Apply(s, a));
    }
  }

  lemma OpenLog(db: Tables, s: State, account: Account)
    requires LogOk(db, s) && Enabled(s, OpenAccount(account))
    ensures LogOk(db, Apply(s, OpenAccount(account)))
  {
    AppendOpened(db, s, Apply(s, OpenAccount(account)), account);
  }

  /** Opening an account extends the history. */
  lemma AppendOpened(db: Tables, s: State, s': State, account: Account)
    requires LogOk(db, s) && s'.txs == s.txs && s'.log == s.log + [Opened(account)]
    requires s'.db == ApplyEvent(s.db, Opened(account))
    ensures LogOk(db, s')
  {
    LogGrows(db, s.log, Opened(account));
    forall i: nat | i < |s'.log| && s'.log[i].Applied?
      ensures EntryOk(db, s', i)
    {
      assert EntryOk(db, s, i);
    }
    OpenedOnce(s, s', account);
  }

  lemma OpenedOnce(s: State, s': State, account: Account)
    requires OnceInLog(s) && s'.txs == s.txs && s'.log == s.log + [Opened(account)]
    ensures OnceInLog(s')
  {
  }

  /** A step that commits nothing leaves the history true. */
  lemma SameLog(db: Tables, s: State, s': State)
    requires LogOk(db, s) && s'.log == s.log && s'.db == s.db && |s'.txs| >= |s.txs|
    requires forall tid: nat :: tid < |s.txs| && s.txs[tid].status.Committed? ==> s'.txs[tid] == s.txs[tid]
    requires forall tid: nat :: tid < |s'.txs| && s'.txs[tid].status.Committed? ==>
               tid < |s.txs| && s.txs[tid].status.Committed?
    ensures LogOk(db, s')
  {
  }

  lemma CommitLog(db: Tables, s: State, tid: nat)
    requires Inv(db, s) && Enabled(s, Commit(tid))
    ensures LogOk(db, Apply(s, Commit(tid)))
  {
    assert AsIfAlone(s, tid);
    AppendLog(db, s, Apply(s, Commit(tid)), tid, s.txs[tid].(status := Committed));
  }

  /** A transaction that has run to the end as if alone extends the history. */
  lemma AppendLog(db: Tables, s: State, s': State, tid: nat, tx: Tx)
    requires LogOk(db, s) && IsRunning(s, tid) && tx.status.Committed?
    requires |tx.ids| == |tx.prog|
    requires var r := RunAlone(s.db, tx.prog, tx.ids, tx.now, |tx.prog|); r.Ok? && SameWork(tx.prog, tx.work, r.value)
    requires s'.txs == s.txs[tid := tx] && s'.log == s.log + [Applied(tid, tx)] && s'.db == Merge(s.db, tx.work.writes)
    ensures LogOk(db, s')
  {
    LogGrows(db, s.log, Applied(tid, tx));
    forall i: nat | i < |s'.log| && s'.log[i].Applied?
      ensures EntryOk(db, s', i) && (i < |s.log| ==> s'.log[i].tid != tid)
    {
      if i < |s.log| {
        assert EntryOk(db, s, i);
      } else {
        assert s'.log[..i] == s.log;
      }
    }
    AppendedOnce(s, s', tid, tx);
  }

  lemma AppendedOnce(s: State, s': State, tid: nat, tx: Tx)
    requires OnceInLog(s) && tid < |s.txs| && s'.txs == s.txs[tid := tx] && s'.log == s.log + [Applied(tid, tx)]
    requires forall i | 0 <= i < |s.log| && s.log[i].Applied? :: s.log[i].tid != tid
    ensures OnceInLog(s')
  {
    assert s'.log[|s.log|] == Applied(tid, tx);
  }

  lemma InvStep(db: Tables, s: State, a: Action)
    requires Inv(db, s) && Enabled(s, a)
    ensures Inv(db, Apply(s, a))
  {
    LocksStep(s, a);
    TxsStep(s, a);
    LogStep(db, s, a);
  }

  lemma {:induction false} InvRun(db: Tables, s: State, run: seq<Action>)
    requires Inv(db, s) && ValidRun(s, run)
    ensures Inv(db, Final(s, run))
    decreases |run|
  {
    if run != [] {
      InvStep(db, s, run[0]);
      InvRun(db, Apply(s, run[0]), run[1..]);
    }
  }

  lemma ReachableInv(s: State, run: seq<Action>)
    requires Initial(s) && ValidRun(s, run)
    ensures Inv(s.db, Final(s, run))
  {
    InvRun(s.db, s, run);
  }

  // ----- main results

  /** Every interleaving of any number of transactions with any bodies commits exactly the tables that the committed
      ones produce one at a time in commit order, and every statement returned the row it returns there, except a plain
      SELECT of an account that the body had not updated or locked before; no more could be said, by
      PlainReads.SerialRowIff. */
  lemma SerialEquivalence(s: State, run: seq<Action>)
    requires Initial(s) && ValidRun(s, run)
    ensures var end := Final(s, run);
            && end.db == Replay(s.db, end.log)
            && (forall tid: nat :: tid < |end.txs| && end.txs[tid].status.Committed? ==>
                  Applied(tid, end.txs[tid]) in end.log)
            && (forall i :: 0 <= i < |end.log| && end.log[i].Applied? ==>
                  SerialAt(s.db, end.log, i) && end.log[i].tid < |end.txs| && end.txs[end.log[i].tid] == end.log[i].tx)
            && (forall i, j :: 0 <= i < j < |end.log| && end.log[i].Applied? && end.log[j].Applied? ==>
                  end.log[i].tid != end.log[j].tid)
  {
    ReachableInv(s, run);
  }

  /** One step commits nothing, or one whole event. */
  lemma CommitsWhole(db: Tables, s: State, a: Action)
    requires Inv(db, s) && Enabled(s, a)
    ensures var s' := Apply(s, a);
            || (s'.log == s.log && s'.db == s.db)
            || exists e :: s'.log == s.log + [e] && s'.db == ApplyEvent(s.db, e)
  {
    match a {
      case OpenAccount(account) =>
        assert Apply(s, a).log == s.log + [Opened(account)];
      case Commit(tid) =>
        assert AsIfAlone(s, tid);
        var e := Applied(tid, s.txs[tid].(status := Committed));
        assert Apply(s, a).log == s.log + [e] && Apply(s, a).db == ApplyEvent(s.db, e);
      case _ =>
    }
  }

  /** Whatever the body and wherever it stops: a transaction that is rolled back is not in the history, a finished one
      holds no lock, and the committed tables change only by a whole event at a time. */
  lemma Atomicity(s: State, run: seq<Action>, a: Action)
    requires Initial(s) && ValidRun(s, run) && Enabled(Final(s, run), a)
    ensures var before, after := Final(s, run), Apply(Final(s, run), a);
            || (after.log == before.log && after.db == before.db)
            || exists e :: after.log == before.log + [e] && after.db == ApplyEvent(before.db, e)
    ensures var after := Apply(Final(s, run), a);
            && (forall tid: nat, tx :: tid < |after.txs| && !after.txs[tid].status.Committed? ==>
                  Applied(tid, tx) !in after.log)
            && (forall l :: l in after.locks ==> IsRunning(after, l.holder))
  {
    ReachableInv(s, run);
    var before := Final(s, run);
    CommitsWhole(s.db, before, a);
    InvStep(s.db, before, a);
    OnlyCommittedShows(s.db, Apply(before, a));
  }

  /** A running transaction can be rolled back at any point, and then nothing but the sequence values it drew shows that
      it ever ran. */
  lemma RollbackAnytime(s: State, tid: nat)
    ensures Enabled(s, Fault(tid)) <==> tid < |s.txs| && s.txs[tid].status.Running?
    ensures Enabled(s, Fault(tid)) ==>
              var s' := Apply(s, Fault(tid));
              && s'.db == s.db && s'.log == s.log && s'.users == s.users
              && s'.nextTransfer == s.nextTransfer && s'.nextEntry == s.nextEntry
              && s'.txs == s.txs[tid := s.txs[tid].(status := RolledBack)]
              && (forall l :: l in s'.locks <==> l in s.locks && l.holder != tid)
  {
  }

  lemma OnlyCommittedShows(db: Tables, s: State)
    requires LocksOk(s) && LogOk(db, s)
    ensures forall tid: nat, tx :: tid < |s.txs| && !s.txs[tid].status.Committed? ==> Applied(tid, tx) !in s.log
    ensures forall l :: l in s.locks ==> IsRunning(s, l.holder)
  {
    forall l | l in s.locks
      ensures IsRunning(s, l.holder)
    {
      assert Justified(s, l);
    }
  }
}
