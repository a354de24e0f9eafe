// No handler checks that the money is there: when balances stay at or above zero, and the run in which they do not.
module Overdraft {
  import opened Wrappers
  import opened Integers
  import opened Bank
  import opened Transfers
  import opened Protocol
  import opened Deadlock
  import opened Solo
  import opened Ledger
  import opened Api

  ghost predicate NonNegative(s: State) {
    forall id | id in s.db.accounts :: s.db.accounts[id].balance >= 0
  }

  ghost predicate AllZero(s: State) {
    forall id | id in s.db.accounts :: s.db.accounts[id].balance == 0
  }

  // ----- observable states

  /** Accounts open empty, nobody deposits, and each currency totals zero, so somebody is overdrawn as soon as anybody
      has money. */
  lemma NonNegativeIffZero(calls: seq<Call>)
    requires ValidCalls(Fresh(), calls)
    ensures NonNegative(After(Fresh(), calls).core) <==> AllZero(After(Fresh(), calls).core)
  {
    Reachable(calls);
    ZeroTotals(After(Fresh(), calls).core);
  }

  lemma ZeroTotals(s: State)
    requires AccountsOk(s) && TotalsZero(s)
    ensures NonNegative(s) <==> AllZero(s)
  {
    if NonNegative(s) {
      forall id | id in s.db.accounts
        ensures s.db.accounts[id].balance == 0
      {
        TotalBounds(s.db.accounts, s.db.accounts[id].currency, s.accountBound);
      }
    }
  }

  // ----- one commit

  /** At this moment a transfer to another account finds its amount on the balance. Only the transaction itself could
      check this at its commit; see CheckedFundsRunOut for a handler that checks beforehand. */
  ghost predicate Funded(server: Server, tid: nat)
    requires tid < |server.origin|
  {
    var req := server.origin[tid];
    req.from in server.core.db.accounts &&
    (req.from == req.to || server.core.db.accounts[req.from].balance >= req.amount)
  }

  /** Committing a transfer to another account leaves its source at or above zero exactly when the amount was there. */
  lemma OverdraftIff(server: Server, tid: nat)
    requires ServerOk(server) && CallEnabled(server, Inside(Commit(tid)))
    ensures tid < |server.origin|
    ensures var req := server.origin[tid];
            var before, after := server.core.db.accounts, Serve(server, Inside(Commit(tid))).core.db.accounts;
            && after.Keys == before.Keys && req.from in before && req.to in before
            && (forall id | id in before ::
                  after[id].balance == before[id].balance
                    - (if id == req.from then req.amount else 0) + (if id == req.to then req.amount else 0))
            && (req.from != req.to ==> (after[req.from].balance >= 0 <==> before[req.from].balance >= req.amount))
  {
    var stamp := CommitIsTransfer(server, tid);
  }

  lemma CommitNonNegative(server: Server, tid: nat)
    requires ServerOk(server) && NonNegative(server.core) && CallEnabled(server, Inside(Commit(tid)))
    ensures tid < |server.origin|
    ensures NonNegative(Serve(server, Inside(Commit(tid))).core) <==> Funded(server, tid)
    ensures Funded(server, tid) <==> server.origin[tid].from == server.origin[tid].to
  {
    OverdraftIff(server, tid);
    ZeroTotals(server.core);
    var req := server.origin[tid];
    var after := Serve(server, Inside(Commit(tid))).core.db.accounts;
    assert Authorized(server.core.db.accounts, req);
    assert req.from in after && after[req.from].balance >= 0 ==> Funded(server, tid);
  }

  lemma OthersKeepNonNegative(server: Server, c: Call)
    requires CallEnabled(server, c) && !(c.Inside? && c.a.Commit?)
    ensures NonNegative(Serve(server, c).core) <==> NonNegative(server.core)
  {
    var db, db' := server.core.db.accounts, Serve(server, c).core.db.accounts;
    assert forall id | id in db :: id in db' && db'[id] == db[id];
    assert forall id | id in db' && id !in db :: db'[id].balance == 0;
  }

  // ----- whole runs

  ghost predicate AlwaysNonNegative(server: Server, calls: seq<Call>)
    requires ValidCalls(server, calls)
    decreases |calls|
  {
    NonNegative(server.core) && (calls != [] ==> AlwaysNonNegative(Serve(server, calls[0]), calls[1..]))
  }

  ghost predicate AllFunded(server: Server, calls: seq<Call>)
    requires ValidCalls(server, calls)
    decreases |calls|
  {
    calls != [] ==>
      && (calls[0].Inside? && calls[0].a.Commit? ==>
            calls[0].a.tid < |server.origin| && Funded(server, calls[0].a.tid))
      && AllFunded(Serve(server, calls[0]), calls[1..])
  }

  /** Every transfer that commits is from an account to itself. */
  ghost predicate SelfTransfersOnly(server: Server, calls: seq<Call>)
    requires ValidCalls(server, calls)
    decreases |calls|
  {
    calls != [] ==>
      && (calls[0].Inside? && calls[0].a.Commit? ==>
            calls[0].a.tid < |server.origin| &&
            server.origin[calls[0].a.tid].from == server.origin[calls[0].a.tid].to)
      && SelfTransfersOnly(Serve(server, calls[0]), calls[1..])
  }

  lemma {:induction false} NonNegativeRun(server: Server, calls: seq<Call>)
    requires ServerOk(server) && NonNegative(server.core) && ValidCalls(server, calls)
    ensures AlwaysNonNegative(server, calls) <==> AllFunded(server, calls)
    ensures AlwaysNonNegative(server, calls) <==> SelfTransfersOnly(server, calls)
    decreases |calls|
  {
    if calls != [] {
      var c := calls[0];
      var next := Serve(server, c);
      if c.Inside? && c.a.Commit? {
        CommitNonNegative(server, c.a.tid);
      } else {
        OthersKeepNonNegative(server, c);
      }
      ServeKeeps(server, c);
      if NonNegative(next.core) {
        NonNegativeRun(next, calls[1..]);
      }
    }
  }

  /** A run of the API never shows a negative balance exactly when every transfer that commits finds its amount on the
      balance, and then every one of them is from an account to itself. */
  lemma NeverOverdrawnIff(calls: seq<Call>)
    requires ValidCalls(Fresh(), calls)
    ensures AlwaysNonNegative(Fresh(), calls) <==> AllFunded(Fresh(), calls)
    ensures AlwaysNonNegative(Fresh(), calls) <==> SelfTransfersOnly(Fresh(), calls)
  {
    Reachable([]);
    NonNegativeRun(Fresh(), calls);
  }

  // ----- a transfer nobody disturbs

  lemma CallsCons(server: Server, c: Call, rest: seq<Call>)
    requires CallEnabled(server, c) && ValidCalls(Serve(server, c), rest)
    ensures ValidCalls(server, [c] + rest) && After(server, [c] + rest) == After(Serve(server, c), rest)
  {
    assert ([c] + rest)[1..] == rest;
  }

  /** A run of transaction steps, as calls. */
  lemma {:induction false} StepsAreCalls(server: Server, run: seq<Action>) returns (calls: seq<Call>)
    requires ValidRun(server.core, run) && forall i | 0 <= i < |run| :: IsTxStep(run[i])
    ensures ValidCalls(server, calls) && After(server, calls) == server.(core := Final(server.core, run))
    ensures forall i | 0 <= i < |calls| :: calls[i].Inside?
    decreases |run|
  {
    if run == [] {
      calls := [];
    } else {
      assert IsTxStep(run[0]);
      var c := Inside(run[0]);
      var rest := StepsAreCalls(Serve(server, c), run[1..]);
      CallsCons(server, c, rest);
      calls := [c] + rest;
    }
  }

  /** The body of a possible transfer has nothing in its way on a server without locks. */
  lemma TransferUndisturbed(s: State, arg: TransferParams, now: int)
    requires s.locks == {} && CanTransfer(s.db.accounts, arg)
    ensures Undisturbed(Apply(s, Begin(Body(arg), now)), |s.txs|, BODY_LENGTH)
  {
    BodyRefinesSpec(s.db, arg, Zeros(BODY_LENGTH), 0);
  }

  /** Whoever passed the checks and is left alone has the transfer committed whenever the arithmetic allows, however
      little is on the account. */
  lemma LoneTransferCommits(server: Server, h: nat, now: int) returns (calls: seq<Call>, stamp: Stamp)
    requires CallEnabled(server, Start(h, now)) && server.core.locks == {}
    requires CanTransfer(server.core.db.accounts, Params(server.handlers[h].req))
    ensures ValidCalls(server, calls)
    ensures var end := After(server, calls);
            && end.core.db == TransferSpec(server.core.db, Params(server.handlers[h].req), stamp)
            && end.core.locks == {} && end.handlers == SetPhase(server, h, Started(|server.core.txs|))
    ensures forall i | 0 <= i < |calls| :: calls[i] == Start(h, now) || calls[i].Inside?
  {
    var arg, begun, tid := Params(server.handlers[h].req), Serve(server, Start(h, now)), |server.core.txs|;
    TransferUndisturbed(server.core, arg, now);
    var run, tx := RunsToCommit(begun.core, tid);
    BodyRefinesSpec(server.core.db, arg, tx.ids, now);
    var rest := StepsAreCalls(begun, run);
    CallsCons(server, Start(h, now), rest);
    calls, stamp := [Start(h, now)] + rest, StampOf(tx.ids, now);
  }

  // ----- the overdraft

  /** Two users with an empty account each, and a request for `amount` that has passed every check. */
  ghost predicate Ready(server: Server, amount: Int64) {
    && server.core.db.accounts == map[1 := NewAccount("payer", "USD", 1, 0), 2 := NewAccount("payee", "USD", 2, 0)]
    && server.core.locks == {}
    && server.handlers == [Handler(Request("payer", 1, 2, amount, "USD"), BothChecked)]
  }

  lemma TwoEmptyAccounts() returns (calls: seq<Call>, server: Server)
    ensures ValidCalls(Fresh(), calls) && server == After(Fresh(), calls)
    ensures server.core.db.accounts == map[1 := NewAccount("payer", "USD", 1, 0), 2 := NewAccount("payee", "USD", 2, 0)]
    ensures server.core.locks == {} && server.handlers == []
  {
    var s0 := Fresh();
    var c0, c1 := Register("payer"), Register("payee");
    var c2, c3 := CreateAccount("payer", "USD", 1, 0), CreateAccount("payee", "USD", 2, 0);
    var s1 := Serve(s0, c0);
    var s2 := Serve(s1, c1);
    var s3 := Serve(s2, c2);
    server := Serve(s3, c3);
    assert ValidCalls(server, []) && After(server, []) == server;
    CallsCons(s3, c3, []);
    CallsCons(s2, c2, [c3] + []);
    CallsCons(s1, c1, [c2] + ([c3] + []));
    CallsCons(s0, c0, [c1] + ([c2] + ([c3] + [])));
    calls := [c0] + ([c1] + ([c2] + ([c3] + [])));
  }

  lemma {:induction false} CallsAppend(server: Server, calls: seq<Call>, more: seq<Call>)
    requires ValidCalls(server, calls) && ValidCalls(After(server, calls), more)
    ensures ValidCalls(server, calls + more) && After(server, calls + more) == After(After(server, calls), more)
    decreases |calls|
  {
    if calls == [] {
      assert calls + more == more;
    } else {
      assert (calls + more)[1..] == calls[1..] + more;
      CallsAppend(Serve(server, calls[0]), calls[1..], more);
    }
  }

  /** For every positive amount there is a run in which the first transfer between two new accounts goes through and
      leaves the payer that much below zero. */
  lemma FirstTransferOverdraws(amount: Int64) returns (calls: seq<Call>)
    requires amount > 0
    ensures ValidCalls(Fresh(), calls)
    ensures var accounts := After(Fresh(), calls).core.db.accounts;
            && accounts.Keys == {1, 2} && accounts[1].balance + amount == 0 && accounts[2].balance == amount
  {
    var opening, server := TwoEmptyAccounts();
    var req := Request("payer", 1, 2, amount, "USD");
    var arrived := Serve(server, Arrive(req));
    assert arrived.handlers == [Handler(req, FromChecked)];
    var checked := Serve(arrived, CheckTo(0));
    assert Ready(checked, amount);
    var rest, stamp := LoneTransferCommits(checked, 0, 0);
    CallsCons(arrived, CheckTo(0), rest);
    CallsCons(server, Arrive(req), [CheckTo(0)] + rest);
    CallsAppend(Fresh(), opening, [Arrive(req)] + ([CheckTo(0)] + rest));
    calls := opening + ([Arrive(req)] + ([CheckTo(0)] + rest));
  }

  // ----- a check before the transaction would not help

  /** Two requests of one payer, each of whose amounts was there when it was checked, are both committed. */
  lemma BothCommit(server: Server, h: nat, k: nat) returns (calls: seq<Call>)
    requires h != k && CallEnabled(server, Start(h, 0)) && CallEnabled(server, Start(k, 0)) && server.core.locks == {}
    requires var first, second := Params(server.handlers[h].req), Params(server.handlers[k].req);
             && CanTransfer(server.core.db.accounts, first)
             && CanTransfer(Moved(server.core.db.accounts, first), second)
    ensures ValidCalls(server, calls)
    ensures After(server, calls).core.db.accounts ==
              Moved(Moved(server.core.db.accounts, Params(server.handlers[h].req)), Params(server.handlers[k].req))
  {
    var first, stamp := LoneTransferCommits(server, h, 0);
    var middle := After(server, first);
    var second, stamp' := LoneTransferCommits(middle, k, 0);
    CallsAppend(server, first, second);
    calls := first + second;
  }

  function Pay(username: string, from: Int64, to: Int64, amount: Int64): Request {
    Request(username, from, to, amount, "USD")
  }

  /** The payee has paid `amount` to the payer, who has asked twice to send it back. */
  ghost predicate AskedTwice(server: Server, amount: Int64) {
    && server.core.locks == {} && server.core.db.accounts.Keys == {1, 2}
    && server.core.db.accounts[1] == NewAccount("payer", "USD", 1, 0).(balance := amount)
    && server.core.db.accounts[2] == NewAccount("payee", "USD", 2, 0).(balance := 0 - amount)
    && |server.handlers| == 3
    && forall h: nat | 1 <= h < 3 :: server.handlers[h] == Handler(Pay("payer", 1, 2, amount), FromChecked)
  }

  lemma Funds(server: Server, amount: Int64) returns (calls: seq<Call>)
    requires amount > 0 && server.core.locks == {} && server.handlers == []
    requires server.core.db.accounts ==
              map[1 := NewAccount("payer", "USD", 1, 0), 2 := NewAccount("payee", "USD", 2, 0)]
    ensures ValidCalls(server, calls) && AskedTwice(After(server, calls), amount)
  {
    var fund, back := Pay("payee", 2, 1, amount), Pay("payer", 1, 2, amount);
    var arrived := Serve(server, Arrive(fund));
    assert arrived.handlers == [Handler(fund, FromChecked)];
    var checked := Serve(arrived, CheckTo(0));
    assert checked.handlers == [Handler(fund, BothChecked)];
    var paying, stamp := LoneTransferCommits(checked, 0, 0);
    var paid := After(checked, paying);
    var once := Serve(paid, Arrive(back));
    var twice := Serve(once, Arrive(back));
    assert ValidCalls(twice, []) && After(twice, []) == twice;
    CallsCons(once, Arrive(back), []);
    CallsCons(paid, Arrive(back), [Arrive(back)] + []);
    CallsAppend(checked, paying, [Arrive(back)] + ([Arrive(back)] + []));
    calls := paying + ([Arrive(back)] + ([Arrive(back)] + []));
    CallsCons(arrived, CheckTo(0), calls);
    CallsCons(server, Arrive(fund), [CheckTo(0)] + calls);
    calls := [Arrive(fund)] + ([CheckTo(0)] + calls);
  }

  lemma BothChecks(server: Server, amount: Int64) returns (calls: seq<Call>)
    requires amount > 0 && AskedTwice(server, amount)
    ensures ValidCalls(server, [CheckTo(1), CheckTo(2)] + calls)
    ensures var end := After(server, [CheckTo(1), CheckTo(2)] + calls).core.db.accounts;
            1 in end && end[1].balance == 0 - amount
  {
    var one := Serve(server, CheckTo(1));
    var both := Serve(one, CheckTo(2));
    assert both.handlers[1] == both.handlers[2] == Handler(Pay("payer", 1, 2, amount), BothChecked);
    calls := BothCommit(both, 1, 2);
    CallsCons(one, CheckTo(2), calls);
    CallsCons(server, CheckTo(1), [CheckTo(2)] + calls);
    assert [CheckTo(1), CheckTo(2)] + calls == [CheckTo(1)] + ([CheckTo(2)] + calls);
  }

  /** Unlike owners and currencies (Api.CheckedThenCommitted), a balance does not keep what a check before the
      transaction established: in some run two requests each find their amount on the account when their handlers check,
      both are committed, and the account ends that much below zero. */
  lemma CheckedFundsRunOut(amount: Int64) returns (before: seq<Call>, after: seq<Call>)
    requires amount > 0
    ensures ValidCalls(Fresh(), before) && ValidCalls(Fresh(), before + ([CheckTo(1), CheckTo(2)] + after))
    ensures var s := After(Fresh(), before);
            && |s.handlers| == 3 && s.handlers[1] == s.handlers[2] == Handler(Pay("payer", 1, 2, amount), FromChecked)
            && 1 in s.core.db.accounts && s.core.db.accounts[1].balance == amount
            && CallEnabled(s, CheckTo(1)) && Serve(s, CheckTo(1)).core == s.core
    ensures var end := After(Fresh(), before + ([CheckTo(1), CheckTo(2)] + after)).core.db.accounts;
            1 in end && end[1].balance == 0 - amount
  {
    var opening, server := TwoEmptyAccounts();
    var funding := Funds(server, amount);
    CallsAppend(Fresh(), opening, funding);
    before := opening + funding;
    after := BothChecks(After(server, funding), amount);
    CallsAppend(Fresh(), before, [CheckTo(1), CheckTo(2)] + after);
  }
}
