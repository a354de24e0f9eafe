// The money API behind its authentication: from a login to the debit it allows.
module EndToEnd {
  import opened Wrappers
  import opened Integers
  import opened Tokens
  import opened Bank
  import opened Transfers
  import Protocol
  import Api
  import Overdraft
  import Sessions

  /** The bearer token a transfer request came with, and when. */
  datatype Bearer = Bearer(token: Token, time: int)

  /** `bearers[h]` belongs to transfer handler `h`. Both halves share the users and the clock. */
  datatype State = State(api: Api.Server, auth: Sessions.State, bearers: seq<Bearer>)

  datatype Step =
    | SignUp(username: string, credential: Sessions.Credential)
    | Auth(a: Sessions.Action)
    | OpenAccount(token: Token, currency: string, id: int)
    | Submit(token: Token, from: Int64, to: Int64, amount: Int64, currency: string)
    | Money(c: Api.Call)

  /** The middleware lets the request through. */
  predicate Authenticated(auth: Sessions.State, token: Token) {
    Sessions.Presentable(auth, token) && Sessions.Accepted(auth, token)
  }

  /** The call the accounts handler makes for the user of the token. */
  function Opening(s: State, token: Token, currency: string, id: int): Api.Call
    requires token.Sealed?
  {
    Api.CreateAccount(token.payload.username, currency, id, s.auth.clock)
  }

  /** Which calls go on with requests already admitted. */
  predicate Admitted(s: State, c: Api.Call) {
    c.CheckTo? || (c.Start? && c.now == s.auth.clock) || c.Inside?
  }

  ghost predicate Enabled(s: State, step: Step) {
    match step
    case SignUp(username, credential) =>
      && Api.CallEnabled(s.api, Api.Register(username))
      && Sessions.Enabled(s.auth, Sessions.AddUser(username, credential))
    case Auth(a) => !a.AddUser? && Sessions.Enabled(s.auth, a)
    case OpenAccount(token, currency, id) =>
      Authenticated(s.auth, token) && Api.CallEnabled(s.api, Opening(s, token, currency, id))
    case Submit(token, _, _, _, _) => Authenticated(s.auth, token)
    case Money(c) => Admitted(s, c) && Api.CallEnabled(s.api, c)
  }

  ghost function Apply(s: State, step: Step): State
    requires Enabled(s, step)
  {
    match step
    case SignUp(username, credential) =>
      s.(api := Api.Serve(s.api, Api.Register(username)),
         auth := Sessions.Apply(s.auth, Sessions.AddUser(username, credential)))
    case Auth(a) => s.(auth := Sessions.Apply(s.auth, a))
    case OpenAccount(token, currency, id) => s.(api := Api.Serve(s.api, Opening(s, token, currency, id)))
    case Submit(token, from, to, amount, currency) =>
      var req := Api.Request(token.payload.username, from, to, amount, currency);
      s.(api := Api.Serve(s.api, Api.Arrive(req)), bearers := s.bearers + [Bearer(token, s.auth.clock)])
    case Money(c) => s.(api := Api.Serve(s.api, c))
  }

  ghost predicate ValidRun(s: State, run: seq<Step>)
    decreases |run|
  {
    run == [] || (Enabled(s, run[0]) && ValidRun(Apply(s, run[0]), run[1..]))
  }

  ghost function Final(s: State, run: seq<Step>): State
    requires ValidRun(s, run)
    decreases |run|
  {
    if run == [] then s else Final(Apply(s, run[0]), run[1..])
  }

  function Init(config: Sessions.Config, patience: nat, clock: int): State {
    State(Api.Fresh(), Sessions.Init(config, patience, clock), [])
  }

  // ----- the invariant

  /** The user of request `h` had logged in, and its token was accepted when the request arrived. */
  ghost predicate BearerOk(s: State, h: nat) {
    && h < |s.bearers| == |s.api.handlers|
    && var token, time := s.bearers[h].token, s.bearers[h].time;
       && token.Sealed? && token.payload.username == s.api.handlers[h].req.username
       && exists l :: Sessions.Vouches(s.auth, l, token, time)
  }

  ghost predicate BearersOk(s: State) {
    |s.bearers| == |s.api.handlers| && forall h: nat | h < |s.bearers| :: BearerOk(s, h)
  }

  /** Both halves know the same users. */
  ghost predicate SharedUsers(s: State) {
    s.api.core.users == s.auth.users.Keys
  }

  ghost predicate Inv(s: State) {
    Api.ServerOk(s.api) && Sessions.Inv(s.auth) && BearersOk(s) && SharedUsers(s)
  }

  /** Requests keep their place and their content. */
  lemma RequestsStay(server: Api.Server, c: Api.Call)
    requires Api.CallEnabled(server, c)
    ensures |Api.Serve(server, c).handlers| == |server.handlers| + if c.Arrive? then 1 else 0
    ensures forall h: nat | h < |server.handlers| :: Api.Serve(server, c).handlers[h].req == server.handlers[h].req
  {
  }

  /** The step of each half, if it takes one. */
  function CallOf(s: State, step: Step): Option<Api.Call> {
    match step
    case SignUp(username, _) => Some(Api.Register(username))
    case Auth(_) => None
    case OpenAccount(token, currency, id) => if token.Sealed? then Some(Opening(s, token, currency, id)) else None
    case Submit(token, from, to, amount, currency) =>
      if token.Sealed? then Some(Api.Arrive(Api.Request(token.payload.username, from, to, amount, currency))) else None
    case Money(c) => Some(c)
  }

  function AuthOf(step: Step): Option<Sessions.Action> {
    match step
    case SignUp(username, credential) => Some(Sessions.AddUser(username, credential))
    case Auth(a) => Some(a)
    case _ => None
  }

  lemma Halves(s: State, step: Step)
    requires Enabled(s, step)
    ensures match CallOf(s, step)
            case Some(c) =>
              && Api.CallEnabled(s.api, c) && Apply(s, step).api == Api.Serve(s.api, c)
              && (c.Arrive? <==> step.Submit?)
            case None => Apply(s, step).api == s.api && !step.Submit?
    ensures match AuthOf(step)
            case Some(a) => Sessions.Enabled(s.auth, a) && Apply(s, step).auth == Sessions.Apply(s.auth, a)
            case None => Apply(s, step).auth == s.auth
  {
  }

  lemma BearerKept(s: State, step: Step, h: nat)
    requires BearersOk(s) && Enabled(s, step) && h < |s.bearers|
    requires |Apply(s, step).bearers| == |Apply(s, step).api.handlers|
    ensures BearerOk(Apply(s, step), h)
  {
    var s' := Apply(s, step);
    Halves(s, step);
    assert BearerOk(s, h);
    var l :| Sessions.Vouches(s.auth, l, s.bearers[h].token, s.bearers[h].time);
    if AuthOf(step).Some? {
      Sessions.VouchKept(s.auth, AuthOf(step).value, l, s.bearers[h].token, s.bearers[h].time);
    }
    if CallOf(s, step).Some? {
      RequestsStay(s.api, CallOf(s, step).value);
    }
    assert s'.bearers[h] == s.bearers[h];
    assert Sessions.Vouches(s'.auth, l, s'.bearers[h].token, s'.bearers[h].time);
  }

  lemma BearersStep(s: State, step: Step)
    requires Inv(s) && Enabled(s, step)
    ensures BearersOk(Apply(s, step))
  {
    var s' := Apply(s, step);
    Halves(s, step);
    if CallOf(s, step).Some? {
      RequestsStay(s.api, CallOf(s, step).value);
    }
    forall h: nat | h < |s'.bearers|
      ensures BearerOk(s', h)
    {
      if h < |s.bearers| {
        BearerKept(s, step, h);
      } else {
        var l := Sessions.AcceptedVouched(s.auth, step.token);
        assert Sessions.Vouches(s'.auth, l, s'.bearers[h].token, s'.bearers[h].time);
      }
    }
  }

  lemma InvStep(s: State, step: Step)
    requires Inv(s) && Enabled(s, step)
    ensures Inv(Apply(s, step))
  {
    Halves(s, step);
    if CallOf(s, step).Some? {
      Api.ServeKeeps(s.api, CallOf(s, step).value);
    }
    if AuthOf(step).Some? {
      Sessions.InvStep(s.auth, AuthOf(step).value);
    }
    BearersStep(s, step);
    UsersStep(s, step);
  }

  lemma UsersStep(s: State, step: Step)
    requires SharedUsers(s) && Enabled(s, step)
    ensures SharedUsers(Apply(s, step))
  {
  }

  lemma {:induction false} InvRun(s: State, run: seq<Step>)
    requires Inv(s) && ValidRun(s, run)
    ensures Inv(Final(s, run))
    ensures Final(s, run).auth.config == s.auth.config && Final(s, run).auth.patience == s.auth.patience
    decreases |run|
  {
    if run != [] {
      Halves(s, run[0]);
      InvStep(s, run[0]);
      InvRun(Apply(s, run[0]), run[1..]);
    }
  }

  lemma Reachable(run: seq<Step>, config: Sessions.Config, patience: nat, clock: int)
    requires ValidRun(Init(config, patience, clock), run)
    ensures var s := Final(Init(config, patience, clock), run);
            Inv(s) && s.auth.config == config && s.auth.patience == patience
  {
    Api.Reachable([]);
    InvRun(Init(config, patience, clock), run);
  }

  // ----- where requests, logins and accounts come from

  lemma HandlerKept(s: State, step: Step, h: nat)
    requires BearersOk(s) && Enabled(s, step) && h < |s.bearers|
    ensures h < |Apply(s, step).bearers| && Apply(s, step).bearers[h] == s.bearers[h]
    ensures h < |Apply(s, step).api.handlers| && Apply(s, step).api.handlers[h].req == s.api.handlers[h].req
    ensures |Apply(s, step).bearers| == |Apply(s, step).api.handlers|
  {
    Halves(s, step);
    if CallOf(s, step).Some? {
      RequestsStay(s.api, CallOf(s, step).value);
    }
  }

  lemma {:induction false} HandlerKeptRun(s: State, run: seq<Step>, h: nat)
    requires Inv(s) && ValidRun(s, run) && h < |s.bearers|
    ensures h < |Final(s, run).bearers| && Final(s, run).bearers[h] == s.bearers[h]
    ensures h < |Final(s, run).api.handlers| && Final(s, run).api.handlers[h].req == s.api.handlers[h].req
    decreases |run|
  {
    if run != [] {
      HandlerKept(s, run[0], h);
      InvStep(s, run[0]);
      HandlerKeptRun(Apply(s, run[0]), run[1..], h);
    }
  }

  /** The state before step `m` of the rest of a run is the state before step `m + 1` of the run. */
  lemma PrefixShift(s: State, run: seq<Step>, m: nat)
    requires run != [] && Enabled(s, run[0]) && m < |run[1..]| && ValidRun(Apply(s, run[0]), run[1..][..m])
    ensures ValidRun(s, run[..m + 1]) && run[m + 1] == run[1..][m]
    ensures Final(s, run[..m + 1]) == Final(Apply(s, run[0]), run[1..][..m])
  {
    assert run[..m + 1][1..] == run[1..][..m];
  }

  /** Step `n` of the run submitted what handler `h` is at work on, under the token and at the time on record. */
  ghost predicate SubmittedAt(s: State, run: seq<Step>, n: nat, req: Api.Request, bearer: Bearer) {
    && n < |run| && ValidRun(s, run[..n])
    && run[n] == Submit(bearer.token, req.from, req.to, req.amount, req.currency)
    && bearer.token.Sealed? && bearer.token.payload.username == req.username
    && Final(s, run[..n]).auth.clock == bearer.time
  }

  lemma {:induction false} RequestCame(s: State, run: seq<Step>, h: nat) returns (n: nat)
    requires Inv(s) && ValidRun(s, run) && |s.bearers| <= h
    requires h < |Final(s, run).bearers| && h < |Final(s, run).api.handlers|
    ensures SubmittedAt(s, run, n, Final(s, run).api.handlers[h].req, Final(s, run).bearers[h])
    decreases |run|
  {
    var s' := Apply(s, run[0]);
    InvStep(s, run[0]);
    if |s'.bearers| <= h {
      var m := RequestCame(s', run[1..], h);
      PrefixShift(s, run, m);
      n := m + 1;
    } else {
      HandlerKeptRun(s', run[1..], h);
      NewRequest(s, run[0], h);
      n := 0;
    }
  }

  /** Only submitting brings in a handler. */
  lemma NewRequest(s: State, step: Step, h: nat)
    requires BearersOk(s) && Enabled(s, step) && |s.bearers| <= h < |Apply(s, step).bearers|
    ensures h < |Apply(s, step).api.handlers| && step.Submit? && step.token.Sealed?
    ensures var req := Apply(s, step).api.handlers[h].req;
            && step == Submit(Apply(s, step).bearers[h].token, req.from, req.to, req.amount, req.currency)
            && step.token.payload.username == req.username && Apply(s, step).bearers[h].time == s.auth.clock
  {
    Halves(s, step);
  }

  /** Step `m` of the run is the login `l` presenting the password its user had at that moment. */
  ghost predicate LoggedInAt(s: State, run: seq<Step>, m: nat, l: Sessions.Login) {
    && m < |run| && ValidRun(s, run[..m])
    && run[m].Auth? && run[m].a.BeginLogin? && run[m].a.username == l.username
    && var before := Final(s, run[..m]).auth;
       && before.clock == l.time && l.username in before.users
       && before.users[l.username] == Sessions.Credential(run[m].a.password, l.role)
  }

  lemma {:induction false} LoginCame(s: State, run: seq<Step>, l: Sessions.Login) returns (m: nat)
    requires ValidRun(s, run) && !Sessions.UnderWay(s.auth, l) && Sessions.UnderWay(Final(s, run).auth, l)
    ensures LoggedInAt(s, run, m, l)
    decreases |run|
  {
    var s' := Apply(s, run[0]);
    Halves(s, run[0]);
    if Sessions.UnderWay(s'.auth, l) {
      Sessions.GetsUnderWay(s.auth, AuthOf(run[0]).value, l);
      m := 0;
    } else {
      var k := LoginCame(s', run[1..], l);
      PrefixShift(s, run, k);
      m := k + 1;
    }
  }

  lemma AccountKept(s: State, step: Step, id: int)
    requires Api.ServerOk(s.api) && Enabled(s, step) && id in s.api.core.db.accounts
    ensures id in Apply(s, step).api.core.db.accounts
    ensures Apply(s, step).api.core.db.accounts[id].owner == s.api.core.db.accounts[id].owner
    ensures Apply(s, step).api.core.db.accounts[id].currency == s.api.core.db.accounts[id].currency
  {
    Halves(s, step);
    if CallOf(s, step).Some? {
      HolderKept(s.api, CallOf(s, step).value, id);
    }
  }

  lemma HolderKept(server: Api.Server, c: Api.Call, id: int)
    requires Api.ServerOk(server) && Api.CallEnabled(server, c) && id in server.core.db.accounts
    ensures var accounts, accounts' := server.core.db.accounts, Api.Serve(server, c).core.db.accounts;
            && id in accounts' && accounts'[id].owner == accounts[id].owner
            && accounts'[id].currency == accounts[id].currency
  {
    if c.Inside? && c.a.Commit? {
      var stamp := Api.CommitIsTransfer(server, c.a.tid);
    } else {
      OthersDebitNothing(server, c, id);
    }
  }

  lemma {:induction false} AccountKeptRun(s: State, run: seq<Step>, id: int)
    requires Inv(s) && ValidRun(s, run) && id in s.api.core.db.accounts
    ensures id in Final(s, run).api.core.db.accounts
    ensures Final(s, run).api.core.db.accounts[id].owner == s.api.core.db.accounts[id].owner
    ensures Final(s, run).api.core.db.accounts[id].currency == s.api.core.db.accounts[id].currency
    decreases |run|
  {
    if run != [] {
      AccountKept(s, run[0], id);
      InvStep(s, run[0]);
      AccountKeptRun(Apply(s, run[0]), run[1..], id);
    }
  }

  /** Step `n` of the run opened the account for the user of an accepted token, in the currency asked for. */
  ghost predicate OpenedAt(s: State, run: seq<Step>, n: nat, id: int, owner: string, currency: string) {
    && n < |run| && ValidRun(s, run[..n]) && run[n].OpenAccount? && run[n].id == id && run[n].currency == currency
    && run[n].token.Sealed? && run[n].token.payload.username == owner
    && Authenticated(Final(s, run[..n]).auth, run[n].token)
  }

  lemma NewAccountOpened(s: State, step: Step, id: int)
    requires Api.ServerOk(s.api) && Enabled(s, step)
    requires id !in s.api.core.db.accounts && id in Apply(s, step).api.core.db.accounts
    ensures step.OpenAccount? && step.id == id && step.token.Sealed? && Authenticated(s.auth, step.token)
    ensures Apply(s, step).api.core.db.accounts[id] ==
              Account(id, step.token.payload.username, 0, step.currency, s.auth.clock)
  {
    Halves(s, step);
    OnlyOpeningAdds(s.api, CallOf(s, step).value, id);
  }

  lemma OnlyOpeningAdds(server: Api.Server, c: Api.Call, id: int)
    requires Api.ServerOk(server) && Api.CallEnabled(server, c)
    requires id !in server.core.db.accounts && id in Api.Serve(server, c).core.db.accounts
    ensures c.CreateAccount? && c.id == id
    ensures Api.Serve(server, c).core.db.accounts[id] == Account(id, c.username, 0, c.currency, c.now)
  {
    if c.Inside? && c.a.Commit? {
      var stamp := Api.CommitIsTransfer(server, c.a.tid);
    }
  }

  lemma {:induction false} AccountCame(s: State, run: seq<Step>, id: int) returns (n: nat)
    requires Inv(s) && ValidRun(s, run) && id !in s.api.core.db.accounts && id in Final(s, run).api.core.db.accounts
    ensures var account := Final(s, run).api.core.db.accounts[id];
            OpenedAt(s, run, n, id, account.owner, account.currency)
    decreases |run|
  {
    var s' := Apply(s, run[0]);
    InvStep(s, run[0]);
    if id in s'.api.core.db.accounts {
      NewAccountOpened(s, run[0], id);
      AccountKeptRun(s', run[1..], id);
      n := 0;
    } else {
      var m := AccountCame(s', run[1..], id);
      PrefixShift(s, run, m);
      n := m + 1;
    }
  }

  // ----- main result

  /** Every call but a commit leaves the accounts there are alone. */
  lemma OthersDebitNothing(server: Api.Server, c: Api.Call, id: int)
    requires Api.CallEnabled(server, c) && id in server.core.db.accounts && !(c.Inside? && c.a.Commit?)
    ensures id in Api.Serve(server, c).core.db.accounts
    ensures Api.Serve(server, c).core.db.accounts[id] == server.core.db.accounts[id]
  {
  }

  /** A commit lowers only the balance of the account its request names as the source. */
  lemma CommitDebits(server: Api.Server, tid: nat, id: int)
    requires Api.ServerOk(server) && Api.CallEnabled(server, Api.Inside(Protocol.Commit(tid)))
    requires id in server.core.db.accounts
    ensures tid < |server.origin| && Api.Authorized(server.core.db.accounts, server.origin[tid])
    ensures var req, db' := server.origin[tid], Api.Serve(server, Api.Inside(Protocol.Commit(tid))).core.db;
            && id in db'.accounts
            && (db'.accounts[id].balance < server.core.db.accounts[id].balance ==>
                  id == req.from && db'.accounts[id].balance == server.core.db.accounts[id].balance - req.amount)
  {
    var stamp := Api.CommitIsTransfer(server, tid);
  }

  /** What stands behind a debit of account `id`: a request for it by the owner, started once by handler `h`, whose
      token was accepted when it arrived and goes back to login `l` of the owner. */
  ghost predicate OwnersRequest(s: State, tid: nat, h: nat, l: Sessions.Login, id: int) {
    && id in s.api.core.db.accounts && h < |s.bearers| == |s.api.handlers|
    && var req, token := s.api.handlers[h].req, s.bearers[h].token;
       && s.api.handlers[h].phase == Api.Started(tid)
       && req.from == id && req.username == s.api.core.db.accounts[id].owner == l.username
       && token.Sealed? && token.payload.username == l.username
       && Sessions.Vouches(s.auth, l, token, s.bearers[h].time)
  }

  lemma DebitTraced(s: State, step: Step, id: int) returns (tid: nat, h: nat, l: Sessions.Login)
    requires Inv(s) && Enabled(s, step)
    requires id in s.api.core.db.accounts && id in Apply(s, step).api.core.db.accounts
    requires Apply(s, step).api.core.db.accounts[id].balance < s.api.core.db.accounts[id].balance
    ensures step == Money(Api.Inside(Protocol.Commit(tid))) && OwnersRequest(s, tid, h, l, id)
    ensures Apply(s, step).api.core.db.accounts[id].balance ==
              s.api.core.db.accounts[id].balance - s.api.handlers[h].req.amount
  {
    Halves(s, step);
    var c := CallOf(s, step).value;
    if !(c.Inside? && c.a.Commit?) {
      OthersDebitNothing(s.api, c, id);
    }
    tid := c.a.tid;
    CommitDebits(s.api, tid, id);
    assert Api.HasStarter(s.api, tid);
    h :| Api.StartedBy(s.api, tid, h);
    assert BearerOk(s, h);
    l :| Sessions.Vouches(s.auth, l, s.bearers[h].token, s.bearers[h].time);
  }

  /** Whatever runs beside it, a step that lowers the balance of an account commits a transfer that its owner asked for:
      submitted at step `n` of the run, for this account and this amount, with a token accepted at that moment, which
      was handed out after the owner presented the password at step `m`, at most one refresh and one access duration
      before, and at most an access duration after the session of that login was blocked, if it was, give or take the
      time handlers are at work. */
  lemma DebitsAreOwners(config: Sessions.Config, patience: nat, clock: int, run: seq<Step>, step: Step, id: int)
      returns (tid: nat, h: nat, l: Sessions.Login, n: nat, m: nat)
    requires ValidRun(Init(config, patience, clock), run) && Enabled(Final(Init(config, patience, clock), run), step)
    requires var s := Final(Init(config, patience, clock), run);
             && id in s.api.core.db.accounts && id in Apply(s, step).api.core.db.accounts
             && Apply(s, step).api.core.db.accounts[id].balance < s.api.core.db.accounts[id].balance
    ensures var s := Final(Init(config, patience, clock), run);
            && step == Money(Api.Inside(Protocol.Commit(tid)))
            && OwnersRequest(s, tid, h, l, id)
            && Apply(s, step).api.core.db.accounts[id].balance ==
                 s.api.core.db.accounts[id].balance - s.api.handlers[h].req.amount
            && l.time <= s.bearers[h].time <=
                 l.time + Sessions.Max(0, config.refreshDuration) + config.accessDuration + 2 * patience
            && (l.sessionId in s.auth.blockedAt ==>
                  s.bearers[h].time <= s.auth.blockedAt[l.sessionId] + config.accessDuration + patience)
            && l.username == s.api.core.db.accounts[id].owner && s.api.handlers[h].req.from == id
            && SubmittedAt(Init(config, patience, clock), run, n, s.api.handlers[h].req, s.bearers[h])
            && LoggedInAt(Init(config, patience, clock), run, m, l)
  {
    var s0 := Init(config, patience, clock);
    Reachable(run, config, patience, clock);
    tid, h, l := DebitTraced(Final(s0, run), step, id);
    n := FromTheStart(config, patience, clock, run, h);
    m := LoginCame(s0, run, l);
  }

  lemma FromTheStart(config: Sessions.Config, patience: nat, clock: int, run: seq<Step>, h: nat) returns (n: nat)
    requires ValidRun(Init(config, patience, clock), run)
    requires h < |Final(Init(config, patience, clock), run).bearers|
    requires h < |Final(Init(config, patience, clock), run).api.handlers|
    ensures var s := Final(Init(config, patience, clock), run);
            SubmittedAt(Init(config, patience, clock), run, n, s.api.handlers[h].req, s.bearers[h])
  {
    Reachable([], config, patience, clock);
    n := RequestCame(Init(config, patience, clock), run, h);
  }

  /** Every account was opened by its owner, with a token accepted at that moment. */
  lemma AccountsAreOwners(config: Sessions.Config, patience: nat, clock: int, run: seq<Step>, id: int) returns (n: nat)
    requires ValidRun(Init(config, patience, clock), run)
    requires id in Final(Init(config, patience, clock), run).api.core.db.accounts
    ensures var account := Final(Init(config, patience, clock), run).api.core.db.accounts[id];
            OpenedAt(Init(config, patience, clock), run, n, id, account.owner, account.currency)
  {
    Reachable([], config, patience, clock);
    n := AccountCame(Init(config, patience, clock), run, id);
  }

  // ----- the whole way, from sign-up to debit

  lemma StepsCons(s: State, step: Step, rest: seq<Step>)
    requires Enabled(s, step) && ValidRun(Apply(s, step), rest)
    ensures ValidRun(s, [step] + rest) && Final(s, [step] + rest) == Final(Apply(s, step), rest)
  {
    assert ([step] + rest)[1..] == rest;
  }

  lemma {:induction false} StepsAppend(s: State, run: seq<Step>, more: seq<Step>)
    requires ValidRun(s, run) && ValidRun(Final(s, run), more)
    ensures ValidRun(s, run + more) && Final(s, run + more) == Final(Final(s, run), more)
    decreases |run|
  {
    if run == [] {
      assert run + more == more;
    } else {
      assert (run + more)[1..] == run[1..] + more;
      StepsAppend(Apply(s, run[0]), run[1..], more);
    }
  }

  /** A run of the authentication half is a run of the whole. */
  lemma {:induction false} AuthSteps(s: State, auth: seq<Sessions.Action>) returns (run: seq<Step>)
    requires Sessions.ValidRun(s.auth, auth) && forall i | 0 <= i < |auth| :: !auth[i].AddUser?
    ensures ValidRun(s, run) && Final(s, run) == s.(auth := Sessions.Final(s.auth, auth))
    decreases |auth|
  {
    if auth == [] {
      run := [];
    } else {
      assert !auth[0].AddUser?;
      var rest := AuthSteps(Apply(s, Auth(auth[0])), auth[1..]);
      StepsCons(s, Auth(auth[0]), rest);
      run := [Auth(auth[0])] + rest;
    }
  }

  /** So is a run of admitted calls. */
  lemma {:induction false} MoneySteps(s: State, calls: seq<Api.Call>) returns (run: seq<Step>)
    requires Api.ValidCalls(s.api, calls) && forall i | 0 <= i < |calls| :: Admitted(s, calls[i])
    ensures ValidRun(s, run) && Final(s, run) == s.(api := Api.After(s.api, calls))
    decreases |calls|
  {
    if calls == [] {
      run := [];
    } else {
      assert Admitted(s, calls[0]);
      var rest := MoneySteps(Apply(s, Money(calls[0])), calls[1..]);
      StepsCons(s, Money(calls[0]), rest);
      run := [Money(calls[0])] + rest;
    }
  }

  /** What is needed for one more user to join. */
  ghost predicate Open(s: State, name: string, id: int) {
    && SharedUsers(s) && name !in s.auth.users && id >= 1 && id !in s.api.core.db.accounts
    && s.auth.config.accessDuration >= 0
    && (forall a | a in s.api.core.db.accounts :: s.api.core.db.accounts[a].owner != name)
    && (forall i | i in s.auth.sessions :: i < s.auth.nextId)
  }

  /** `s'` is `s` after `name` has joined and opened account `id`, with `token` in hand. */
  ghost predicate Joined(s: State, s': State, name: string, id: int, token: Token) {
    && SharedUsers(s') && s'.auth.users.Keys == s.auth.users.Keys + {name}
    && s'.auth.config == s.auth.config && s'.auth.clock == s.auth.clock && s.auth.released <= s'.auth.released
    && (forall i | i in s'.auth.sessions :: i < s'.auth.nextId)
    && Authenticated(s'.auth, token) && token.payload.username == name
    && s'.api.core.db.accounts == s.api.core.db.accounts[id := Account(id, name, 0, "USD", s.auth.clock)]
    && s'.api.core.locks == s.api.core.locks && s'.api.handlers == s.api.handlers && s'.bearers == s.bearers
  }

  lemma Joins(s: State, name: string, id: int) returns (run: seq<Step>, token: Token)
    requires Open(s, name, id)
    ensures ValidRun(s, run) && Joined(s, Final(s, run), name, id, token)
  {
    var signUp := SignUp(name, Sessions.Credential("secret", "depositor"));
    var s1 := Apply(s, signUp);
    var login, auth := Sessions.PasswordLogsIn(s1.auth, name, "secret", "", "");
    var logIn := AuthSteps(s1, login);
    var s2 := Final(s1, logIn);
    token := Sealed(s.auth.config.maker.key, Payload(s.auth.nextId, AccessToken, name, "depositor", s.auth.clock,
                                                     s.auth.clock + s.auth.config.accessDuration));
    assert Authenticated(s2.auth, token);
    var open := OpenAccount(token, "USD", id);
    assert ValidRun(Apply(s2, open), []);
    StepsCons(s2, open, []);
    StepsAppend(s1, logIn, [open] + []);
    StepsCons(s, signUp, logIn + ([open] + []));
    run := [signUp] + (logIn + ([open] + []));
  }

  /** Debits do happen, of every positive amount: two users sign up, log in and open an account, one submits a transfer
      to the other, and its commit lowers the balance. */
  lemma DebitsHappen(config: Sessions.Config, patience: nat, clock: int, amount: Int64)
      returns (run: seq<Step>)
    requires config.accessDuration >= 0 && amount > 0
    ensures ValidRun(Init(config, patience, clock), run)
    ensures var s := Final(Init(config, patience, clock), run);
            && 1 in s.api.core.db.accounts && s.api.core.db.accounts[1].owner == "payer"
            && s.api.core.db.accounts[1].balance + amount == 0
  {
    var s0 := Init(config, patience, clock);
    var first, payer := Joins(s0, "payer", 1);
    var s1 := Final(s0, first);
    var second, payee := Joins(s1, "payee", 2);
    var s2 := Final(s1, second);
    var submit := Submit(payer, 1, 2, amount, "USD");
    var s3 := Apply(s2, submit);
    var calls := Pays(s3, amount);
    var third := MoneySteps(s3, calls);
    StepsCons(s2, submit, third);
    StepsAppend(s1, second, [submit] + third);
    StepsAppend(s0, first, second + ([submit] + third));
    run := first + (second + ([submit] + third));
  }

  /** The admitted request is checked, and its transaction runs to its commit. */
  lemma Pays(s: State, amount: Int64) returns (calls: seq<Api.Call>)
    requires amount > 0 && s.api.core.locks == {}
    requires s.api.handlers == [Api.Handler(Api.Request("payer", 1, 2, amount, "USD"), Api.FromChecked)]
    requires s.api.core.db.accounts == map[1 := Account(1, "payer", 0, "USD", s.auth.clock),
                                           2 := Account(2, "payee", 0, "USD", s.auth.clock)]
    ensures Api.ValidCalls(s.api, calls) && forall i | 0 <= i < |calls| :: Admitted(s, calls[i])
    ensures var accounts := Api.After(s.api, calls).core.db.accounts;
            1 in accounts && accounts[1].owner == "payer" && accounts[1].balance + amount == 0
  {
    var checked := Api.Serve(s.api, Api.CheckTo(0));
    assert checked.handlers == [Api.Handler(Api.Request("payer", 1, 2, amount, "USD"), Api.BothChecked)];
    var rest, stamp := Overdraft.LoneTransferCommits(checked, 0, s.auth.clock);
    Overdraft.CallsCons(s.api, Api.CheckTo(0), rest);
    calls := [Api.CheckTo(0)] + rest;
  }
}
