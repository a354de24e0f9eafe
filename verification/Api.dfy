// The account and transfer handlers: checks made before the transaction starts, then the transaction itself.
module Api {
  import opened Wrappers
  import opened Http
  import opened Integers
  import opened Bank
  import opened Transfers
  import opened Protocol
  import opened Deadlock
  import opened Ledger

  predicate IsSupportedCurrency(currency: string) {
    currency == "USD" || currency == "EUR" || currency == "CAD"
  }

  /** A transfer request together with the username of the access token it came with. */
  datatype Request = Request(username: string, from: Int64, to: Int64, amount: Int64, currency: string)

  /** The binding rules of transferRequest. */
  predicate BindingOk(req: Request) {
    req.from >= 1 && req.to >= 1 && req.amount > 0 && IsSupportedCurrency(req.currency)
  }

  function ValidAccount(accounts: map<int, Account>, id: int, currency: string): Result<Account, HttpStatus> {
    if id !in accounts then Err(NotFound)
    else if accounts[id].currency != currency then Err(BadRequest)
    else Ok(accounts[id])
  }

  /** The first half of createTransfer: binding, the source account, and its owner. */
  function CheckFrom(accounts: map<int, Account>, req: Request): Result<Account, HttpStatus> {
    if !BindingOk(req) then Err(BadRequest)
    else
      match ValidAccount(accounts, req.from, req.currency)
      case Err(status) => Err(status)
      case Ok(account) => if account.owner != req.username then Err(Unauthorized) else Ok(account)
  }

  function Params(req: Request): TransferParams {
    TransferParams(req.from, req.to, req.amount)
  }

  /** How far a createTransfer handler has come. */
  datatype Phase = FromChecked | BothChecked | Started(tid: nat) | Refused(status: HttpStatus)

  datatype Handler = Handler(req: Request, phase: Phase)

  /** The server: the database protocol, and the handlers at work on top of it. `origin[tid]` is the request that
      started transaction `tid`. */
  datatype Server = Server(core: State, handlers: seq<Handler>, origin: seq<Request>)

  datatype Call =
    | Register(name: string)
    | CreateAccount(username: string, currency: string, id: int, now: int)
    | Arrive(req: Request)
    | CheckTo(h: nat)
    | Start(h: nat, now: int)
    | Inside(a: Action)

  function NewAccount(username: string, currency: string, id: int, now: int): Account {
    Account(id, username, 0, currency, now)
  }

  predicate InPhase(server: Server, h: nat, phase: Phase) {
    h < |server.handlers| && server.handlers[h].phase == phase
  }

  ghost predicate CallEnabled(server: Server, c: Call) {
    match c
    case Register(name) => Enabled(server.core, AddUser(name))
    case CreateAccount(username, currency, id, now) =>
      IsSupportedCurrency(currency) && Enabled(server.core, OpenAccount(NewAccount(username, currency, id, now)))
    case Arrive(req) => true
    case CheckTo(h) => InPhase(server, h, FromChecked)
    case Start(h, now) => InPhase(server, h, BothChecked)
    case Inside(a) => IsTxStep(a) && Enabled(server.core, a)
  }

  function SetPhase(server: Server, h: nat, phase: Phase): seq<Handler>
    requires h < |server.handlers|
  {
    server.handlers[h := server.handlers[h].(phase := phase)]
  }

  ghost function Serve(server: Server, c: Call): Server
    requires CallEnabled(server, c)
  {
    match c
    case Register(name) => server.(core := Apply(server.core, AddUser(name)))
    case CreateAccount(username, currency, id, now) =>
      server.(core := Apply(server.core, OpenAccount(NewAccount(username, currency, id, now))))
    case Arrive(req) =>
      var phase := match CheckFrom(server.core.db.accounts, req)
                   case Ok(_) => FromChecked
                   case Err(status) => Refused(status);
      server.(handlers := server.handlers + [Handler(req, phase)])
    case CheckTo(h) =>
      var req := server.handlers[h].req;
      var phase := match ValidAccount(server.core.db.accounts, req.to, req.currency)
                   case Ok(_) => BothChecked
                   case Err(status) => Refused(status);
      server.(handlers := SetPhase(server, h, phase))
    case Start(h, now) =>
      var req := server.handlers[h].req;
      server.(core := Apply(server.core, Begin(Body(Params(req)), now)),
              handlers := SetPhase(server, h, Started(|server.core.txs|)),
              origin := server.origin + [req])
    case Inside(a) => server.(core := Apply(server.core, a))
  }

  ghost predicate ValidCalls(server: Server, calls: seq<Call>)
    decreases |calls|
  {
    calls == [] || (CallEnabled(server, calls[0]) && ValidCalls(Serve(server, calls[0]), calls[1..]))
  }

  ghost function After(server: Server, calls: seq<Call>): Server
    requires ValidCalls(server, calls)
    decreases |calls|
  {
    if calls == [] then server else After(Serve(server, calls[0]), calls[1..])
  }

  /** A freshly migrated database with no users and no accounts, and no request at work. */
  function Fresh(): Server {
    Server(State(KeyShare, {}, NO_ROWS_WRITTEN, [], {}, 1, 1, 1, []), [], [])
  }

  // ----- invariants

  ghost predicate FromOk(accounts: map<int, Account>, req: Request) {
    && BindingOk(req)
    && req.from in accounts && accounts[req.from].currency == req.currency && accounts[req.from].owner == req.username
  }

  /** What the handler established about its two accounts. */
  ghost predicate Authorized(accounts: map<int, Account>, req: Request) {
    FromOk(accounts, req) && req.to in accounts && accounts[req.to].currency == req.currency
  }

  ghost predicate HandlerOk(server: Server, h: Handler) {
    match h.phase
    case FromChecked => FromOk(server.core.db.accounts, h.req)
    case BothChecked => Authorized(server.core.db.accounts, h.req)
    case Started(tid) => tid < |server.origin| && server.origin[tid] == h.req
    case Refused(_) => true
  }

  ghost predicate OriginsOk(server: Server) {
    && |server.origin| == |server.core.txs|
    && forall tid: nat | tid < |server.origin| ::
         && Authorized(server.core.db.accounts, server.origin[tid])
         && server.core.txs[tid].prog == Body(Params(server.origin[tid]))
  }

  /** Handler `h` started transaction `tid`. */
  predicate StartedBy(server: Server, tid: nat, h: nat)
    requires tid < |server.origin|
  {
    h < |server.handlers| && server.handlers[h] == Handler(server.origin[tid], Started(tid))
  }

  ghost predicate HasStarter(server: Server, tid: nat)
    requires tid < |server.origin|
  {
    exists h: nat :: StartedBy(server, tid, h)
  }

  /** A handler starts at most one transaction, and one that exists. */
  ghost predicate StartsInRange(server: Server) {
    forall h: nat | h < |server.handlers| && server.handlers[h].phase.Started? ::
      server.handlers[h].phase.tid < |server.origin|
  }

  /** No two handlers started the same transaction. */
  ghost predicate StartsDistinct(server: Server) {
    forall h: nat, k: nat | h < k < |server.handlers| && server.handlers[h].phase.Started? ::
      server.handlers[h].phase != server.handlers[k].phase
  }

  /** Only handlers start transactions. */
  ghost predicate AllStarted(server: Server) {
    forall tid: nat | tid < |server.origin| :: HasStarter(server, tid)
  }

  /** Handlers and transactions match one to one: a request starts at most one transaction, and only requests do. */
  ghost predicate StartsOk(server: Server) {
    StartsInRange(server) && StartsDistinct(server) && AllStarted(server)
  }

  ghost predicate AccountsOk(s: State) {
    && s.accountBound >= 1
    && (forall id | id in s.db.accounts ::
          && 1 <= id < s.accountBound && s.db.accounts[id].id == id
          && IsSupportedCurrency(s.db.accounts[id].currency) && s.db.accounts[id].owner in s.users
          && InInt64(s.db.accounts[id].balance))
    && (forall a, b | a in s.db.accounts && b in s.db.accounts && a != b ::
          s.db.accounts[a].owner != s.db.accounts[b].owner || s.db.accounts[a].currency != s.db.accounts[b].currency)
  }

  /** The accounts of each currency sum to zero: money only moves. */
  ghost predicate TotalsZero(s: State) {
    forall currency :: Total(s.db.accounts, currency, s.accountBound) == 0
  }

  ghost predicate ServerOk(server: Server) {
    && Inv(NO_ROWS_WRITTEN, server.core) && server.core.keyMode.KeyShare?
    && HandlersOk(server)
    && OriginsOk(server)
    && StartsOk(server)
    && AccountsOk(server.core)
    && LedgerOk(server.core.db)
    && TotalsZero(server.core)
  }

  /** No statement a handler can reach changes an account's id, owner or currency, or removes an account. */
  ghost predicate HoldersKept(db: Tables, db': Tables) {
    forall id | id in db.accounts :: id in db'.accounts && SameHolder(db.accounts[id], db'.accounts[id])
  }

  lemma StepKeepsHolders(s: State, a: Action)
    requires TxsOk(s) && Enabled(s, a)
    ensures HoldersKept(s.db, Apply(s, a).db)
  {
    if a.Commit? {
      var tx := s.txs[a.tid];
      assert AsIfAlone(s, a.tid);
      RunWrites(s.db, tx.prog, tx.ids, tx.now, |tx.ids|);
    }
  }

  lemma AuthorizationKept(db: Tables, db': Tables, req: Request)
    requires HoldersKept(db, db')
    ensures FromOk(db.accounts, req) ==> FromOk(db'.accounts, req)
    ensures Authorized(db.accounts, req) ==> Authorized(db'.accounts, req)
  {
    forall id | id in db.accounts
      ensures id in db'.accounts && db'.accounts[id].owner == db.accounts[id].owner
      ensures db'.accounts[id].currency == db.accounts[id].currency
    {
      var a, b := db.accounts[id].(balance := 0), db'.accounts[id].(balance := 0);
      assert a == b && a.owner == db.accounts[id].owner && b.owner == db'.accounts[id].owner;
    }
  }

  /** A commit of a handler's transaction is a transfer between two accounts that exist, in one currency. */
  lemma CommitIsTransfer(server: Server, tid: nat) returns (stamp: Stamp)
    requires ServerOk(server) && CallEnabled(server, Inside(Commit(tid)))
    ensures tid < |server.origin|
    ensures var req, db := server.origin[tid], server.core.db;
            && Authorized(db.accounts, req)
            && CanTransfer(db.accounts, Params(req))
            && Serve(server, Inside(Commit(tid))).core.db == TransferSpec(db, Params(req), stamp)
  {
    var req, tx := server.origin[tid], server.core.txs[tid];
    assert AsIfAlone(server.core, tid);
    BodyRefinesSpec(server.core.db, Params(req), tx.ids, tx.now);
    BodyReadsNothing(Params(req));
    NoPlainReads(tx.prog, tx.work, RunAlone(server.core.db, tx.prog, tx.ids, tx.now, |tx.ids|).value);
    stamp := StampOf(tx.ids, tx.now);
  }

  lemma CommitKeepsLedger(server: Server, tid: nat)
    requires ServerOk(server) && CallEnabled(server, Inside(Commit(tid)))
    ensures LedgerOk(Serve(server, Inside(Commit(tid))).core.db) && TotalsZero(Serve(server, Inside(Commit(tid))).core)
  {
    var stamp := CommitIsTransfer(server, tid);
    var req, s := server.origin[tid], server.core;
    TransferKeepsLedger(s.db, Params(req), stamp);
    ConservedIffNegatable(s.db, Params(req), stamp, s.accountBound);
  }

  lemma CommitKeepsAccounts(s: State, tid: nat)
    requires TxsOk(s) && AccountsOk(s) && Enabled(s, Commit(tid))
    ensures AccountsOk(Apply(s, Commit(tid)))
  {
    var s', tx := Apply(s, Commit(tid)), s.txs[tid];
    assert AsIfAlone(s, tid);
    RunWrites(s.db, tx.prog, tx.ids, tx.now, |tx.ids|);
    forall id | id in s'.db.accounts
      ensures id in s.db.accounts && InInt64(s'.db.accounts[id].balance) && s'.db.accounts[id].id == id
      ensures s'.db.accounts[id].owner == s.db.accounts[id].owner
      ensures s'.db.accounts[id].currency == s.db.accounts[id].currency
    {
      var a, b := s.db.accounts[id].(balance := 0), s'.db.accounts[id].(balance := 0);
      assert a == b && a.owner == s.db.accounts[id].owner && a.currency == s.db.accounts[id].currency;
      assert a.id == s.db.accounts[id].id;
    }
  }

  lemma OpenKeepsTotals(s: State, account: Account)
    requires AccountsOk(s) && TotalsZero(s) && Enabled(s, OpenAccount(account)) && account.balance == 0
    ensures TotalsZero(Apply(s, OpenAccount(account)))
  {
    var s' := Apply(s, OpenAccount(account));
    forall currency
      ensures Total(s'.db.accounts, currency, s'.accountBound) == 0
    {
      TotalBeyond(s.db.accounts, currency, s.accountBound, s'.accountBound);
      TotalOpen(s.db.accounts, account, currency, s'.accountBound);
    }
  }

  lemma OpenKeepsAccounts(s: State, account: Account)
    requires AccountsOk(s) && Enabled(s, OpenAccount(account)) && IsSupportedCurrency(account.currency)
    ensures AccountsOk(Apply(s, OpenAccount(account)))
  {
  }

  /** The core step a call takes, if it takes one. */
  function CoreStep(server: Server, c: Call): Option<Action> {
    match c
    case Register(name) => Some(AddUser(name))
    case CreateAccount(username, currency, id, now) => Some(OpenAccount(NewAccount(username, currency, id, now)))
    case Start(h, now) => if h < |server.handlers| then Some(Begin(Body(Params(server.handlers[h].req)), now)) else None
    case Inside(a) => Some(a)
    case _ => None
  }

  lemma AuthorizationsKept(server: Server, c: Call)
    requires TxsOk(server.core) && CallEnabled(server, c)
    ensures var server' := Serve(server, c);
            forall req :: (FromOk(server.core.db.accounts, req) ==> FromOk(server'.core.db.accounts, req)) &&
                          (Authorized(server.core.db.accounts, req) ==> Authorized(server'.core.db.accounts, req))
  {
    if CoreStep(server, c).Some? {
      StepKeepsHolders(server.core, CoreStep(server, c).value);
    }
    forall req
      ensures FromOk(server.core.db.accounts, req) ==> FromOk(Serve(server, c).core.db.accounts, req)
      ensures Authorized(server.core.db.accounts, req) ==> Authorized(Serve(server, c).core.db.accounts, req)
    {
      AuthorizationKept(server.core.db, Serve(server, c).core.db, req);
    }
  }

  ghost predicate HandlersOk(server: Server) {
    forall h | h in server.handlers :: HandlerOk(server, h)
  }

  lemma ServeKeepsHandlers(server: Server, c: Call)
    requires TxsOk(server.core) && HandlersOk(server) && OriginsOk(server) && CallEnabled(server, c)
    ensures HandlersOk(Serve(server, c))
  {
    var server' := Serve(server, c);
    AuthorizationsKept(server, c);
    if c.CheckTo? || c.Start? {
      assert HandlerOk(server, server.handlers[c.h]);
    }
    forall h | h in server'.handlers
      ensures HandlerOk(server', h)
    {
      if h in server.handlers {
        assert HandlerOk(server, h);
      }
    }
  }

  lemma ServeKeepsOrigins(server: Server, c: Call)
    requires TxsOk(server.core) && HandlersOk(server) && OriginsOk(server) && CallEnabled(server, c)
    ensures OriginsOk(Serve(server, c))
  {
    var server' := Serve(server, c);
    AuthorizationsKept(server, c);
    ProgsKept(server, c);
    if c.Start? {
      assert HandlerOk(server, server.handlers[c.h]);
    }
    forall tid: nat | tid < |server'.origin|
      ensures Authorized(server'.core.db.accounts, server'.origin[tid])
      ensures server'.core.txs[tid].prog == Body(Params(server'.origin[tid]))
    {
    }
  }

  /** A call begins at most the transaction of its own handler, and rewrites no body. */
  lemma ProgsKept(server: Server, c: Call)
    requires |server.origin| == |server.core.txs| && CallEnabled(server, c)
    ensures var server' := Serve(server, c);
            && |server'.origin| == |server'.core.txs| && server.origin <= server'.origin
            && (forall tid: nat | tid < |server.core.txs| :: server'.core.txs[tid].prog == server.core.txs[tid].prog)
            && (|server'.origin| > |server.origin| ==>
                  && c.Start? && server'.origin == server.origin + [server.handlers[c.h].req]
                  && server'.core.txs[|server.origin|].prog == Body(Params(server.handlers[c.h].req)))
  {
  }

  /** What a call does to handler `h`: it stays, or it is the one the call moves on. */
  lemma HandlerStep(server: Server, c: Call, h: nat)
    requires |server.origin| == |server.core.txs| && CallEnabled(server, c) && h < |Serve(server, c).handlers|
    ensures var server' := Serve(server, c);
            || (h < |server.handlers| && server'.handlers[h] == server.handlers[h])
            || (c == Start(h, if c.Start? then c.now else 0) && server'.handlers[h].phase == Started(|server.origin|))
            || !server'.handlers[h].phase.Started?
    ensures h < |server.handlers| && server.handlers[h].phase.Started? ==>
              Serve(server, c).handlers[h] == server.handlers[h]
  {
  }

  lemma StartsInRangeStep(server: Server, c: Call)
    requires StartsInRange(server) && |server.origin| == |server.core.txs| && CallEnabled(server, c)
    ensures StartsInRange(Serve(server, c))
  {
    var server' := Serve(server, c);
    forall h: nat | h < |server'.handlers| && server'.handlers[h].phase.Started?
      ensures server'.handlers[h].phase.tid < |server'.origin|
    {
      HandlerStep(server, c, h);
    }
  }

  lemma StartsDistinctStep(server: Server, c: Call)
    requires StartsInRange(server) && StartsDistinct(server)
    requires |server.origin| == |server.core.txs| && CallEnabled(server, c)
    ensures StartsDistinct(Serve(server, c))
  {
    var server' := Serve(server, c);
    forall h: nat, k: nat | h < k < |server'.handlers| && server'.handlers[h].phase.Started?
      ensures server'.handlers[h].phase != server'.handlers[k].phase
    {
      HandlerStep(server, c, h);
      HandlerStep(server, c, k);
    }
  }

  lemma AllStartedStep(server: Server, c: Call)
    requires AllStarted(server) && |server.origin| == |server.core.txs| && CallEnabled(server, c)
    ensures AllStarted(Serve(server, c))
  {
    var server' := Serve(server, c);
    forall tid: nat | tid < |server'.origin|
      ensures HasStarter(server', tid)
    {
      if tid < |server.origin| {
        assert HasStarter(server, tid);
        var h: nat :| StartedBy(server, tid, h);
        HandlerStep(server, c, h);
        assert StartedBy(server', tid, h);
      } else {
        assert StartedBy(server', tid, c.h);
      }
    }
  }

  lemma ServeKeeps(server: Server, c: Call)
    requires ServerOk(server) && CallEnabled(server, c)
    ensures ServerOk(Serve(server, c))
  {
    var step := CoreStep(server, c);
    if step.Some? {
      InvStep(NO_ROWS_WRITTEN, server.core, step.value);
    }
    ServeKeepsHandlers(server, c);
    ServeKeepsOrigins(server, c);
    StartsInRangeStep(server, c);
    StartsDistinctStep(server, c);
    AllStartedStep(server, c);
    match c {
      case CreateAccount(username, currency, id, now) =>
        var account := NewAccount(username, currency, id, now);
        OpenKeepsAccounts(server.core, account);
        OpenKeepsLedger(server.core.db, account);
        OpenKeepsTotals(server.core, account);
      case Inside(a) =>
        if a.Commit? {
          CommitKeepsLedger(server, a.tid);
          CommitKeepsAccounts(server.core, a.tid);
        }
      case _ =>
    }
  }

  lemma {:induction false} CallsKeep(server: Server, calls: seq<Call>)
    requires ServerOk(server) && ValidCalls(server, calls)
    ensures ServerOk(After(server, calls))
    decreases |calls|
  {
    if calls != [] {
      ServeKeeps(server, calls[0]);
      CallsKeep(Serve(server, calls[0]), calls[1..]);
    }
  }

  lemma Reachable(calls: seq<Call>)
    requires ValidCalls(Fresh(), calls)
    ensures ServerOk(After(Fresh(), calls))
  {
    CallsKeep(Fresh(), calls);
  }

  // ----- what the handlers answer

  /** Which requests a handler takes up, and how it refuses the others, at the moment they arrive. */
  lemma ArriveAnswers(server: Server, req: Request)
    ensures var accounts := server.core.db.accounts;
            var server' := Serve(server, Arrive(req));
            var bound := req.from >= 1 && req.to >= 1 && req.amount > 0 &&
                         (req.currency == "USD" || req.currency == "EUR" || req.currency == "CAD");
            var same := req.from in accounts && accounts[req.from].currency == req.currency;
            var owned := same && accounts[req.from].owner == req.username;
            && server'.core == server.core && server'.origin == server.origin
            && |server'.handlers| == |server.handlers| + 1
            && server'.handlers[..|server.handlers|] == server.handlers
            && var h := server'.handlers[|server.handlers|];
               && h.req == req
               && (h.phase == FromChecked <==> bound && owned)
               && (h.phase == Refused(BadRequest) <==> !bound || (req.from in accounts && !same))
               && (h.phase == Refused(NotFound) <==> bound && req.from !in accounts)
               && (h.phase == Refused(Unauthorized) <==> bound && same && !owned)
  {
  }

  /** The second account is looked up whoever owns it, the source itself included. */
  lemma CheckToAnswers(server: Server, h: nat)
    requires h < |server.handlers| && server.handlers[h].phase == FromChecked
    ensures CallEnabled(server, CheckTo(h))
    ensures var accounts, req := server.core.db.accounts, server.handlers[h].req;
            var server' := Serve(server, CheckTo(h));
            && server'.core == server.core && server'.origin == server.origin
            && server'.handlers == server.handlers[h := Handler(req, server'.handlers[h].phase)]
            && (server'.handlers[h].phase == BothChecked <==>
                  req.to in accounts && accounts[req.to].currency == req.currency)
            && (server'.handlers[h].phase == Refused(BadRequest) <==>
                  req.to in accounts && accounts[req.to].currency != req.currency)
            && (server'.handlers[h].phase == Refused(NotFound) <==> req.to !in accounts)
  {
  }

  /** A checked request, and only a checked one, starts the transaction of exactly its two accounts and its amount. */
  lemma StartAnswers(server: Server, h: nat, now: int)
    requires h < |server.handlers|
    ensures CallEnabled(server, Start(h, now)) <==> server.handlers[h].phase == BothChecked
    ensures CallEnabled(server, Start(h, now)) ==>
              var req := server.handlers[h].req;
              var server' := Serve(server, Start(h, now));
              && server'.origin == server.origin + [req]
              && server'.core.db == server.core.db && server'.core.locks == server.core.locks
              && server'.core.txs == server.core.txs +
                   [Tx(Body(TransferParams(req.from, req.to, req.amount)), now, Running, [], NO_WORK)]
              && server'.handlers == server.handlers[h := Handler(req, Started(|server.core.txs|))]
  {
  }

  /** A registered user opens an empty account in each supported currency, once. */
  lemma OpensIff(server: Server, username: string, currency: string, id: int, now: int)
    ensures CallEnabled(server, CreateAccount(username, currency, id, now)) <==>
              && (currency == "USD" || currency == "EUR" || currency == "CAD")
              && username in server.core.users && id >= 1 && id !in server.core.db.accounts
              && !exists a :: a in server.core.db.accounts &&
                   server.core.db.accounts[a].owner == username && server.core.db.accounts[a].currency == currency
    ensures CallEnabled(server, CreateAccount(username, currency, id, now)) ==>
              Serve(server, CreateAccount(username, currency, id, now)).core.db ==
                server.core.db.(accounts := server.core.db.accounts[id := Account(id, username, 0, currency, now)])
  {
  }

  /** A username is registered once. */
  lemma RegistersIff(server: Server, name: string)
    ensures CallEnabled(server, Register(name)) <==> name !in server.core.users
    ensures CallEnabled(server, Register(name)) ==>
              Serve(server, Register(name)).core == server.core.(users := server.core.users + {name})
  {
  }

  // ----- main results

  /** In every observable state of every run of the API, the books balance: two entries per transfer, all entries sum to
      zero, each balance is the sum of its entries and of its transfers, and each currency totals zero. */
  lemma BooksBalance(calls: seq<Call>)
    requires ValidCalls(Fresh(), calls)
    ensures var s := After(Fresh(), calls).core;
            && DoubleEntry(s.db) && ForeignKeysOk(s.db) && Agrees(s.db)
            && EntryTotal(s.db.entries) == 0
            && forall currency :: Total(s.db.accounts, currency, s.accountBound) == 0
  {
    Reachable(calls);
    var db := After(Fresh(), calls).core.db;
    EntriesSumToZero(db.entries, db.transfers);
  }

  /** The checks a handler made before its transaction began still hold when the transaction commits: the money leaves
      an account of the caller, and both accounts have the requested currency. */
  lemma CheckedThenCommitted(calls: seq<Call>, tid: nat)
    requires ValidCalls(Fresh(), calls) && CallEnabled(After(Fresh(), calls), Inside(Commit(tid)))
    ensures var server := After(Fresh(), calls);
            && tid < |server.origin|
            && Authorized(server.core.db.accounts, server.origin[tid])
            && Authorized(Serve(server, Inside(Commit(tid))).core.db.accounts, server.origin[tid])
            && (var req := server.origin[tid];
                var after := Serve(server, Inside(Commit(tid))).core.db.accounts;
                && req.amount > 0 && req.from in after && req.to in after
                && after[req.from].owner == req.username
                && after[req.from].currency == req.currency == after[req.to].currency)
            && exists stamp :: Serve(server, Inside(Commit(tid))).core.db ==
                                 TransferSpec(server.core.db, Params(server.origin[tid]), stamp)
  {
    Reachable(calls);
    var server := After(Fresh(), calls);
    var stamp := CommitIsTransfer(server, tid);
    StepKeepsHolders(server.core, Commit(tid));
    AuthorizationKept(server.core.db, Serve(server, Inside(Commit(tid))).core.db, server.origin[tid]);
  }

  /** Every committed transfer belongs to one request that passed both checks, and no request moves money twice. */
  lemma AtMostOnce(calls: seq<Call>, i: nat)
    requires ValidCalls(Fresh(), calls)
    requires i < |After(Fresh(), calls).core.log| && After(Fresh(), calls).core.log[i].Applied?
    ensures var end := After(Fresh(), calls);
            exists h :: && 0 <= h < |end.handlers| && end.handlers[h].phase == Started(end.core.log[i].tid)
                        && Authorized(end.core.db.accounts, end.handlers[h].req)
                        && end.core.log[i].tx.prog == Body(Params(end.handlers[h].req))
                        && forall j | 0 <= j < |end.core.log| && end.core.log[j].Applied? && j != i ::
                             end.handlers[h].phase != Started(end.core.log[j].tid)
  {
    Reachable(calls);
    var end := After(Fresh(), calls);
    var tid: nat := end.core.log[i].tid;
    assert tid < |end.origin| && end.core.txs[tid] == end.core.log[i].tx;
    assert HasStarter(end, tid);
    var h: nat :| StartedBy(end, tid, h);
    assert end.handlers[h].req == end.origin[tid];
    forall j | 0 <= j < |end.core.log| && end.core.log[j].Applied? && j != i
      ensures end.core.log[j].tid != tid
    {
    }
  }

  /** Whatever requests arrive, the server never deadlocks. */
  lemma ServerNeverStuck(calls: seq<Call>)
    requires ValidCalls(Fresh(), calls)
    ensures !Stuck(After(Fresh(), calls).core)
  {
    Reachable(calls);
    var server := After(Fresh(), calls);
    forall tid: nat | tid < |server.core.txs|
      ensures Ascending(server.core.txs[tid].prog)
    {
      BodyAscends(Params(server.origin[tid]));
    }
    NotStuck(server.core);
  }

  /** How many of the calls are steps of transactions under way. */
  function InsideSteps(calls: seq<Call>): nat {
    if calls == [] then 0 else (if calls[0].Inside? then 1 else 0) + InsideSteps(calls[1..])
  }

  /** A call is its core step, if it has one, and leaves the core alone otherwise. */
  lemma CallProjects(server: Server, c: Call)
    requires CallEnabled(server, c)
    ensures match CoreStep(server, c)
            case Some(a) =>
              && Enabled(server.core, a) && Serve(server, c).core == Apply(server.core, a)
              && (a.Begin? ==> c.Start? && Ascending(a.prog)) && (IsTxStep(a) <==> c.Inside?)
            case None => Serve(server, c).core == server.core && !c.Inside?
  {
    if c.Start? {
      BodyAscends(Params(server.handlers[c.h].req));
    }
  }

  /** The core steps of a run of the API are a run of the transaction protocol that begins only transfers. */
  lemma {:induction false} CallsProject(server: Server, calls: seq<Call>) returns (run: seq<Action>)
    requires ValidCalls(server, calls)
    ensures ValidRun(server.core, run) && Final(server.core, run) == After(server, calls).core
    ensures AscendingRun(run) && TxSteps(run) == InsideSteps(calls)
    ensures (forall c | c in calls :: !c.Start?) ==> forall i | 0 <= i < |run| :: !run[i].Begin?
    decreases |calls|
  {
    if calls == [] {
      run := [];
    } else {
      CallProjects(server, calls[0]);
      var rest := CallsProject(Serve(server, calls[0]), calls[1..]);
      match CoreStep(server, calls[0]) {
        case Some(a) =>
          run := [a] + rest;
          assert run[1..] == rest;
        case None => run := rest;
      }
    }
  }

  /** Once no handler starts another transaction, the server takes a bounded number of transaction steps, and when none
      is left to take every request has been committed or rolled back and every lock is released. */
  lemma ServerDrains(calls: seq<Call>, more: seq<Call>)
    requires ValidCalls(Fresh(), calls) && ValidCalls(After(Fresh(), calls), more) && forall c | c in more :: !c.Start?
    ensures var mid, end := After(Fresh(), calls).core, After(After(Fresh(), calls), more).core;
            && InsideSteps(more) <= Measure(mid.txs)
            && (Quiet(end) ==> end.locks == {} && forall tid: nat | tid < |end.txs| :: !end.txs[tid].status.Running?)
  {
    var run := CallsProject(Fresh(), calls);
    var rest := CallsProject(After(Fresh(), calls), more);
    Termination(Fresh().core, run, rest);
  }

  /** Under any mix of concurrent requests, the `i`-th commit, if it is a transfer, moved exactly the money its request
      asked for, on the tables the earlier commits left, and the caller was told so. */
  lemma ServedSerially(calls: seq<Call>, i: nat)
    requires ValidCalls(Fresh(), calls)
    requires i < |After(Fresh(), calls).core.log| && After(Fresh(), calls).core.log[i].Applied?
    ensures var end := After(Fresh(), calls);
            var e, before := end.core.log[i], Replay(NO_ROWS_WRITTEN, end.core.log[..i]);
            && e.tid < |end.origin| && e.tid < |end.core.txs| && |e.tx.ids| == BODY_LENGTH
            && var arg, stamp := Params(end.origin[e.tid]), StampOf(e.tx.ids, e.tx.now);
               && Exist(before.accounts, arg)
               && Replay(NO_ROWS_WRITTEN, end.core.log[..i + 1]) == TransferSpec(before, arg, stamp)
               && ResultOf(arg, end.core.txs[e.tid].work.rows) == Some(ResultSpec(before, arg, stamp))
  {
    Reachable(calls);
    var end := After(Fresh(), calls);
    var run := CallsProject(Fresh(), calls);
    CommittedTransfer(Fresh().core, run, i, Params(end.origin[end.core.log[i].tid]));
  }
}
