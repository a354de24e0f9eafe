// The request handlers and the worker, run on the store from start to end.
module Handlers {
  import opened Wrappers
  import opened Http
  import opened Bank
  import opened Transfers
  import opened Users
  import opened Tokens
  import opened Sessions
  import opened SqlStore
  import opened Paging
  import opened Integers
  import opened Api
  import EmailProtocol

  /** The mail server: what it has sent, and whether it answers. */
  class Mailer {
    var sent: seq<EmailProtocol.Mail>
    var up: bool

    method SendEmail(mail: EmailProtocol.Mail) returns (ok: bool)
      modifies this`sent
      ensures ok == up
      ensures sent == if up then old(sent) + [mail] else old(sent)
    {
      ok := up;
      if up {
        sent := sent + [mail];
      }
    }
  }

  /** The status a failed lookup is answered with. */
  function LookupStatus(err: DbError): HttpStatus {
    if err.NoRows? then NotFound else InternalError
  }

  method ValidAccount(store: Store, id: int, currency: string) returns (r: Result<Account, HttpStatus>)
    modifies store.pool`left
    ensures store.pool.left == if old(store.pool.left) == 0 then 0 else old(store.pool.left) - 1
    ensures r == if old(store.pool.left) == 0 then Err(InternalError)
                 else Api.ValidAccount(store.pool.db.bank.accounts, id, currency)
  {
    var account, err := store.pool.GetAccount(id);
    if err.Some? {
      return Err(LookupStatus(err.value));
    }
    if account.value.currency != currency {
      return Err(BadRequest);
    }
    return Ok(account.value);
  }

  /** What createTransfer answers when the database answers. */
  function TransferStatus(accounts: map<int, Account>, req: Request): HttpStatus {
    match CheckFrom(accounts, req)
    case Err(status) => status
    case Ok(_) =>
      match Api.ValidAccount(accounts, req.to, req.currency)
      case Err(status) => status
      case Ok(_) => if CanTransfer(accounts, Params(req)) then StatusOk else InternalError
  }

  /** Which transfers are accepted, and why the others are refused. Nothing forbids a transfer to the same account. */
  lemma TransferAnswers(accounts: map<int, Account>, req: Request)
    ensures var status := TransferStatus(accounts, req);
            var bound := req.from >= 1 && req.to >= 1 && req.amount > 0 &&
                         (req.currency == "USD" || req.currency == "EUR" || req.currency == "CAD");
            var fromSame := req.from in accounts && accounts[req.from].currency == req.currency;
            var owned := fromSame && accounts[req.from].owner == req.username;
            var toSame := req.to in accounts && accounts[req.to].currency == req.currency;
            var least := if req.from in accounts then
                           accounts[req.from].balance - (if req.from == req.to then 0 else req.amount) else 0;
            var most := if req.to in accounts then accounts[req.to].balance + req.amount else 0;
            var fits := -9223372036854775808 <= least <= 9223372036854775807 &&
                        -9223372036854775808 <= most <= 9223372036854775807;
            && (status == StatusOk <==> bound && owned && toSame && fits)
            && (status == BadRequest <==>
                  !bound || (req.from in accounts && !fromSame) || (owned && req.to in accounts && !toSame))
            && (status == NotFound <==> bound && (req.from !in accounts || (owned && req.to !in accounts)))
            && (status == Unauthorized <==> bound && fromSame && !owned)
            && (status == InternalError <==> bound && owned && toSame && !fits)
  {
    assert InInt64(req.amount);
  }

  /** createTransfer moves the money exactly when it answers 200, and then between accounts it has checked. */
  method CreateTransfer(store: Store, req: Request) returns (status: HttpStatus, result: Option<TransferResult>)
    modifies store.pool
    ensures old(store.pool.left) >= 9 ==> status == TransferStatus(old(store.pool.db).bank.accounts, req)
    ensures var accounts, left := old(store.pool.db).bank.accounts, old(store.pool.left);
            status == if !BindingOk(req) then BadRequest
                      else if left == 0 then InternalError
                      else if CheckFrom(accounts, req).Err? then CheckFrom(accounts, req).error
                      else if left == 1 then InternalError
                      else if Api.ValidAccount(accounts, req.to, req.currency).Err?
                      then Api.ValidAccount(accounts, req.to, req.currency).error
                      else if left >= 9 && CanTransfer(accounts, Params(req)) then StatusOk
                      else InternalError
    ensures status.StatusOk? ==> Authorized(old(store.pool.db).bank.accounts, req)
    ensures var before, stamp := old(store.pool.db), Stamp(old(store.pool.seqs).transfer, old(store.pool.seqs).entry,
                                                           old(store.pool.seqs).entry + 1, store.pool.now);
            if status.StatusOk? then
              && CanTransfer(before.bank.accounts, Params(req))
              && store.pool.db == before.(bank := TransferSpec(before.bank, Params(req), stamp))
              && result == Some(ResultSpec(before.bank, Params(req), stamp))
            else
              store.pool.db == before && result == None
    ensures status.StatusOk? ==>
              var accounts := old(store.pool.db).bank.accounts;
              && req.from in accounts && req.to in accounts && result.Some?
              && accounts[req.from].owner == req.username && req.amount > 0
              && accounts[req.from].currency == req.currency == accounts[req.to].currency
              && result.value.transfer.from == req.from == result.value.fromEntry.account
              && result.value.transfer.to == req.to == result.value.toEntry.account
              && result.value.transfer.amount == req.amount == result.value.toEntry.amount
              && result.value.fromEntry.amount == 0 - req.amount
              && result.value.toAccount == accounts[req.to].(balance := accounts[req.to].balance + req.amount)
              && result.value.fromAccount == accounts[req.from].(
                   balance := accounts[req.from].balance - if req.from == req.to then 0 else req.amount)
    ensures old(store.Valid()) ==> store.Valid()
  {
    result := None;
    if !BindingOk(req) {
      return BadRequest, None;
    }
    var from := ValidAccount(store, req.from, req.currency);
    if from.Err? {
      return from.error, None;
    }
    if from.value.owner != req.username {
      return Unauthorized, None;
    }
    var to := ValidAccount(store, req.to, req.currency);
    if to.Err? {
      return to.error, None;
    }
    var transfer, err := store.TransferTx(Params(req));
    if err.Some? {
      return InternalError, None;
    }
    return StatusOk, Some(transfer);
  }

  /** createAccount opens an account with nothing on it, at most one per owner and supported currency. */
  method CreateAccount(store: Store, username: string, currency: string) returns (status: HttpStatus)
    modifies store.pool
    ensures old(store.pool.left) > 0 ==>
              var accounts := old(store.pool.db).bank.accounts;
              status == if currency != "USD" && currency != "EUR" && currency != "CAD" then BadRequest
                        else if username in old(store.pool.db).users &&
                                forall id | id in accounts ::
                                  accounts[id].owner != username || accounts[id].currency != currency
                        then StatusOk
                        else Forbidden
    ensures old(store.pool.left) == 0 ==>
              status == if currency != "USD" && currency != "EUR" && currency != "CAD" then BadRequest
                        else InternalError
    ensures store.pool.db ==
              if status.StatusOk? then
                WithAccounts(old(store.pool.db), old(store.pool.db).bank.accounts[
                  old(store.pool.seqs).account :=
                    Account(old(store.pool.seqs).account, username, 0, currency, store.pool.now)])
              else old(store.pool.db)
    ensures old(store.Valid()) ==> store.Valid()
  {
    if !IsSupportedCurrency(currency) {
      return BadRequest;
    }
    ghost var db, seqs := store.pool.db, store.pool.seqs;
    var account, err := store.pool.CreateAccount(username, 0, currency);
    if err.Some? {
      return if err.value.ForeignKeyViolation? || err.value.UniqueViolation? then Forbidden else InternalError;
    }
    if Consistent(db, seqs) {
      assert !HasAccount(db.bank.accounts, username, currency);
      OpenKeepsConsistent(db, seqs, account);
    }
    return StatusOk;
  }

  /** One attempt at a task. Every attempt that finds the user leaves a new unused code behind, and a mail goes out only
      after its code is committed, with that code, to the address on the row. */
  method ProcessTaskSendVerifyEmail(store: Store, mailer: Mailer, username: string, secretCode: string)
    returns (ok: bool)
    modifies store.pool, mailer`sent
    ensures var before, now, id := old(store.pool.db), store.pool.now, old(store.pool.seqs).email;
            var found := old(store.pool.left) >= 2 && username in before.users &&
                         before.users[username].username in before.users;
            && (ok <==> found && mailer.up)
            && (found ==>
                  var user := before.users[username];
                  var row := VerifyEmail(id, user.username, user.email, secretCode, false, now, now + 900);
                  && store.pool.db == before.(emails := before.emails[id := row])
                  && mailer.sent == old(mailer.sent) +
                       if mailer.up then [EmailProtocol.Mail(row.email, row.username, row.id, row.secretCode)] else [])
            && (!found ==> store.pool.db == before && mailer.sent == old(mailer.sent))
    ensures old(store.Valid()) ==>
              (ok <==> old(store.pool.left) >= 2 && username in old(store.pool.db).users && mailer.up)
    ensures old(store.Valid()) ==> store.Valid()
  {
    ghost var db, seqs := store.pool.db, store.pool.seqs;
    var user, err := store.pool.GetUser(username);
    if err.Some? {
      return false;
    }
    var verifyEmail;
    verifyEmail, err := store.pool.CreateVerifyEmail(user.value.username, user.value.email, secretCode);
    if err.Some? {
      return false;
    }
    if Consistent(db, seqs) {
      CodeKeepsConsistent(db, seqs, verifyEmail);
    }
    ok := mailer.SendEmail(
      EmailProtocol.Mail(user.value.email, user.value.username, verifyEmail.id, verifyEmail.secretCode));
  }

  datatype RpcStatus =
    RpcOk | Unauthenticated | InvalidArgument | PermissionDenied | AlreadyExists | RpcNotFound | RpcInternal

  /** What a caller signs up with. */
  datatype SignUpRequest = SignUpRequest(username: string, password: string, fullName: string, email: string)

  /** The gRPC sign-up: the row stored holds the hash of the password and every other field as given, and its task is
      enqueued; or nothing is stored. `valid` is the verdict of the field validators. */
  method CreateUser(store: Store, distributor: Distributor, req: SignUpRequest, valid: bool) returns (status: RpcStatus)
    modifies store.pool, distributor`tasks
    ensures var users := old(store.pool.db).users;
            var taken := req.username in users || exists name | name in users :: users[name].email == req.email;
            status == if !valid then InvalidArgument
                      else if old(store.pool.left) < 3 then RpcInternal
                      else if taken then AlreadyExists
                      else if distributor.up then RpcOk
                      else RpcInternal
    ensures store.pool.left <= old(store.pool.left) <= store.pool.left + 3
    ensures store.pool.db == if status != RpcOk then old(store.pool.db) else
              old(store.pool.db).(users := old(store.pool.db).users[req.username :=
                User(req.username, HashPassword(req.password), req.fullName, req.email,
                     0, store.pool.now, false, "depositor")])
    ensures status == RpcOk ==> distributor.tasks == old(distributor.tasks) + [req.username]
    ensures old(store.Valid()) ==> store.Valid()
  {
    if !valid {
      return InvalidArgument;
    }
    var hashed := HashPassword(req.password);
    var user, err := store.CreateUserTx(CreateUserParams(req.username, hashed, req.fullName, req.email), distributor);
    if err.Some? {
      return if err.value.UniqueViolation? then AlreadyExists else RpcInternal;
    }
    return RpcOk;
  }

  /** authorizeUser with the two roles UpdateUser admits. */
  function AuthorizeUser(maker: Maker, token: Token, now: int): Option<Payload> {
    match VerifyToken(maker, token, AccessToken, now)
    case Err(_) => None
    case Ok(payload) => if payload.role == BANKER || payload.role == DEPOSITOR then Some(payload) else None
  }

  /** The role and the name on the token permit changing this row. */
  predicate MayUpdate(auth: Payload, username: string) {
    auth.role == BANKER || (auth.role == DEPOSITOR && auth.username == username)
  }

  /** What UpdateUser answers when the database answers; `valid` is the verdict of the field validators. */
  function UpdateStatus(users: map<string, User>, auth: Option<Payload>, valid: bool, req: UpdateRequest): RpcStatus {
    if auth.None? then Unauthenticated
    else if !valid then InvalidArgument
    else if !MayUpdate(auth.value, req.username) then PermissionDenied
    else if req.username !in users then RpcNotFound
    else if req.email.Some? && EmailTaken(users, req.email.value, req.username) then RpcInternal
    else RpcOk
  }

  /** Who may change what: with an unexpired access token of the server, a banker any row, a depositor its own. */
  lemma UpdateAnswers(users: map<string, User>, maker: Maker, token: Token, now: int, valid: bool, req: UpdateRequest)
    ensures var status := UpdateStatus(users, AuthorizeUser(maker, token, now), valid, req);
            var genuine := token.Sealed? && token.key == maker.key && token.payload.tokenType == AccessToken &&
                           now <= token.payload.expiredAt &&
                           (token.payload.role == "banker" || token.payload.role == "depositor");
            var own := genuine && (token.payload.role == "banker" || token.payload.username == req.username);
            var free := req.email.None? ||
                        forall name | name in users :: name == req.username || users[name].email != req.email.value;
            && (status == RpcOk <==> own && valid && req.username in users && free)
            && (status == Unauthenticated <==> !genuine)
            && (status == InvalidArgument <==> genuine && !valid)
            && (status == PermissionDenied <==> genuine && valid && !own)
            && (status == RpcNotFound <==> own && valid && req.username !in users)
            && (status == RpcInternal <==> own && valid && req.username in users && !free)
  {
  }

  /** The row a profile update leaves. */
  function Updated(user: User, req: UpdateRequest, now: int): User {
    ApplyUpdate(user, BuildUpdate(req, if req.password.Some? then HashPassword(req.password.value) else "", now))
  }

  /** Column by column: exactly the fields that are set change, a new password together with its date; the verified flag
      and the role are out of reach. */
  lemma UpdatedColumns(user: User, req: UpdateRequest, now: int)
    ensures var row := Updated(user, req, now);
            && row.username == user.username && row.createdAt == user.createdAt
            && row.isEmailVerified == user.isEmailVerified && row.role == user.role
            && (req.password.Some? ==>
                  row.hashedPassword == HashPassword(req.password.value) && row.passwordChangedAt == now)
            && (req.password.None? ==>
                  row.hashedPassword == user.hashedPassword && row.passwordChangedAt == user.passwordChangedAt)
            && row.fullName == (if req.fullName.Some? then req.fullName.value else user.fullName)
            && row.email == (if req.email.Some? then req.email.value else user.email)
  {
  }

  /** A profile update that finds its user and a free address leaves a consistent database consistent. */
  lemma UpdateEnds(db: Database, seqs: Sequences, req: UpdateRequest, now: int)
    requires req.username in db.users
    requires req.email.Some? ==> !EmailTaken(db.users, req.email.value, req.username)
    ensures Consistent(db, seqs) ==>
              Consistent(db.(users := db.users[req.username := Updated(db.users[req.username], req, now)]), seqs)
  {
    if Consistent(db, seqs) {
      UpdatedColumns(db.users[req.username], req, now);
      UserKeepsConsistent(db, seqs, Updated(db.users[req.username], req, now));
    }
  }

  /** The gRPC profile update: with an unexpired access token, a depositor may change only its own row, a banker any;
      UpdatedColumns says what changes. */
  method UpdateUser(store: Store, maker: Maker, token: Token, valid: bool, req: UpdateRequest)
    returns (status: RpcStatus)
    modifies store.pool
    ensures old(store.pool.left) > 0 ==>
              status == UpdateStatus(old(store.pool.db).users, AuthorizeUser(maker, token, store.pool.now), valid, req)
    ensures old(store.pool.left) == 0 ==>
              var auth := AuthorizeUser(maker, token, store.pool.now);
              status == if auth.None? then Unauthenticated
                        else if !valid then InvalidArgument
                        else if !MayUpdate(auth.value, req.username) then PermissionDenied
                        else RpcInternal
    ensures store.pool.left <= old(store.pool.left) <= store.pool.left + 1
    ensures status == RpcOk ==>
              && token.Sealed? && token.key == maker.key && token.payload.tokenType == AccessToken
              && store.pool.now <= token.payload.expiredAt && valid
              && (token.payload.role == "banker" ||
                  (token.payload.role == "depositor" && token.payload.username == req.username))
    ensures status == RpcOk ==> req.username in old(store.pool.db).users
    ensures store.pool.db == if status != RpcOk then old(store.pool.db) else
              old(store.pool.db).(users := old(store.pool.db).users[req.username :=
                Updated(old(store.pool.db).users[req.username], req, store.pool.now)])
    ensures old(store.Valid()) ==> store.Valid()
  {
    ghost var db, seqs := store.pool.db, store.pool.seqs;
    var auth := AuthorizeUser(maker, token, store.pool.now);
    if auth.None? {
      return Unauthenticated;
    }
    if !valid {
      return InvalidArgument;
    }
    if auth.value.role != BANKER && auth.value.username != req.username {
      return PermissionDenied;
    }
    var update := UserUpdate(None, None, req.fullName, req.email, None);
    if req.password.Some? {
      var hashed := HashPassword(req.password.value);
      update := update.(hashedPassword := Some(hashed), passwordChangedAt := Some(store.pool.now));
    }
    if req.username in db.users {
      assert ApplyUpdate(db.users[req.username], update) == Updated(db.users[req.username], req, store.pool.now);
    }
    var user, err := store.pool.UpdateUser(req.username, update);
    if err.Some? {
      return if err.value.NoRows? then RpcNotFound else RpcInternal;
    }
    UpdateEnds(db, seqs, req, store.pool.now);
    return RpcOk;
  }

  datatype LoginResponse = LoginResponse(sessionId: int, accessToken: Token, refreshToken: Token)

  /** Login hands out tokens exactly to who knows the password of a stored user, and only after the session row that
      agrees with the refresh token is stored. `id` and `id + 1` are the fresh UUIDs of the two tokens. */
  method LoginUser(store: Store, config: Config, username: string, password: string, userAgent: string,
                   clientIp: string, id: int)
    returns (r: Result<LoginResponse, HttpStatus>)
    modifies store.pool
    ensures r.Ok? <==>
              && old(store.pool.left) >= 2 && username in old(store.pool.db).users
              && CheckPassword(password, old(store.pool.db).users[username].hashedPassword)
              && old(store.pool.db).users[username].username in old(store.pool.db).users
              && id + 1 !in old(store.pool.db).sessions
    ensures if r.Ok? then
              var user := old(store.pool.db).users[username];
              var now := store.pool.now;
              var access := NewPayload(id, user.username, user.role, config.accessDuration, AccessToken, now);
              var refresh := NewPayload(id + 1, user.username, user.role, config.refreshDuration, RefreshToken, now);
              && r.value == LoginResponse(id + 1, CreateToken(config.maker, access), CreateToken(config.maker, refresh))
              && access == Payload(id, AccessToken, user.username, user.role, now, now + config.accessDuration)
              && refresh == Payload(id + 1, RefreshToken, user.username, user.role, now, now + config.refreshDuration)
              && store.pool.db == old(store.pool.db).(sessions := old(store.pool.db).sessions[
                   id + 1 := Session(id + 1, user.username, Sealed(config.maker.key, refresh), userAgent, clientIp,
                                     false, now + config.refreshDuration, now)])
            else store.pool.db == old(store.pool.db)
    ensures old(store.pool.left) == 0 ==> r == Err(InternalError)
    ensures old(store.pool.left) >= 1 && r.Err? ==>
              r.error == if username !in old(store.pool.db).users then NotFound
                         else if !CheckPassword(password, old(store.pool.db).users[username].hashedPassword)
                         then Unauthorized
                         else InternalError
    ensures old(store.Valid()) ==>
              && (r.Ok? <==>
                    && old(store.pool.left) >= 2 && username in old(store.pool.db).users
                    && CheckPassword(password, old(store.pool.db).users[username].hashedPassword)
                    && id + 1 !in old(store.pool.db).sessions)
              && (r.Ok? ==>
                    r.value.accessToken.Sealed? && r.value.accessToken.payload.username == username &&
                    store.pool.db.sessions[id + 1].username == username)
    ensures old(store.Valid()) ==> store.Valid()
  {
    var user, err := store.pool.GetUser(username);
    if err.Some? {
      return Err(LookupStatus(err.value));
    }
    if !CheckPassword(password, user.value.hashedPassword) {
      return Err(Unauthorized);
    }
    var name, role, now := user.value.username, user.value.role, store.pool.now;
    var access := NewPayload(id, name, role, config.accessDuration, AccessToken, now);
    var refresh := NewPayload(id + 1, name, role, config.refreshDuration, RefreshToken, now);
    var session := SessionRow(config.maker, refresh, userAgent, clientIp, store.pool.now);
    err := store.pool.CreateSession(session);
    if err.Some? {
      return Err(InternalError);
    }
    return Ok(LoginResponse(session.id, CreateToken(config.maker, access), CreateToken(config.maker, refresh)));
  }

  // ----- the password chosen is the password needed

  /** Whoever signs up can log in with the chosen password and with no other. */
  method SignUpThenLogIn(store: Store, distributor: Distributor, config: Config, req: SignUpRequest, attempt: string,
                         userAgent: string, clientIp: string, id: int)
    returns (status: RpcStatus, r: Result<LoginResponse, HttpStatus>)
    modifies store.pool, distributor`tasks
    ensures status == RpcOk && old(store.pool.left) >= 5 && id + 1 !in old(store.pool.db).sessions ==>
              && (r.Ok? <==> attempt == req.password)
              && (r.Err? ==> r.error == Unauthorized)
  {
    status := CreateUser(store, distributor, req, true);
    PasswordMeaning(req.password, attempt);
    r := LoginUser(store, config, req.username, attempt, userAgent, clientIp, id);
  }

  /** Whoever changes the password can log in with the new one and with no other; whoever changes something else logs in
      as before. */
  method UpdateThenLogIn(store: Store, config: Config, token: Token, req: UpdateRequest, password: string,
                         attempt: string, userAgent: string, clientIp: string, id: int)
    returns (status: RpcStatus, r: Result<LoginResponse, HttpStatus>)
    requires req.username in store.pool.db.users && store.pool.db.users[req.username].username == req.username
    requires store.pool.db.users[req.username].hashedPassword == HashPassword(password)
    modifies store.pool
    ensures status == RpcOk && old(store.pool.left) >= 3 && id + 1 !in old(store.pool.db).sessions ==>
              (r.Ok? <==> attempt == if req.password.Some? then req.password.value else password)
  {
    ghost var user := store.pool.db.users[req.username];
    status := UpdateUser(store, config.maker, token, true, req);
    UpdatedColumns(user, req, store.pool.now);
    PasswordMeaning(if req.password.Some? then req.password.value else password, attempt);
    r := LoginUser(store, config, req.username, attempt, userAgent, clientIp, id);
  }

  // ----- listing

  /** listAccounts: 400 for a page number below 1 or a size outside 5 to 10, 500 for an offset that wrapped below zero,
      and otherwise the rows that LIMIT and OFFSET select. */
  method ListAccounts(store: Store, username: string, pageId: int, pageSize: int)
    returns (status: HttpStatus, items: seq<Account>)
    requires InInt32(pageId) && InInt32(pageSize)
    modifies store.pool`left
    ensures old(store.pool.left) == 0 ==>
              status == if pageId < 1 || pageSize < 5 || pageSize > 10 then BadRequest else InternalError
    ensures old(store.pool.left) > 0 ==>
              && (status == BadRequest <==> pageId < 1 || pageSize < 5 || pageSize > 10)
              && (status == InternalError <==>
                    pageId >= 1 && 5 <= pageSize <= 10 && Wrap32((pageId - 1) * pageSize) < 0)
              && (status == BadRequest || status == InternalError || status == StatusOk)
    ensures status == StatusOk ==>
              && old(store.pool.left) > 0 && PageOk(pageId, pageSize)
              && Some(items) ==
                   ListPage(store.pool.db.bank.accounts, store.pool.seqs.account, username, pageId, pageSize)
  {
    items := [];
    if !PageOk(pageId, pageSize) {
      return BadRequest, [];
    }
    var rows, err := store.pool.ListAccounts(username, pageSize, Offset(pageId, pageSize));
    if err.Some? {
      return InternalError, [];
    }
    return StatusOk, rows;
  }
}
