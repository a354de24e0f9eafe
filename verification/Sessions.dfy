// Login, sessions and renewal of access tokens, statement by statement, over every run and with an adversary that
// replays any token it has seen.
module Sessions {
  import opened Wrappers
  import opened Http
  import opened Tokens

  datatype Session = Session(
    id: int, username: string, refreshToken: Token, userAgent: string, clientIp: string,
    isBlocked: bool, expiresAt: int, createdAt: int)

  /** The session row for a refresh token. */
  function SessionRow(maker: Maker, payload: Payload, userAgent: string, clientIp: string, now: int): Session {
    Session(payload.id, payload.username, CreateToken(maker, payload), userAgent, clientIp, false, payload.expiredAt,
            now)
  }

  /** A user as login sees it; `password` stands for the bcrypt hash that only it matches. */
  datatype Credential = Credential(password: string, role: string)

  /** loginUser: the user row is read and the password checked, two tokens are created, the session row is stored. */
  datatype LoginPhase =
    | Loaded
    | AccessMinted(access: Payload)
    | BothMinted(access: Payload, refresh: Payload)
    | LoggedIn

  /** `began` is when the user row was read, and `role` what it said. */
  datatype LoginHandler = LoginHandler(
    username: string, role: string, began: int, userAgent: string, clientIp: string, phase: LoginPhase)

  /** renewAccessToken: the token is verified, the session row read and checked, a new access token created. */
  datatype RenewPhase = Verified | Cleared | Renewed | Refused(status: HttpStatus)

  /** `began` is when the refresh token was verified. */
  datatype RenewHandler = RenewHandler(token: Token, began: int, phase: RenewPhase)

  /** A successful login, remembered for the statements below; `time` is when it read the user row. */
  datatype Login = Login(username: string, role: string, time: int, sessionId: int)

  datatype Config = Config(maker: Maker, accessDuration: int, refreshDuration: int)

  /** `released` holds the tokens ever handed out; `blockedAt` when a session was blocked; `patience` bounds how long a
      handler is at work, and may be any number. */
  datatype State = State(
    config: Config, patience: nat, clock: int, users: map<string, Credential>, sessions: map<int, Session>, nextId: nat,
    released: set<Token>, loginHandlers: seq<LoginHandler>, renewHandlers: seq<RenewHandler>, logins: seq<Login>,
    blockedAt: map<int, int>)

  /** The first four are the clock's and the administrator's, the others the steps of the two handlers. */
  datatype Action =
    | Tick(d: nat)
    | AddUser(username: string, credential: Credential)
    | SetCredential(username: string, credential: Credential)
    | Block(sessionId: int)
    | BeginLogin(username: string, password: string, userAgent: string, clientIp: string)
    | MintAccess(k: nat)
    | MintRefresh(k: nat)
    | StoreSession(k: nat)
    | BeginRenew(token: Token)
    | ReadSession(k: nat)
    | MintRenewed(k: nat)

  /** The checks of renewAccessToken on the session row, in the order it makes them. */
  function SessionCheck(sessions: map<int, Session>, payload: Payload, token: Token, now: int): Option<HttpStatus> {
    if payload.id !in sessions then Some(NotFound)
    else
      var session := sessions[payload.id];
      if session.isBlocked then Some(Unauthorized)
      else if session.username != payload.username then Some(Unauthorized)
      else if session.refreshToken != token then Some(Unauthorized)
      else if now > session.expiresAt then Some(Unauthorized)
      else None
  }

  /** What the five checks on the session row amount to, whatever the row. */
  lemma SessionCheckIff(sessions: map<int, Session>, payload: Payload, token: Token, now: int)
    ensures var r := SessionCheck(sessions, payload, token, now);
            && (r == Some(NotFound) <==> payload.id !in sessions)
            && (r == None <==>
                  && payload.id in sessions && !sessions[payload.id].isBlocked
                  && sessions[payload.id].username == payload.username && sessions[payload.id].refreshToken == token
                  && now <= sessions[payload.id].expiresAt)
            && (r.Some? && r.value != NotFound ==> r.value == Unauthorized)
  {
  }

  /** The whole chain of checks of renewAccessToken, made at one moment. */
  function RenewCheck(maker: Maker, sessions: map<int, Session>, token: Token, now: int): Result<Payload, HttpStatus> {
    match VerifyToken(maker, token, RefreshToken, now)
    case Err(_) => Err(Unauthorized)
    case Ok(payload) =>
      match SessionCheck(sessions, payload, token, now)
      case Some(status) => Err(status)
      case None => Ok(payload)
  }

  /** The middleware of both servers accepts a bearer token. */
  predicate Accepted(s: State, token: Token) {
    VerifyToken(s.config.maker, token, AccessToken, s.clock).Ok?
  }

  /** Tokens under the server's key cannot be forged, only replayed. */
  predicate Presentable(s: State, token: Token) {
    token.Sealed? && token.key == s.config.maker.key ==> token in s.released
  }

  predicate PasswordMatches(s: State, username: string, password: string) {
    username in s.users && s.users[username].password == password
  }

  /** The handler is still waited for. */
  predicate Timely(s: State, began: int) {
    s.clock <= began + s.patience
  }

  predicate LoginAt(s: State, k: nat) {
    k < |s.loginHandlers| && Timely(s, s.loginHandlers[k].began)
  }

  predicate RenewAt(s: State, k: nat) {
    k < |s.renewHandlers| && Timely(s, s.renewHandlers[k].began)
  }

  predicate Enabled(s: State, a: Action) {
    match a
    case Tick(d) => true
    case AddUser(username, _) => username !in s.users
    case SetCredential(username, _) => username in s.users
    case Block(sessionId) => sessionId in s.sessions && !s.sessions[sessionId].isBlocked
    case BeginLogin(username, password, _, _) => PasswordMatches(s, username, password)
    case MintAccess(k) => LoginAt(s, k) && s.loginHandlers[k].phase.Loaded?
    case MintRefresh(k) => LoginAt(s, k) && s.loginHandlers[k].phase.AccessMinted?
    case StoreSession(k) =>
      LoginAt(s, k) && s.loginHandlers[k].phase.BothMinted? && s.loginHandlers[k].phase.refresh.id !in s.sessions
    case BeginRenew(token) => Presentable(s, token) && VerifyToken(s.config.maker, token, RefreshToken, s.clock).Ok?
    case ReadSession(k) => RenewAt(s, k) && s.renewHandlers[k].phase.Verified? && s.renewHandlers[k].token.Sealed?
    case MintRenewed(k) => RenewAt(s, k) && s.renewHandlers[k].phase.Cleared? && s.renewHandlers[k].token.Sealed?
  }

  /** A payload minted now. */
  function Mint(s: State, username: string, role: string, tokenType: TokenType): Payload {
    var duration := if tokenType.AccessToken? then s.config.accessDuration else s.config.refreshDuration;
    NewPayload(s.nextId, username, role, duration, tokenType, s.clock)
  }

  function RenewedPayload(s: State, payload: Payload): Payload {
    Mint(s, payload.username, payload.role, AccessToken)
  }

  function ToLoginPhase(s: State, k: nat, phase: LoginPhase): seq<LoginHandler>
    requires k < |s.loginHandlers|
  {
    s.loginHandlers[k := s.loginHandlers[k].(phase := phase)]
  }

  function ToRenewPhase(s: State, k: nat, phase: RenewPhase): seq<RenewHandler>
    requires k < |s.renewHandlers|
  {
    s.renewHandlers[k := s.renewHandlers[k].(phase := phase)]
  }

  function Apply(s: State, a: Action): State
    requires Enabled(s, a)
  {
    match a
    case Tick(d) => s.(clock := s.clock + d)
    case AddUser(username, credential) => s.(users := s.users[username := credential])
    case SetCredential(username, credential) => s.(users := s.users[username := credential])
    case Block(sessionId) =>
      s.(sessions := s.sessions[sessionId := s.sessions[sessionId].(isBlocked := true)],
         blockedAt := s.blockedAt[sessionId := s.clock])
    case BeginLogin(username, _, userAgent, clientIp) =>
      var handler := LoginHandler(username, s.users[username].role, s.clock, userAgent, clientIp, Loaded);
      s.(loginHandlers := s.loginHandlers + [handler])
    case MintAccess(k) =>
      var h := s.loginHandlers[k];
      s.(loginHandlers := ToLoginPhase(s, k, AccessMinted(Mint(s, h.username, h.role, AccessToken))),
         nextId := s.nextId + 1)
    case MintRefresh(k) =>
      var h := s.loginHandlers[k];
      s.(loginHandlers := ToLoginPhase(s, k, BothMinted(h.phase.access, Mint(s, h.username, h.role, RefreshToken))),
         nextId := s.nextId + 1)
    case StoreSession(k) =>
      var h := s.loginHandlers[k];
      var session := SessionRow(s.config.maker, h.phase.refresh, h.userAgent, h.clientIp, s.clock);
      s.(sessions := s.sessions[session.id := session],
         released := s.released + {CreateToken(s.config.maker, h.phase.access), session.refreshToken},
         logins := s.logins + [Login(h.username, h.role, h.began, session.id)],
         loginHandlers := ToLoginPhase(s, k, LoggedIn))
    case BeginRenew(token) => s.(renewHandlers := s.renewHandlers + [RenewHandler(token, s.clock, Verified)])
    case ReadSession(k) =>
      var token := s.renewHandlers[k].token;
      var phase := match SessionCheck(s.sessions, token.payload, token, s.clock)
                   case Some(status) => Refused(status)
                   case None => Cleared;
      s.(renewHandlers := ToRenewPhase(s, k, phase))
    case MintRenewed(k) =>
      var payload := RenewedPayload(s, s.renewHandlers[k].token.payload);
      s.(released := s.released + {CreateToken(s.config.maker, payload)}, nextId := s.nextId + 1,
         renewHandlers := ToRenewPhase(s, k, Renewed))
  }

  predicate ValidRun(s: State, run: seq<Action>)
    decreases |run|
  {
    run == [] || (Enabled(s, run[0]) && ValidRun(Apply(s, run[0]), run[1..]))
  }

  function Final(s: State, run: seq<Action>): State
    requires ValidRun(s, run)
    decreases |run|
  {
    if run == [] then s else Final(Apply(s, run[0]), run[1..])
  }

  function Init(config: Config, patience: nat, clock: int): State {
    State(config, patience, clock, map[], map[], 0, {}, [], [], [], map[])
  }

  // ----- the invariant

  function Max(a: int, b: int): int {
    if a >= b then a else b
  }

  /** A payload of the given kind, for the user and role of a login that began at `began`. */
  predicate MintedFor(s: State, p: Payload, tokenType: TokenType, username: string, role: string, began: int) {
    && p.tokenType == tokenType && p.username == username && p.role == role
    && began <= p.issuedAt <= s.clock && p.issuedAt <= began + s.patience
    && p.expiredAt == p.issuedAt + if tokenType.AccessToken? then s.config.accessDuration else s.config.refreshDuration
  }

  predicate LoginOk(s: State, h: LoginHandler) {
    && h.began <= s.clock
    && (h.phase.AccessMinted? || h.phase.BothMinted? ==>
          MintedFor(s, h.phase.access, AccessToken, h.username, h.role, h.began))
    && (h.phase.BothMinted? ==> MintedFor(s, h.phase.refresh, RefreshToken, h.username, h.role, h.began))
  }

  /** A renewal under way has a released refresh token that had not expired when it began; one that has passed the check
      began before its session was blocked. */
  predicate RenewOk(s: State, h: RenewHandler) {
    && h.began <= s.clock
    && h.token in s.released && h.token.Sealed? && h.token.payload.tokenType.RefreshToken?
    && h.began <= h.token.payload.expiredAt
    && (h.phase.Cleared? && h.token.payload.id in s.blockedAt ==> h.began <= s.blockedAt[h.token.payload.id])
  }

  /** The access token `p` goes back to login `l`: minted by it, or renewed by a handler that began while the refresh
      token of `l` was valid and its session not blocked. */
  predicate AccessFrom(s: State, p: Payload, l: Login) {
    && p.username == l.username && p.role == l.role
    && l.time <= p.issuedAt <= l.time + Max(0, s.config.refreshDuration) + 2 * s.patience
    && p.issuedAt <= s.clock
    && p.expiredAt == p.issuedAt + s.config.accessDuration
    && (l.sessionId in s.blockedAt ==> p.issuedAt <= s.blockedAt[l.sessionId] + s.patience)
  }

  /** The refresh token `p` was minted by login `l`. */
  predicate RefreshFrom(s: State, p: Payload, l: Login) {
    p.id == l.sessionId && MintedFor(s, p, RefreshToken, l.username, l.role, l.time)
  }

  ghost predicate Traced(s: State, token: Token) {
    && token.Sealed? && token.key == s.config.maker.key
    && match token.payload.tokenType
       case AccessToken => exists l :: l in s.logins && AccessFrom(s, token.payload, l)
       case RefreshToken =>
         && token.payload.id in s.sessions && s.sessions[token.payload.id].refreshToken == token
         && exists l :: l in s.logins && RefreshFrom(s, token.payload, l)
  }

  /** A session row agrees with the refresh token stored in it. */
  predicate SessionOk(s: State, id: int) {
    id in s.sessions &&
    var session := s.sessions[id];
    var token := session.refreshToken;
    && session.id == id
    && token in s.released && token.Sealed? && token.payload.tokenType.RefreshToken?
    && token.payload.id == id && token.payload.username == session.username
    && token.payload.expiredAt == session.expiresAt
    && (session.isBlocked <==> id in s.blockedAt)
  }

  ghost predicate TokensOk(s: State) {
    forall token | token in s.released :: Traced(s, token)
  }

  ghost predicate SessionsOk(s: State) {
    && (forall id | id in s.sessions :: SessionOk(s, id))
    && (forall id | id in s.blockedAt :: id in s.sessions && s.blockedAt[id] <= s.clock)
  }

  ghost predicate HandlersOk(s: State) {
    && (forall h | h in s.loginHandlers :: LoginOk(s, h))
    && (forall h | h in s.renewHandlers :: RenewOk(s, h))
  }

  ghost predicate Inv(s: State) {
    TokensOk(s) && SessionsOk(s) && HandlersOk(s)
  }

  // ----- every step keeps it

  /** Tokens already traced stay traced. */
  lemma StaysTraced(s: State, a: Action, token: Token)
    requires TokensOk(s) && SessionsOk(s) && Enabled(s, a) && token in s.released
    ensures Traced(Apply(s, a), token)
  {
    var s' := Apply(s, a);
    assert Traced(s, token);
    if token.payload.tokenType.AccessToken? {
      var l :| l in s.logins && AccessFrom(s, token.payload, l);
      assert l in s'.logins && AccessFrom(s', token.payload, l);
    } else {
      var l :| l in s.logins && RefreshFrom(s, token.payload, l);
      assert l in s'.logins && RefreshFrom(s', token.payload, l);
    }
  }

  /** Both tokens of a login are traced to it. */
  lemma LoginTraced(s: State, k: nat, token: Token)
    requires SessionsOk(s) && HandlersOk(s) && Enabled(s, StoreSession(k))
    requires token in Apply(s, StoreSession(k)).released && token !in s.released
    ensures Traced(Apply(s, StoreSession(k)), token)
  {
    var s', h := Apply(s, StoreSession(k)), s.loginHandlers[k];
    assert LoginOk(s, h);
    var l := Login(h.username, h.role, h.began, h.phase.refresh.id);
    assert l == s'.logins[|s.logins|];
    if token.payload.tokenType.AccessToken? {
      assert AccessFrom(s', token.payload, l);
    } else {
      assert RefreshFrom(s', token.payload, l);
    }
  }

  /** A renewed token is traced to the login of its refresh token. */
  lemma RenewTraced(s: State, k: nat, token: Token)
    requires TokensOk(s) && HandlersOk(s) && Enabled(s, MintRenewed(k))
    requires token in Apply(s, MintRenewed(k)).released && token !in s.released
    ensures Traced(Apply(s, MintRenewed(k)), token)
  {
    var s', h := Apply(s, MintRenewed(k)), s.renewHandlers[k];
    assert RenewOk(s, h) && Traced(s, h.token);
    var l :| l in s.logins && RefreshFrom(s, h.token.payload, l);
    assert l in s'.logins && AccessFrom(s', token.payload, l);
  }

  lemma TokensStep(s: State, a: Action)
    requires Inv(s) && Enabled(s, a)
    ensures TokensOk(Apply(s, a))
  {
    forall token | token in Apply(s, a).released
      ensures Traced(Apply(s, a), token)
    {
      if token in s.released {
        StaysTraced(s, a, token);
      } else if a.StoreSession? {
        LoginTraced(s, a.k, token);
      } else {
        RenewTraced(s, a.k, token);
      }
    }
  }

  lemma SessionsStep(s: State, a: Action)
    requires SessionsOk(s) && HandlersOk(s) && Enabled(s, a)
    ensures SessionsOk(Apply(s, a))
  {
    var s' := Apply(s, a);
    if a.StoreSession? {
      assert LoginOk(s, s.loginHandlers[a.k]);
    }
    forall id | id in s'.sessions
      ensures SessionOk(s', id)
    {
      assert id in s.sessions ==> SessionOk(s, id);
    }
  }

  lemma LoginsStep(s: State, a: Action)
    requires HandlersOk(s) && Enabled(s, a)
    ensures forall h | h in Apply(s, a).loginHandlers :: LoginOk(Apply(s, a), h)
  {
    var s' := Apply(s, a);
    if a.MintAccess? || a.MintRefresh? || a.StoreSession? {
      assert LoginOk(s, s.loginHandlers[a.k]);
    }
    forall h | h in s'.loginHandlers
      ensures LoginOk(s', h)
    {
      assert h in s.loginHandlers ==> LoginOk(s, h);
    }
  }

  lemma RenewsStep(s: State, a: Action)
    requires Inv(s) && Enabled(s, a)
    ensures forall h | h in Apply(s, a).renewHandlers :: RenewOk(Apply(s, a), h)
  {
    var s' := Apply(s, a);
    if a.ReadSession? {
      var token := s.renewHandlers[a.k].token;
      assert RenewOk(s, s.renewHandlers[a.k]);
      assert token.payload.id in s.sessions ==> SessionOk(s, token.payload.id);
    } else if a.MintRenewed? {
      assert RenewOk(s, s.renewHandlers[a.k]);
    }
    forall h | h in s'.renewHandlers
      ensures RenewOk(s', h)
    {
      assert h in s.renewHandlers ==> RenewOk(s, h);
    }
  }

  lemma InvStep(s: State, a: Action)
    requires Inv(s) && Enabled(s, a)
    ensures Inv(Apply(s, a))
  {
    TokensStep(s, a);
    SessionsStep(s, a);
    LoginsStep(s, a);
    RenewsStep(s, a);
  }

  lemma {:induction false} InvRun(s: State, run: seq<Action>)
    requires Inv(s) && ValidRun(s, run)
    ensures Inv(Final(s, run)) && Final(s, run).config == s.config && Final(s, run).patience == s.patience
    decreases |run|
  {
    if run != [] {
      InvStep(s, run[0]);
      InvRun(Apply(s, run[0]), run[1..]);
    }
  }

  lemma RunCons(s: State, a: Action, rest: seq<Action>)
    requires Enabled(s, a) && ValidRun(Apply(s, a), rest)
    ensures ValidRun(s, [a] + rest) && Final(s, [a] + rest) == Final(Apply(s, a), rest)
  {
    assert ([a] + rest)[1..] == rest;
  }

  // ----- where a login comes from

  /** The login has been recorded, or a handler is at work on it. */
  ghost predicate UnderWay(s: State, l: Login) {
    l in s.logins ||
    exists h :: h in s.loginHandlers && h.username == l.username && h.role == l.role && h.began == l.time
  }

  /** At this step the user of `l` presented the password stored at that moment, beside the role `l` has. */
  predicate Begins(s: State, a: Action, l: Login) {
    && a.BeginLogin? && a.username == l.username && s.clock == l.time
    && l.username in s.users && s.users[l.username].password == a.password && s.users[l.username].role == l.role
  }

  /** A login gets under way by presenting the right password. */
  lemma GetsUnderWay(s: State, a: Action, l: Login)
    requires Enabled(s, a) && UnderWay(Apply(s, a), l)
    ensures UnderWay(s, l) || Begins(s, a, l)
  {
    var s' := Apply(s, a);
    if l !in s'.logins {
      var h :| h in s'.loginHandlers && h.username == l.username && h.role == l.role && h.began == l.time;
      if h !in s.loginHandlers && !a.BeginLogin? {
        assert s.loginHandlers[a.k] in s.loginHandlers;
      }
    } else if l !in s.logins {
      assert s.loginHandlers[a.k] in s.loginHandlers;
    }
  }

  /** Every login of a reachable state began, at its recorded time, with the password and the role stored then. */
  lemma {:induction false} LoginBegan(s: State, run: seq<Action>, l: Login) returns (n: nat)
    requires ValidRun(s, run) && !UnderWay(s, l) && UnderWay(Final(s, run), l)
    ensures n < |run| && ValidRun(s, run[..n]) && Begins(Final(s, run[..n]), run[n], l)
    decreases |run|
  {
    var s' := Apply(s, run[0]);
    if UnderWay(s', l) {
      GetsUnderWay(s, run[0], l);
      n := 0;
    } else {
      var m := LoginBegan(s', run[1..], l);
      n := m + 1;
      assert run[..n][1..] == run[1..][..m];
    }
  }

  // ----- main results

  /** Login `l` answers for a token that was accepted at `time`. */
  predicate Vouches(s: State, l: Login, token: Token, time: int) {
    && token.Sealed? && l in s.logins && l.username == token.payload.username && l.role == token.payload.role
    && s.config.accessDuration >= 0 && time <= s.clock
    && l.time <= time <= l.time + Max(0, s.config.refreshDuration) + s.config.accessDuration + 2 * s.patience
    && (l.sessionId in s.blockedAt ==> time <= s.blockedAt[l.sessionId] + s.config.accessDuration + s.patience)
  }

  lemma AcceptedVouched(s: State, token: Token) returns (l: Login)
    requires Inv(s) && Presentable(s, token) && Accepted(s, token)
    ensures Vouches(s, l, token, s.clock)
  {
    assert Traced(s, token);
    l :| l in s.logins && AccessFrom(s, token.payload, l);
  }

  lemma VouchKept(s: State, a: Action, l: Login, token: Token, time: int)
    requires Vouches(s, l, token, time) && Enabled(s, a)
    ensures Vouches(Apply(s, a), l, token, time)
  {
  }

  /** Provenance and lifetime: an access token the servers accept goes back to a login of the same user, which earlier
      in the run presented the password stored at that moment and carries the role stored then; it dies within one
      refresh and one access duration of that moment, and within one access duration of the blocking of its session,
      give or take the time handlers are at work. */
  lemma AcceptedTokens(config: Config, patience: nat, clock: int, run: seq<Action>, token: Token)
      returns (l: Login, n: nat)
    requires ValidRun(Init(config, patience, clock), run)
    requires var s := Final(Init(config, patience, clock), run); Presentable(s, token) && Accepted(s, token)
    ensures var s := Final(Init(config, patience, clock), run);
            && token.Sealed? && l in s.logins && l.username == token.payload.username && l.role == token.payload.role
            && l.time <= s.clock <= l.time + Max(0, config.refreshDuration) + config.accessDuration + 2 * patience
            && (l.sessionId in s.blockedAt ==>
                  s.clock <= s.blockedAt[l.sessionId] + config.accessDuration + patience)
    ensures n < |run| && ValidRun(Init(config, patience, clock), run[..n])
    ensures var before := Final(Init(config, patience, clock), run[..n]);
            && before.clock == l.time && run[n].BeginLogin? && run[n].username == token.payload.username
            && run[n].username in before.users
            && before.users[run[n].username] == Credential(run[n].password, token.payload.role)
  {
    InvRun(Init(config, patience, clock), run);
    l := AcceptedVouched(Final(Init(config, patience, clock), run), token);
    n := LoginBegan(Init(config, patience, clock), run, l);
  }

  /** A login with nothing in its way. */
  function LoginRun(begin: Action, k: nat): seq<Action> {
    [begin] + ([MintAccess(k)] + ([MintRefresh(k)] + ([StoreSession(k)] + [])))
  }

  /** The right password logs in, at once if nothing else happens: both tokens are handed out, for the stored role and
      with the configured durations, and the session row carries what the request said. */
  lemma PasswordLogsIn(s: State, username: string, password: string, userAgent: string, clientIp: string)
      returns (run: seq<Action>, end: State)
    requires username in s.users && s.users[username].password == password && s.nextId + 1 !in s.sessions
    ensures run == LoginRun(BeginLogin(username, password, userAgent, clientIp), |s.loginHandlers|)
    ensures ValidRun(s, run) && Final(s, run) == end
    ensures var key, role, now := s.config.maker.key, s.users[username].role, s.clock;
            var access := Sealed(key, Payload(s.nextId, AccessToken, username, role, now,
                                              now + s.config.accessDuration));
            var refresh := Sealed(key, Payload(s.nextId + 1, RefreshToken, username, role, now,
                                               now + s.config.refreshDuration));
            && end.users == s.users && end.clock == s.clock && end.config == s.config && end.nextId == s.nextId + 2
            && end.released == s.released + {access, refresh}
            && end.logins == s.logins + [Login(username, role, now, s.nextId + 1)]
            && end.sessions == s.sessions[s.nextId + 1 := Session(
                 s.nextId + 1, username, refresh, userAgent, clientIp, false, now + s.config.refreshDuration, now)]
  {
    var begin := BeginLogin(username, password, userAgent, clientIp);
    LoginRuns(s, begin);
    run := LoginRun(begin, |s.loginHandlers|);
    end := Apply(Minted(s, username, userAgent, clientIp), StoreSession(|s.loginHandlers|));
    StoresLogin(Minted(s, username, userAgent, clientIp), |s.loginHandlers|);
  }

  /** The state after the two tokens are minted. */
  function Minted(s: State, username: string, userAgent: string, clientIp: string): State
    requires username in s.users
  {
    s.(nextId := s.nextId + 2, loginHandlers := s.loginHandlers + [Ready(s, username, userAgent, clientIp)])
  }

  lemma LoginRuns(s: State, begin: Action)
    requires begin.BeginLogin? && Enabled(s, begin) && s.nextId + 1 !in s.sessions
    ensures var k, minted := |s.loginHandlers|, Minted(s, begin.username, begin.userAgent, begin.clientIp);
            && Enabled(minted, StoreSession(k)) && ValidRun(s, LoginRun(begin, k))
            && Final(s, LoginRun(begin, k)) == Apply(minted, StoreSession(k))
  {
    LoginSteps(s, begin);
    RunsLogin(s, begin, |s.loginHandlers|);
  }

  lemma RunsLogin(s: State, begin: Action, k: nat)
    requires Enabled(s, begin) && Enabled(Apply(s, begin), MintAccess(k))
    requires Enabled(Apply(Apply(s, begin), MintAccess(k)), MintRefresh(k))
    requires Enabled(Apply(Apply(Apply(s, begin), MintAccess(k)), MintRefresh(k)), StoreSession(k))
    ensures ValidRun(s, LoginRun(begin, k))
    ensures Final(s, LoginRun(begin, k)) ==
              Apply(Apply(Apply(Apply(s, begin), MintAccess(k)), MintRefresh(k)), StoreSession(k))
  {
    var s1 := Apply(s, begin);
    var s2 := Apply(s1, MintAccess(k));
    RunCons(Apply(s2, MintRefresh(k)), StoreSession(k), []);
    RunCons(s2, MintRefresh(k), [StoreSession(k)] + []);
    RunCons(s1, MintAccess(k), [MintRefresh(k)] + ([StoreSession(k)] + []));
    RunCons(s, begin, [MintAccess(k)] + ([MintRefresh(k)] + ([StoreSession(k)] + [])));
  }

  /** The handler of `username` after its two tokens are minted, undisturbed since `s`. */
  function Ready(s: State, username: string, userAgent: string, clientIp: string): LoginHandler
    requires username in s.users
  {
    var role, now := s.users[username].role, s.clock;
    LoginHandler(username, role, now, userAgent, clientIp,
                 BothMinted(Payload(s.nextId, AccessToken, username, role, now, now + s.config.accessDuration),
                            Payload(s.nextId + 1, RefreshToken, username, role, now, now + s.config.refreshDuration)))
  }

  lemma LoginSteps(s: State, begin: Action)
    requires begin.BeginLogin? && Enabled(s, begin)
    ensures var k := |s.loginHandlers|;
            && Enabled(Apply(s, begin), MintAccess(k))
            && Enabled(Apply(Apply(s, begin), MintAccess(k)), MintRefresh(k))
            && Apply(Apply(Apply(s, begin), MintAccess(k)), MintRefresh(k)) ==
                 Minted(s, begin.username, begin.userAgent, begin.clientIp)
  {
    var k := |s.loginHandlers|;
    var s1 := Apply(s, begin);
    assert s1.loginHandlers[k].phase == Loaded;
    var s2 := Apply(s1, MintAccess(k));
    assert s2.loginHandlers[k].phase.AccessMinted?;
  }

  lemma StoresLogin(s: State, k: nat)
    requires Enabled(s, StoreSession(k))
    ensures var s', h := Apply(s, StoreSession(k)), s.loginHandlers[k];
            var key := s.config.maker.key;
            var access, refresh := Sealed(key, h.phase.access), Sealed(key, h.phase.refresh);
            && s'.users == s.users && s'.clock == s.clock && s'.config == s.config && s'.nextId == s.nextId
            && s'.released == s.released + {access, refresh}
            && s'.logins == s.logins + [Login(h.username, h.role, h.began, refresh.payload.id)]
            && s'.sessions == s.sessions[refresh.payload.id := Session(
                 refresh.payload.id, refresh.payload.username, refresh, h.userAgent, h.clientIp, false,
                 refresh.payload.expiredAt, s.clock)]
  {
  }

  /** After a user is added, or the password or role changed, exactly the new password logs in. */
  lemma CredentialTakesEffect(s: State, username: string, credential: Credential, attempt: string)
    ensures var a := if username in s.users then SetCredential(username, credential) else AddUser(username, credential);
            && Enabled(s, a)
            && Apply(s, a) == s.(users := s.users[username := credential])
            && (Enabled(Apply(s, a), BeginLogin(username, attempt, "", "")) <==> attempt == credential.password)
  {
  }

  // ----- identifiers

  /** The token ids that exist: of tokens handed out, and of those minted by handlers still at work. */
  ghost predicate HasId(s: State, id: int, owner: Owner) {
    match owner
    case Out(token) => token in s.released && token.Sealed? && token.payload.id == id
    case AccessOf(k) =>
      k < |s.loginHandlers| && (s.loginHandlers[k].phase.AccessMinted? || s.loginHandlers[k].phase.BothMinted?) &&
      s.loginHandlers[k].phase.access.id == id
    case RefreshOf(k) =>
      k < |s.loginHandlers| && s.loginHandlers[k].phase.BothMinted? && s.loginHandlers[k].phase.refresh.id == id
  }

  datatype Owner = Out(token: Token) | AccessOf(k: nat) | RefreshOf(k: nat)

  ghost predicate IdsOk(s: State) {
    && (forall id, owner | HasId(s, id, owner) :: id < s.nextId)
    && (forall id, a, b | HasId(s, id, a) && HasId(s, id, b) :: a == b)
  }

  /** Where an id of the next state was before. */
  function Source(s: State, a: Action, owner: Owner): Owner {
    if a.StoreSession? && owner.Out? && owner.token !in s.released then
      if owner.token.Sealed? && owner.token.payload.tokenType.AccessToken? then AccessOf(a.k) else RefreshOf(a.k)
    else
      owner
  }

  lemma IdMoves(s: State, a: Action, id: int, owner: Owner)
    requires HandlersOk(s) && Enabled(s, a) && HasId(Apply(s, a), id, owner)
    ensures HasId(s, id, Source(s, a, owner)) || (id == s.nextId && Apply(s, a).nextId == s.nextId + 1)
  {
    if a.StoreSession? {
      assert LoginOk(s, s.loginHandlers[a.k]);
    }
  }

  /** A step that mints has one place for the new id. */
  lemma NewIdPlace(s: State, a: Action, owner: Owner)
    requires HandlersOk(s) && IdsOk(s) && Enabled(s, a) && HasId(Apply(s, a), s.nextId, owner)
    ensures a.MintAccess? || a.MintRefresh? || a.MintRenewed?
    ensures owner == if a.MintAccess? then AccessOf(a.k) else if a.MintRefresh? then RefreshOf(a.k)
                     else Out(CreateToken(s.config.maker, RenewedPayload(s, s.renewHandlers[a.k].token.payload)))
  {
    IdMoves(s, a, s.nextId, owner);
    assert !HasId(s, s.nextId, Source(s, a, owner));
    assert !HasId(s, s.nextId, owner);
  }

  /** Ids that were in different places before are in different places after. */
  lemma SourceInjective(s: State, a: Action, id: int, x: Owner, y: Owner)
    requires HandlersOk(s) && Enabled(s, a) && HasId(Apply(s, a), id, x) && HasId(Apply(s, a), id, y)
    requires Source(s, a, x) == Source(s, a, y)
    ensures x == y
  {
    if a.StoreSession? {
      assert LoginOk(s, s.loginHandlers[a.k]);
    }
  }

  lemma IdStays(s: State, a: Action, id: int, x: Owner, y: Owner)
    requires HandlersOk(s) && IdsOk(s) && Enabled(s, a)
    requires HasId(Apply(s, a), id, x) && HasId(Apply(s, a), id, y)
    ensures x == y
  {
    if id == s.nextId {
      NewIdPlace(s, a, x);
      NewIdPlace(s, a, y);
    } else {
      IdMoves(s, a, id, x);
      IdMoves(s, a, id, y);
      SourceInjective(s, a, id, x, y);
    }
  }

  lemma IdsStep(s: State, a: Action)
    requires HandlersOk(s) && IdsOk(s) && Enabled(s, a)
    ensures IdsOk(Apply(s, a))
  {
    var s' := Apply(s, a);
    forall id, owner | HasId(s', id, owner)
      ensures id < s'.nextId
    {
      IdMoves(s, a, id, owner);
    }
    forall id, x, y | HasId(s', id, x) && HasId(s', id, y)
      ensures x == y
    {
      IdStays(s, a, id, x, y);
    }
  }

  lemma {:induction false} IdsRun(s: State, run: seq<Action>)
    requires Inv(s) && IdsOk(s) && ValidRun(s, run)
    ensures IdsOk(Final(s, run))
    decreases |run|
  {
    if run != [] {
      InvStep(s, run[0]);
      IdsStep(s, run[0]);
      IdsRun(Apply(s, run[0]), run[1..]);
    }
  }

  /** No two tokens ever handed out share an id, so no two sessions share one either. */
  lemma TokenIdsUnique(config: Config, patience: nat, clock: int, run: seq<Action>, a: Token, b: Token)
    requires ValidRun(Init(config, patience, clock), run)
    requires a in Final(Init(config, patience, clock), run).released
    requires b in Final(Init(config, patience, clock), run).released
    ensures a.Sealed? && b.Sealed? && (a.payload.id == b.payload.id ==> a == b)
  {
    var s := Final(Init(config, patience, clock), run);
    InvRun(Init(config, patience, clock), run);
    IdsRun(Init(config, patience, clock), run);
    assert Traced(s, a) && Traced(s, b);
    if a.payload.id == b.payload.id {
      assert HasId(s, a.payload.id, Out(a)) && HasId(s, a.payload.id, Out(b));
    }
  }

  // ----- renewal and blocking

  /** Of the six checks renewal makes, only expiry and blocking ever refuse a refresh token that login handed out, and
      nothing else is ever renewed. */
  lemma RenewIff(config: Config, patience: nat, clock: int, run: seq<Action>, token: Token)
    requires ValidRun(Init(config, patience, clock), run)
    requires Presentable(Final(Init(config, patience, clock), run), token)
    ensures var s := Final(Init(config, patience, clock), run);
            var r := RenewCheck(s.config.maker, s.sessions, token, s.clock);
            var genuine := token in s.released && token.Sealed? && token.payload.tokenType.RefreshToken?;
            && (genuine ==> token.payload.id in s.sessions)
            && (r.Ok? <==> genuine && s.clock <= token.payload.expiredAt && !s.sessions[token.payload.id].isBlocked)
            && (r.Ok? ==> r.value == token.payload)
            && (r.Err? ==> r.error == Unauthorized)
  {
    InvRun(Init(config, patience, clock), run);
    var s := Final(Init(config, patience, clock), run);
    if token in s.released {
      assert Traced(s, token);
      if token.payload.tokenType.RefreshToken? {
        assert SessionOk(s, token.payload.id);
      }
    }
  }

  /** The same for a renewal under way, whatever happened since its token was verified: it passes exactly when, at the
      moment the session row is read, the token has not expired and the session is not blocked. */
  lemma ClearedIff(s: State, k: nat)
    requires Inv(s) && Enabled(s, ReadSession(k))
    ensures var s', token := Apply(s, ReadSession(k)), s.renewHandlers[k].token;
            && token.payload.id in s.sessions
            && (s'.renewHandlers[k].phase.Cleared? <==>
                  s.clock <= token.payload.expiredAt && !s.sessions[token.payload.id].isBlocked)
            && (!s'.renewHandlers[k].phase.Cleared? ==> s'.renewHandlers[k].phase == Refused(Unauthorized))
  {
    var token := s.renewHandlers[k].token;
    assert RenewOk(s, s.renewHandlers[k]) && Traced(s, token) && SessionOk(s, token.payload.id);
  }

  /** Blocking a session does not stop a renewal that has already read it: the allowance for handlers at work in
      AcceptedTokens is needed, and is used up by a handler that mints as late as it may. */
  lemma BlockedTooLate(s: State, k: nat, later: nat)
    requires Inv(s) && Enabled(s, MintRenewed(k)) && s.clock == s.renewHandlers[k].began
    requires Enabled(s, Block(s.renewHandlers[k].token.payload.id))
    ensures var id := s.renewHandlers[k].token.payload.id;
            var blocked := Apply(s, Block(id));
            var s' := Apply(blocked, Tick(s.patience));
            && Enabled(s', MintRenewed(k))
            && var token := CreateToken(s.config.maker, RenewedPayload(s', s.renewHandlers[k].token.payload));
               var end := Apply(Apply(s', MintRenewed(k)), Tick(later));
               && token in end.released && id in end.blockedAt
               && (Accepted(end, token) <==> end.clock <= end.blockedAt[id] + s.config.accessDuration + s.patience)
  {
    var id := s.renewHandlers[k].token.payload.id;
    var s' := Apply(Apply(s, Block(id)), Tick(s.patience));
    assert Enabled(s', MintRenewed(k));
  }

  /** Any session can be blocked, once; from then on the checks of renewal refuse its refresh token. */
  lemma BlockTakesEffect(s: State, id: int)
    requires Inv(s) && id in s.sessions
    ensures Enabled(s, Block(id)) <==> !s.sessions[id].isBlocked
    ensures Enabled(s, Block(id)) ==>
              var s' := Apply(s, Block(id));
              && s'.sessions == s.sessions[id := s.sessions[id].(isBlocked := true)]
              && id in s'.blockedAt && s'.blockedAt[id] == s.clock
              && RenewCheck(s'.config.maker, s'.sessions, s.sessions[id].refreshToken, s.clock) == Err(Unauthorized)
  {
    assert SessionOk(s, id) && Traced(s, s.sessions[id].refreshToken);
  }

  /** In every reachable state a session row agrees with the refresh token it stores. */
  lemma SessionsAgree(config: Config, patience: nat, clock: int, run: seq<Action>, id: int)
    requires ValidRun(Init(config, patience, clock), run) && id in Final(Init(config, patience, clock), run).sessions
    ensures var session := Final(Init(config, patience, clock), run).sessions[id];
            && session.refreshToken.Sealed? && session.refreshToken.payload.tokenType.RefreshToken?
            && session.id == session.refreshToken.payload.id == id
            && session.username == session.refreshToken.payload.username
            && session.expiresAt == session.refreshToken.payload.expiredAt
  {
    InvRun(Init(config, patience, clock), run);
    assert SessionOk(Final(Init(config, patience, clock), run), id);
  }

  /** A renewal with nothing in its way, from the state `s`: verify, read the session, mint. */
  function RenewSteps(s: State, token: Token): seq<Action> {
    var k := |s.renewHandlers|;
    [BeginRenew(token)] + ([ReadSession(k)] + ([MintRenewed(k)] + []))
  }

  /** A login records its time and role, and `d` after its session is stored its access token is accepted and its
      refresh token renewed exactly while their durations last, counted from their minting. */
  lemma LoginGrants(s: State, k: nat, d: nat)
    requires Inv(s) && Enabled(s, StoreSession(k))
    ensures var h, s' := s.loginHandlers[k], Apply(Apply(s, StoreSession(k)), Tick(d));
            var access := CreateToken(s.config.maker, h.phase.access);
            var refresh := CreateToken(s.config.maker, h.phase.refresh);
            && Login(h.username, h.role, h.began, refresh.payload.id) in s'.logins
            && access in s'.released && refresh in s'.released
            && (Accepted(s', access) <==> s.clock + d <= access.payload.issuedAt + s.config.accessDuration)
            && (Enabled(s', BeginRenew(refresh)) <==>
                  s.clock + d <= refresh.payload.issuedAt + s.config.refreshDuration)
            && (Enabled(s', BeginRenew(refresh)) ==>
                  RenewCheck(s'.config.maker, s'.sessions, refresh, s'.clock) == Ok(refresh.payload))
  {
    var h := s.loginHandlers[k];
    assert LoginOk(s, h);
    var s1 := Apply(s, StoreSession(k));
    assert s1.logins[|s.logins|] == Login(h.username, h.role, h.began, h.phase.refresh.id);
  }

  /** A renewal that the checks allow and nothing hinders hands out a token that is accepted for one access duration. */
  lemma RenewalGrants(s: State, token: Token, later: nat)
    requires Presentable(s, token) && RenewCheck(s.config.maker, s.sessions, token, s.clock).Ok?
    ensures ValidRun(s, RenewSteps(s, token))
    ensures var s' := Apply(Final(s, RenewSteps(s, token)), Tick(later));
            var renewed := CreateToken(s.config.maker, RenewedPayload(s, token.payload));
            renewed in s'.released && (Accepted(s', renewed) <==> later <= s.config.accessDuration)
  {
    var k := |s.renewHandlers|;
    RenewalPasses(s, token);
    var s1 := Apply(s, BeginRenew(token));
    var s2 := Apply(s1, ReadSession(k));
    RunCons(s2, MintRenewed(k), []);
    RunCons(s1, ReadSession(k), [MintRenewed(k)] + []);
    RunCons(s, BeginRenew(token), [ReadSession(k)] + ([MintRenewed(k)] + []));
  }

  lemma RenewalPasses(s: State, token: Token)
    requires Presentable(s, token) && RenewCheck(s.config.maker, s.sessions, token, s.clock).Ok?
    ensures var k := |s.renewHandlers|;
            && Enabled(s, BeginRenew(token)) && Enabled(Apply(s, BeginRenew(token)), ReadSession(k))
            && var s2 := Apply(Apply(s, BeginRenew(token)), ReadSession(k));
               && Enabled(s2, MintRenewed(k))
               && s2 == s.(renewHandlers := s.renewHandlers + [RenewHandler(token, s.clock, Cleared)])
  {
    var k := |s.renewHandlers|;
    var s1 := Apply(s, BeginRenew(token));
    assert s1.renewHandlers[k] == RenewHandler(token, s.clock, Verified);
  }

  /** Blocking is for good: no run of the API unblocks a session or forgets when it was blocked. */
  lemma {:induction false} BlockedForever(s: State, run: seq<Action>, id: int)
    requires Inv(s) && ValidRun(s, run) && id in s.sessions && s.sessions[id].isBlocked
    ensures var end := Final(s, run);
            && id in end.sessions && end.sessions[id].isBlocked
            && id in s.blockedAt && id in end.blockedAt && end.blockedAt[id] == s.blockedAt[id]
    decreases |run|
  {
    assert SessionOk(s, id);
    if run != [] {
      InvStep(s, run[0]);
      BlockedForever(Apply(s, run[0]), run[1..], id);
    }
  }
}
