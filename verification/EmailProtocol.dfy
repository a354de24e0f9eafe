// Sign-up, the retried mail worker, profile updates and email verification, interleaved step by step.
module EmailProtocol {
  import opened Wrappers
  import opened Users

  /** CreateUserTx of the gRPC server: the row is inserted, the task enqueued, and only then the row committed. `task`
      is the position of its own task in the queue. */
  datatype SignUpPhase = Inserted | Enqueued(task: nat) | SignedUp(task: nat) | Abandoned

  datatype SignUp = SignUp(user: User, phase: SignUpPhase)

  /** One run of ProcessTaskSendVerifyEmail; a task may be attempted any number of times. */
  datatype AttemptPhase = Picked | Loaded(user: User) | Stored(user: User, row: VerifyEmail) | Sent | Failed

  datatype Attempt = Attempt(username: string, phase: AttemptPhase)

  datatype Mail = Mail(to: string, username: string, emailId: int, secretCode: string)

  /** VerifyEmailTx: the email row is consumed and locked, then the user row flagged and locked, then both commit. */
  datatype VerifyPhase =
    | Begun
    | Consumed(row: VerifyEmail)
    | Flagged(row: VerifyEmail, user: User)
    | Verified(row: VerifyEmail)
    | Rejected

  datatype Verify = Verify(emailId: int, secretCode: string, start: int, phase: VerifyPhase)

  /** The committed changes of the users table, in commit order. */
  datatype Event = Created(user: User) | Updated(username: string, update: UserUpdate)

  datatype State = State(
    clock: int, users: map<string, User>, emails: map<int, VerifyEmail>, nextEmail: nat, queue: seq<string>,
    signUps: seq<SignUp>, attempts: seq<Attempt>, mails: seq<Mail>, verifies: seq<Verify>, log: seq<Event>)

  datatype Action =
    | Tick(d: nat)
    | RestSignUp(arg: CreateUserParams)
    | InsertUser(arg: CreateUserParams)
    | Enqueue(k: nat)
    | CommitSignUp(k: nat)
    | AbandonSignUp(k: nat)
    | Pick(task: nat)
    | LoadUser(k: nat)
    | StoreCode(k: nat, secretCode: string)
    | SendMail(k: nat)
    | FailAttempt(k: nat)
    | UpdateProfile(req: UpdateRequest, hashed: string)
    | BeginVerify(emailId: int, secretCode: string)
    | Consume(k: nat)
    | Reject(k: nat)
    | Flag(k: nat)
    | CommitVerify(k: nat)
    | FaultVerify(k: nat)

  // ----- reservations and locks

  /** An uncommitted sign-up keeps its username and email in the unique indexes. */
  predicate IsPending(signUp: SignUp) {
    signUp.phase.Inserted? || signUp.phase.Enqueued?
  }

  ghost predicate UsernameFree(s: State, username: string) {
    username !in s.users &&
    forall k | 0 <= k < |s.signUps| && IsPending(s.signUps[k]) :: s.signUps[k].user.username != username
  }

  /** No user but `username` has the email, committed or not. */
  ghost predicate EmailFree(s: State, email: string, username: string) {
    (forall name | name in s.users && name != username :: s.users[name].email != email) &&
    forall k | 0 <= k < |s.signUps| && IsPending(s.signUps[k]) :: s.signUps[k].user.email != email
  }

  predicate HoldsEmail(v: Verify, emailId: int) {
    v.emailId == emailId && (v.phase.Consumed? || v.phase.Flagged?)
  }

  predicate HoldsUser(v: Verify, username: string) {
    v.phase.Flagged? && v.phase.row.username == username
  }

  ghost predicate EmailUnlocked(s: State, emailId: int) {
    forall k | 0 <= k < |s.verifies| :: !HoldsEmail(s.verifies[k], emailId)
  }

  ghost predicate UserUnlocked(s: State, username: string) {
    forall k | 0 <= k < |s.verifies| :: !HoldsUser(s.verifies[k], username)
  }

  // ----- steps

  predicate HasSignUp(s: State, k: nat) {
    k < |s.signUps|
  }

  predicate HasAttempt(s: State, k: nat) {
    k < |s.attempts|
  }

  predicate HasVerify(s: State, k: nat) {
    k < |s.verifies|
  }

  ghost predicate Enabled(s: State, a: Action) {
    match a
    case Tick(d) => true
    case RestSignUp(arg) => UsernameFree(s, arg.username) && EmailFree(s, arg.email, arg.username)
    case InsertUser(arg) => UsernameFree(s, arg.username) && EmailFree(s, arg.email, arg.username)
    case Enqueue(k) => HasSignUp(s, k) && s.signUps[k].phase.Inserted?
    case CommitSignUp(k) => HasSignUp(s, k) && s.signUps[k].phase.Enqueued?
    case AbandonSignUp(k) => HasSignUp(s, k) && IsPending(s.signUps[k])
    case Pick(task) => task < |s.queue|
    case LoadUser(k) => HasAttempt(s, k) && s.attempts[k].phase.Picked?
    case StoreCode(k, _) => HasAttempt(s, k) && s.attempts[k].phase.Loaded?
    case SendMail(k) => HasAttempt(s, k) && s.attempts[k].phase.Stored?
    case FailAttempt(k) => HasAttempt(s, k) && !s.attempts[k].phase.Sent?
    case UpdateProfile(req, _) =>
      req.username in s.users && UserUnlocked(s, req.username) &&
      (req.email.Some? ==> EmailFree(s, req.email.value, req.username))
    case BeginVerify(_, _) => true
    case Consume(k) =>
      HasVerify(s, k) && s.verifies[k].phase.Begun? && EmailUnlocked(s, s.verifies[k].emailId) &&
      Consumable(s.emails, s.verifies[k].emailId, s.verifies[k].secretCode, s.verifies[k].start)
    case Reject(k) =>
      HasVerify(s, k) && s.verifies[k].phase.Begun? && EmailUnlocked(s, s.verifies[k].emailId) &&
      !Consumable(s.emails, s.verifies[k].emailId, s.verifies[k].secretCode, s.verifies[k].start)
    case Flag(k) =>
      HasVerify(s, k) && s.verifies[k].phase.Consumed? && UserUnlocked(s, s.verifies[k].phase.row.username) &&
      s.verifies[k].phase.row.username in s.users
    case CommitVerify(k) => HasVerify(s, k) && s.verifies[k].phase.Flagged?
    case FaultVerify(k) => HasVerify(s, k) && !s.verifies[k].phase.Verified?
  }

  function ToSignUpPhase(s: State, k: nat, phase: SignUpPhase): seq<SignUp>
    requires k < |s.signUps|
  {
    s.signUps[k := s.signUps[k].(phase := phase)]
  }

  function ToAttemptPhase(s: State, k: nat, phase: AttemptPhase): seq<Attempt>
    requires k < |s.attempts|
  {
    s.attempts[k := s.attempts[k].(phase := phase)]
  }

  function ToVerifyPhase(s: State, k: nat, phase: VerifyPhase): seq<Verify>
    requires k < |s.verifies|
  {
    s.verifies[k := s.verifies[k].(phase := phase)]
  }

  ghost function Apply(s: State, a: Action): State
    requires Enabled(s, a)
  {
    match a
    case Tick(d) => s.(clock := s.clock + d)
    case RestSignUp(arg) =>
      var user := NewUser(arg, s.clock);
      s.(users := s.users[user.username := user], log := s.log + [Created(user)])
    case InsertUser(arg) => s.(signUps := s.signUps + [SignUp(NewUser(arg, s.clock), Inserted)])
    case Enqueue(k) =>
      s.(queue := s.queue + [s.signUps[k].user.username], signUps := ToSignUpPhase(s, k, Enqueued(|s.queue|)))
    case CommitSignUp(k) =>
      var user := s.signUps[k].user;
      s.(users := s.users[user.username := user], log := s.log + [Created(user)],
         signUps := ToSignUpPhase(s, k, SignedUp(s.signUps[k].phase.task)))
    case AbandonSignUp(k) => s.(signUps := ToSignUpPhase(s, k, Abandoned))
    case Pick(task) => s.(attempts := s.attempts + [Attempt(s.queue[task], Picked)])
    case LoadUser(k) =>
      var username := s.attempts[k].username;
      s.(attempts := ToAttemptPhase(s, k, if username in s.users then Loaded(s.users[username]) else Failed))
    case StoreCode(k, secretCode) =>
      var user := s.attempts[k].phase.user;
      var row := NewVerifyEmail(s.nextEmail, user.username, user.email, secretCode, s.clock);
      s.(emails := s.emails[row.id := row],
         nextEmail := s.nextEmail + 1,
         attempts := ToAttemptPhase(s, k, Stored(user, row)))
    case SendMail(k) =>
      var user, row := s.attempts[k].phase.user, s.attempts[k].phase.row;
      s.(mails := s.mails + [Mail(user.email, user.username, row.id, row.secretCode)],
         attempts := ToAttemptPhase(s, k, Sent))
    case FailAttempt(k) => s.(attempts := ToAttemptPhase(s, k, Failed))
    case UpdateProfile(req, hashed) =>
      var update := BuildUpdate(req, hashed, s.clock);
      s.(users := s.users[req.username := ApplyUpdate(s.users[req.username], update)],
         log := s.log + [Updated(req.username, update)])
    case BeginVerify(emailId, secretCode) =>
      s.(verifies := s.verifies + [Verify(emailId, secretCode, s.clock, Begun)])
    case Consume(k) =>
      s.(verifies := ToVerifyPhase(s, k, Consumed(s.emails[s.verifies[k].emailId].(isUsed := true))))
    case Reject(k) => s.(verifies := ToVerifyPhase(s, k, Rejected))
    case Flag(k) =>
      var row := s.verifies[k].phase.row;
      s.(verifies := ToVerifyPhase(s, k, Flagged(row, ApplyUpdate(s.users[row.username], VERIFIED))))
    case CommitVerify(k) =>
      var row, user := s.verifies[k].phase.row, s.verifies[k].phase.user;
      s.(emails := s.emails[row.id := row], users := s.users[user.username := user],
         log := s.log + [Updated(row.username, VERIFIED)],
         verifies := ToVerifyPhase(s, k, Verified(row)))
    case FaultVerify(k) => s.(verifies := ToVerifyPhase(s, k, Rejected))
  }

  ghost predicate ValidRun(s: State, run: seq<Action>)
    decreases |run|
  {
    run == [] || (Enabled(s, run[0]) && ValidRun(Apply(s, run[0]), run[1..]))
  }

  ghost function Final(s: State, run: seq<Action>): State
    requires ValidRun(s, run)
    decreases |run|
  {
    if run == [] then s else Final(Apply(s, run[0]), run[1..])
  }

  function Init(clock: int): State {
    State(clock, map[], map[], 1, [], [], [], [], [], [])
  }

  // ----- the invariant, one part per concern

  /** Rows are stored under their keys; a verification row belongs to a committed user whose task was enqueued. */
  ghost predicate RowsOk(users: map<string, User>, emails: map<int, VerifyEmail>, nextEmail: nat, queue: seq<string>) {
    && (forall name | name in users :: users[name].username == name)
    && (forall id | id in emails ::
          emails[id].id == id < nextEmail && emails[id].username in users && emails[id].username in queue)
  }

  /** A user is flagged exactly when one of the user's codes is used. */
  ghost predicate FlagOk(users: map<string, User>, emails: map<int, VerifyEmail>) {
    forall name | name in users ::
      users[name].isEmailVerified <==> exists id :: id in emails && emails[id].username == name && emails[id].isUsed
  }

  /** What a verification that holds locks has privately written is still right. */
  ghost predicate VerifyOk(users: map<string, User>, emails: map<int, VerifyEmail>, v: Verify) {
    match v.phase
    case Consumed(row) =>
      && Consumable(emails, v.emailId, v.secretCode, v.start) && row == emails[v.emailId].(isUsed := true)
    case Flagged(row, user) =>
      && Consumable(emails, v.emailId, v.secretCode, v.start) && row == emails[v.emailId].(isUsed := true)
      && row.username in users && user == ApplyUpdate(users[row.username], VERIFIED)
    case Verified(row) =>
      && v.emailId in emails && emails[v.emailId] == row && row.isUsed
      && row.secretCode == v.secretCode && row.expiredAt > v.start
    case _ => true
  }

  ghost predicate WritesOk(users: map<string, User>, emails: map<int, VerifyEmail>, verifies: seq<Verify>) {
    forall v | v in verifies :: VerifyOk(users, emails, v)
  }

  /** No two verifications hold the same email row or the same user row. */
  ghost predicate Exclusive(verifies: seq<Verify>) {
    forall j, k | 0 <= j < k < |verifies| ::
      && !(HoldsEmail(verifies[j], verifies[k].emailId) && HoldsEmail(verifies[k], verifies[k].emailId))
      && !(verifies[k].phase.Flagged? && HoldsUser(verifies[j], verifies[k].phase.row.username))
  }

  /** A used code was used by one verification. */
  ghost predicate OnceOk(emails: map<int, VerifyEmail>, verifies: seq<Verify>) {
    && (forall id | id in emails && emails[id].isUsed ::
          exists k :: 0 <= k < |verifies| && verifies[k].emailId == id && verifies[k].phase.Verified?)
    && (forall j, k | 0 <= j < k < |verifies| && verifies[j].phase.Verified? && verifies[k].phase.Verified? ::
          verifies[j].emailId != verifies[k].emailId)
  }

  predicate IsQueued(u: SignUp) {
    u.phase.Enqueued? || u.phase.SignedUp?
  }

  /** The sign-up's own task is in the queue. */
  predicate OwnTask(queue: seq<string>, u: SignUp)
    requires IsQueued(u)
  {
    u.phase.task < |queue| && queue[u.phase.task] == u.user.username
  }

  /** Each sign-up's own task is enqueued before its user can be committed, and no two share one. */
  ghost predicate TasksOk(users: map<string, User>, queue: seq<string>, signUps: seq<SignUp>) {
    && (forall u | u in signUps ::
          && (IsQueued(u) ==> OwnTask(queue, u))
          && (u.phase.SignedUp? ==> u.user.username in users)
          && !u.user.isEmailVerified)
    && (forall j, k | 0 <= j < k < |signUps| && IsQueued(signUps[j]) && IsQueued(signUps[k]) ::
          signUps[j].phase.task != signUps[k].phase.task)
  }

  /** Usernames and emails are unique, those of pending sign-ups included. */
  ghost predicate NamesOk(users: map<string, User>, signUps: seq<SignUp>) {
    && (forall u | u in signUps && IsPending(u) ::
          u.user.username !in users && forall name | name in users :: users[name].email != u.user.email)
    && (forall j, k | 0 <= j < k < |signUps| && IsPending(signUps[j]) && IsPending(signUps[k]) ::
          signUps[j].user.username != signUps[k].user.username && signUps[j].user.email != signUps[k].user.email)
    && (forall a, b | a in users && b in users && a != b :: users[a].email != users[b].email)
  }

  ghost predicate AttemptOk(users: map<string, User>, emails: map<int, VerifyEmail>, queue: seq<string>, a: Attempt) {
    && a.username in queue
    && match a.phase
       case Loaded(user) => user.username == a.username && user.username in users
       case Stored(user, row) =>
         && user.username == a.username == row.username && user.email == row.email
         && row.id in emails && row == emails[row.id].(isUsed := false)
       case _ => true
  }

  /** A mail carries the id and code of a committed row of its user, and goes to the address on that row. */
  ghost predicate MailOk(emails: map<int, VerifyEmail>, m: Mail) {
    m.emailId in emails && emails[m.emailId].username == m.username && emails[m.emailId].secretCode == m.secretCode &&
    emails[m.emailId].email == m.to
  }

  ghost predicate WorkerOk(users: map<string, User>, emails: map<int, VerifyEmail>, queue: seq<string>,
                           attempts: seq<Attempt>, mails: seq<Mail>) {
    && (forall a | a in attempts :: AttemptOk(users, emails, queue, a))
    && (forall m | m in mails :: MailOk(emails, m))
  }

  /** The user row the committed events produce one at a time. */
  function Replay(log: seq<Event>, name: string): Option<User> {
    if log == [] then None
    else
      var before := Replay(log[..|log| - 1], name);
      match log[|log| - 1]
      case Created(user) => if user.username == name then Some(user) else before
      case Updated(username, update) =>
        if username == name && before.Some? then Some(ApplyUpdate(before.value, update)) else before
  }

  ghost predicate LogOk(users: map<string, User>, log: seq<Event>) {
    forall name :: Replay(log, name) == if name in users then Some(users[name]) else None
  }

  ghost predicate Inv(s: State) {
    && RowsOk(s.users, s.emails, s.nextEmail, s.queue)
    && FlagOk(s.users, s.emails)
    && WritesOk(s.users, s.emails, s.verifies)
    && Exclusive(s.verifies)
    && OnceOk(s.emails, s.verifies)
    && TasksOk(s.users, s.queue, s.signUps)
    && NamesOk(s.users, s.signUps)
    && WorkerOk(s.users, s.emails, s.queue, s.attempts, s.mails)
    && LogOk(s.users, s.log)
  }

  // ----- every step keeps it

  lemma RowsStep(s: State, a: Action)
    requires RowsOk(s.users, s.emails, s.nextEmail, s.queue) && WritesOk(s.users, s.emails, s.verifies)
    requires WorkerOk(s.users, s.emails, s.queue, s.attempts, s.mails) && Enabled(s, a)
    ensures var s' := Apply(s, a); RowsOk(s'.users, s'.emails, s'.nextEmail, s'.queue)
  {
    if a.StoreCode? {
      assert AttemptOk(s.users, s.emails, s.queue, s.attempts[a.k]);
    } else if a.CommitVerify? {
      assert VerifyOk(s.users, s.emails, s.verifies[a.k]);
    }
  }

  lemma FlagStep(s: State, a: Action)
    requires RowsOk(s.users, s.emails, s.nextEmail, s.queue) && FlagOk(s.users, s.emails)
    requires WritesOk(s.users, s.emails, s.verifies) && TasksOk(s.users, s.queue, s.signUps)
    requires a.CommitSignUp? ==> NamesOk(s.users, s.signUps)
    requires Enabled(s, a)
    ensures FlagOk(Apply(s, a).users, Apply(s, a).emails)
  {
    match a {
      case RestSignUp(arg) => UserFlags(s.users, s.emails, NewUser(arg, s.clock));
      case CommitSignUp(k) =>
        assert s.signUps[k] in s.signUps;
        UserFlags(s.users, s.emails, s.signUps[k].user);
      case UpdateProfile(req, hashed) =>
        UserFlags(s.users, s.emails, ApplyUpdate(s.users[req.username], BuildUpdate(req, hashed, s.clock)));
      case StoreCode(k, secretCode) =>
        var user := s.attempts[k].phase.user;
        StoreCodeFlags(s.users, s.emails, NewVerifyEmail(s.nextEmail, user.username, user.email, secretCode, s.clock));
      case CommitVerify(k) =>
        assert VerifyOk(s.users, s.emails, s.verifies[k]);
        CommitVerifyFlags(s.users, s.emails, s.verifies[k].phase.row, s.verifies[k].phase.user);
      case _ =>
    }
  }

  /** A row replaced by one with the same flag, or a new unflagged user who has no codes yet. */
  lemma UserFlags(users: map<string, User>, emails: map<int, VerifyEmail>, user: User)
    requires FlagOk(users, emails)
    requires if user.username in users then user.isEmailVerified == users[user.username].isEmailVerified
             else !user.isEmailVerified && forall id | id in emails :: emails[id].username != user.username
    ensures FlagOk(users[user.username := user], emails)
  {
  }

  lemma CommitVerifyFlags(users: map<string, User>, emails: map<int, VerifyEmail>, row: VerifyEmail, user: User)
    requires FlagOk(users, emails) && row.id in emails && row == emails[row.id].(isUsed := true)
    requires row.username in users && users[row.username].username == row.username
    requires user == ApplyUpdate(users[row.username], VERIFIED)
    ensures FlagOk(users[user.username := user], emails[row.id := row])
  {
    var users', emails' := users[user.username := user], emails[row.id := row];
    forall name | name in users'
      ensures users'[name].isEmailVerified <==>
                exists id :: id in emails' && emails'[id].username == name && emails'[id].isUsed
    {
      if name == row.username {
        assert emails'[row.id].isUsed;
      } else if users[name].isEmailVerified {
        var id :| id in emails && emails[id].username == name && emails[id].isUsed;
        assert emails'[id].isUsed && emails'[id].username == name;
      }
    }
  }

  lemma StoreCodeFlags(users: map<string, User>, emails: map<int, VerifyEmail>, row: VerifyEmail)
    requires FlagOk(users, emails) && row.id !in emails && !row.isUsed
    ensures FlagOk(users, emails[row.id := row])
  {
    var emails' := emails[row.id := row];
    forall name | name in users
      ensures users[name].isEmailVerified <==>
                exists id :: id in emails' && emails'[id].username == name && emails'[id].isUsed
    {
      if users[name].isEmailVerified {
        var id :| id in emails && emails[id].username == name && emails[id].isUsed;
        assert emails'[id].isUsed && emails'[id].username == name;
      }
    }
  }

  lemma WritesStep(s: State, a: Action)
    requires WritesOk(s.users, s.emails, s.verifies) && Exclusive(s.verifies)
    requires RowsOk(s.users, s.emails, s.nextEmail, s.queue) && Enabled(s, a)
    requires a.CommitSignUp? ==> NamesOk(s.users, s.signUps)
    ensures WritesOk(Apply(s, a).users, Apply(s, a).emails, Apply(s, a).verifies)
  {
    match a {
      case RestSignUp(arg) => UserWrites(s.users, s.emails, s.verifies, NewUser(arg, s.clock));
      case CommitSignUp(k) =>
        assert s.signUps[k] in s.signUps;
        UserWrites(s.users, s.emails, s.verifies, s.signUps[k].user);
      case UpdateProfile(req, hashed) =>
        UserWrites(s.users, s.emails, s.verifies,
                   ApplyUpdate(s.users[req.username], BuildUpdate(req, hashed, s.clock)));
      case CommitVerify(k) => CommitVerifyWrites(s, k);
      case Flag(k) =>
        assert VerifyOk(s.users, s.emails, s.verifies[k]);
        MoveWrites(s.users, s.emails, s.verifies, k, Apply(s, a).verifies[k]);
      case Consume(k) => MoveWrites(s.users, s.emails, s.verifies, k, Apply(s, a).verifies[k]);
      case Reject(k) => MoveWrites(s.users, s.emails, s.verifies, k, s.verifies[k].(phase := Rejected));
      case FaultVerify(k) => MoveWrites(s.users, s.emails, s.verifies, k, s.verifies[k].(phase := Rejected));
      case _ =>
    }
  }

  /** A user row that no verification holds may be written. */
  lemma UserWrites(users: map<string, User>, emails: map<int, VerifyEmail>, verifies: seq<Verify>, user: User)
    requires WritesOk(users, emails, verifies)
    requires user.username in users ==> forall v | v in verifies :: !HoldsUser(v, user.username)
    ensures WritesOk(users[user.username := user], emails, verifies)
  {
    forall v | v in verifies
      ensures VerifyOk(users[user.username := user], emails, v)
    {
      assert VerifyOk(users, emails, v);
    }
  }

  lemma MoveWrites(users: map<string, User>, emails: map<int, VerifyEmail>, verifies: seq<Verify>, k: nat, v: Verify)
    requires WritesOk(users, emails, verifies) && k < |verifies| && VerifyOk(users, emails, v)
    ensures WritesOk(users, emails, verifies[k := v])
  {
  }

  lemma CommitVerifyWrites(s: State, k: nat)
    requires WritesOk(s.users, s.emails, s.verifies) && Exclusive(s.verifies)
    requires RowsOk(s.users, s.emails, s.nextEmail, s.queue) && Enabled(s, CommitVerify(k))
    ensures var s' := Apply(s, CommitVerify(k)); WritesOk(s'.users, s'.emails, s'.verifies)
  {
    var s' := Apply(s, CommitVerify(k));
    assert VerifyOk(s.users, s.emails, s.verifies[k]);
    forall j | 0 <= j < |s.verifies|
      ensures VerifyOk(s'.users, s'.emails, s'.verifies[j])
    {
      assert VerifyOk(s.users, s.emails, s.verifies[j]);
    }
  }

  lemma ExclusiveStep(s: State, a: Action)
    requires WritesOk(s.users, s.emails, s.verifies) && Exclusive(s.verifies) && Enabled(s, a)
    ensures Exclusive(Apply(s, a).verifies)
  {
    match a {
      case Consume(k) => ConsumeExclusive(s, k);
      case Flag(k) => FlagExclusive(s, k);
      case Reject(k) => ReleaseExclusive(s.verifies, k, Rejected);
      case FaultVerify(k) => ReleaseExclusive(s.verifies, k, Rejected);
      case CommitVerify(k) => ReleaseExclusive(s.verifies, k, Verified(s.verifies[k].phase.row));
      case _ =>
    }
  }

  lemma ConsumeExclusive(s: State, k: nat)
    requires Exclusive(s.verifies) && Enabled(s, Consume(k))
    ensures Exclusive(Apply(s, Consume(k)).verifies)
  {
  }

  lemma FlagExclusive(s: State, k: nat)
    requires Exclusive(s.verifies) && Enabled(s, Flag(k))
    ensures Exclusive(Apply(s, Flag(k)).verifies)
  {
  }

  lemma ReleaseExclusive(verifies: seq<Verify>, k: nat, phase: VerifyPhase)
    requires Exclusive(verifies) && k < |verifies| && (phase.Verified? || phase.Rejected?)
    ensures Exclusive(verifies[k := verifies[k].(phase := phase)])
  {
  }

  lemma OnceStep(s: State, a: Action)
    requires OnceOk(s.emails, s.verifies) && WritesOk(s.users, s.emails, s.verifies)
    requires RowsOk(s.users, s.emails, s.nextEmail, s.queue) && Enabled(s, a)
    ensures OnceOk(Apply(s, a).emails, Apply(s, a).verifies)
  {
    match a {
      case CommitVerify(k) => CommitVerifyOnce(s, k);
      case StoreCode(k, _) => StoreCodeOnce(s.emails, s.verifies, Apply(s, a).emails[s.nextEmail]);
      case BeginVerify(_, _) => MoreOnce(s.emails, s.verifies, Apply(s, a).verifies);
      case Consume(k) => MoreOnce(s.emails, s.verifies, Apply(s, a).verifies);
      case Reject(k) => MoreOnce(s.emails, s.verifies, Apply(s, a).verifies);
      case Flag(k) => MoreOnce(s.emails, s.verifies, Apply(s, a).verifies);
      case FaultVerify(k) => MoreOnce(s.emails, s.verifies, Apply(s, a).verifies);
      case _ =>
    }
  }

  lemma StoreCodeOnce(emails: map<int, VerifyEmail>, verifies: seq<Verify>, row: VerifyEmail)
    requires OnceOk(emails, verifies) && row.id !in emails && !row.isUsed
    ensures OnceOk(emails[row.id := row], verifies)
  {
  }

  /** Verifications that begin, move on or fail, as long as none commits. */
  lemma MoreOnce(emails: map<int, VerifyEmail>, verifies: seq<Verify>, verifies': seq<Verify>)
    requires OnceOk(emails, verifies) && |verifies| <= |verifies'|
    requires forall k | 0 <= k < |verifies'| ::
               if k < |verifies| && verifies[k].phase.Verified? then verifies'[k] == verifies[k]
               else !verifies'[k].phase.Verified?
    ensures OnceOk(emails, verifies')
  {
    forall id | id in emails && emails[id].isUsed
      ensures exists k :: 0 <= k < |verifies'| && verifies'[k].emailId == id && verifies'[k].phase.Verified?
    {
      var k :| 0 <= k < |verifies| && verifies[k].emailId == id && verifies[k].phase.Verified?;
      assert verifies'[k] == verifies[k];
    }
  }

  lemma CommitVerifyOnce(s: State, k: nat)
    requires OnceOk(s.emails, s.verifies) && WritesOk(s.users, s.emails, s.verifies)
    requires RowsOk(s.users, s.emails, s.nextEmail, s.queue) && Enabled(s, CommitVerify(k))
    ensures OnceOk(Apply(s, CommitVerify(k)).emails, Apply(s, CommitVerify(k)).verifies)
  {
    var s' := Apply(s, CommitVerify(k));
    assert VerifyOk(s.users, s.emails, s.verifies[k]);
    forall j | 0 <= j < |s.verifies| && s.verifies[j].phase.Verified?
      ensures s.verifies[j].emailId != s.verifies[k].emailId
    {
      assert VerifyOk(s.users, s.emails, s.verifies[j]);
    }
    forall id | id in s'.emails && s'.emails[id].isUsed
      ensures exists j :: 0 <= j < |s'.verifies| && s'.verifies[j].emailId == id && s'.verifies[j].phase.Verified?
    {
      if id in s.emails && s.emails[id].isUsed {
        var j :| 0 <= j < |s.verifies| && s.verifies[j].emailId == id && s.verifies[j].phase.Verified?;
        assert s'.verifies[j] == s.verifies[j];
      } else {
        assert s'.verifies[k].emailId == id;
      }
    }
  }

  lemma TasksStep(s: State, a: Action)
    requires TasksOk(s.users, s.queue, s.signUps) && Enabled(s, a)
    ensures TasksOk(Apply(s, a).users, Apply(s, a).queue, Apply(s, a).signUps)
  {
    var s' := Apply(s, a);
    if a.Enqueue? || a.CommitSignUp? || a.AbandonSignUp? {
      assert s.signUps[a.k] in s.signUps;
    }
    forall u | u in s'.signUps
      ensures (IsQueued(u) ==> OwnTask(s'.queue, u)) && (u.phase.SignedUp? ==> u.user.username in s'.users)
      ensures !u.user.isEmailVerified
    {
    }
  }

  lemma NamesStep(s: State, a: Action)
    requires NamesOk(s.users, s.signUps) && WritesOk(s.users, s.emails, s.verifies)
    requires RowsOk(s.users, s.emails, s.nextEmail, s.queue) && Enabled(s, a)
    ensures NamesOk(Apply(s, a).users, Apply(s, a).signUps)
  {
    match a {
      case CommitVerify(k) =>
        assert VerifyOk(s.users, s.emails, s.verifies[k]);
        ChangeUserNames(s.users, s.signUps, s.verifies[k].phase.user);
      case UpdateProfile(req, hashed) =>
        ChangeUserNames(s.users, s.signUps, Apply(s, a).users[req.username]);
      case RestSignUp(arg) => NewNames(s, arg);
      case InsertUser(arg) => NewNames(s, arg);
      case CommitSignUp(k) => CommitSignUpNames(s, k);
      case Enqueue(k) => FewerPending(s.users, s.signUps, Apply(s, a).signUps);
      case AbandonSignUp(k) => FewerPending(s.users, s.signUps, Apply(s, a).signUps);
      case _ =>
    }
  }

  lemma NewNames(s: State, arg: CreateUserParams)
    requires NamesOk(s.users, s.signUps) && UsernameFree(s, arg.username) && EmailFree(s, arg.email, arg.username)
    ensures NamesOk(s.users[arg.username := NewUser(arg, s.clock)], s.signUps)
    ensures NamesOk(s.users, s.signUps + [SignUp(NewUser(arg, s.clock), Inserted)])
  {
  }

  lemma ChangeUserNames(users: map<string, User>, signUps: seq<SignUp>, user: User)
    requires NamesOk(users, signUps) && user.username in users
    requires user.email == users[user.username].email ||
               ((forall name | name in users && name != user.username :: users[name].email != user.email) &&
                forall u | u in signUps && IsPending(u) :: u.user.email != user.email)
    ensures NamesOk(users[user.username := user], signUps)
  {
  }

  lemma CommitSignUpNames(s: State, k: nat)
    requires NamesOk(s.users, s.signUps) && Enabled(s, CommitSignUp(k))
    ensures NamesOk(Apply(s, CommitSignUp(k)).users, Apply(s, CommitSignUp(k)).signUps)
  {
    var s' := Apply(s, CommitSignUp(k));
    assert s.signUps[k] in s.signUps && IsPending(s.signUps[k]);
    forall j | 0 <= j < |s'.signUps| && IsPending(s'.signUps[j])
      ensures s'.signUps[j] == s.signUps[j] && j != k
      ensures s.signUps[j].user.username != s.signUps[k].user.username &&
                s.signUps[j].user.email != s.signUps[k].user.email
    {
    }
  }

  lemma FewerPending(users: map<string, User>, signUps: seq<SignUp>, signUps': seq<SignUp>)
    requires NamesOk(users, signUps) && |signUps'| == |signUps|
    requires forall k | 0 <= k < |signUps| ::
               signUps'[k].user == signUps[k].user && (IsPending(signUps'[k]) ==> IsPending(signUps[k]))
    ensures NamesOk(users, signUps')
  {
    forall u | u in signUps' && IsPending(u)
      ensures u.user.username !in users && forall name | name in users :: users[name].email != u.user.email
    {
      var k :| 0 <= k < |signUps'| && signUps'[k] == u;
      assert signUps[k] in signUps && IsPending(signUps[k]);
    }
  }

  lemma WorkerStep(s: State, a: Action)
    requires WorkerOk(s.users, s.emails, s.queue, s.attempts, s.mails) && WritesOk(s.users, s.emails, s.verifies)
    requires RowsOk(s.users, s.emails, s.nextEmail, s.queue) && Enabled(s, a)
    ensures var s' := Apply(s, a); WorkerOk(s'.users, s'.emails, s'.queue, s'.attempts, s'.mails)
  {
    if a.LoadUser? || a.StoreCode? || a.SendMail? || a.FailAttempt? {
      AttemptStep(s, a);
    } else if !a.Pick? {
      var s' := Apply(s, a);
      RowsGrow(s, a);
      WorkerKept(s.users, s.emails, s.queue, s'.users, s'.emails, s'.queue, s.attempts, s.mails);
    }
  }

  /** Users and tasks stay, and a row changes in nothing but being used. */
  ghost predicate Grown(users: map<string, User>, emails: map<int, VerifyEmail>, queue: seq<string>,
                        users': map<string, User>, emails': map<int, VerifyEmail>, queue': seq<string>) {
    && users.Keys <= users'.Keys && queue <= queue'
    && forall id | id in emails :: id in emails' && emails'[id].(isUsed := false) == emails[id].(isUsed := false)
  }

  lemma RowsGrow(s: State, a: Action)
    requires RowsOk(s.users, s.emails, s.nextEmail, s.queue) && WritesOk(s.users, s.emails, s.verifies) && Enabled(s, a)
    ensures Grown(s.users, s.emails, s.queue, Apply(s, a).users, Apply(s, a).emails, Apply(s, a).queue)
  {
    if a.CommitVerify? {
      assert VerifyOk(s.users, s.emails, s.verifies[a.k]);
    }
  }

  lemma WorkerKept(users: map<string, User>, emails: map<int, VerifyEmail>, queue: seq<string>,
                   users': map<string, User>, emails': map<int, VerifyEmail>, queue': seq<string>,
                   attempts: seq<Attempt>, mails: seq<Mail>)
    requires WorkerOk(users, emails, queue, attempts, mails) && Grown(users, emails, queue, users', emails', queue')
    ensures WorkerOk(users', emails', queue', attempts, mails)
  {
    forall a | a in attempts
      ensures AttemptOk(users', emails', queue', a)
    {
      assert AttemptOk(users, emails, queue, a);
    }
    forall m | m in mails
      ensures MailOk(emails', m)
    {
      assert MailOk(emails, m);
      assert emails'[m.emailId].(isUsed := false).secretCode == emails[m.emailId].(isUsed := false).secretCode;
    }
  }

  lemma AttemptStep(s: State, a: Action)
    requires WorkerOk(s.users, s.emails, s.queue, s.attempts, s.mails)
    requires RowsOk(s.users, s.emails, s.nextEmail, s.queue) && Enabled(s, a)
    requires a.LoadUser? || a.StoreCode? || a.SendMail? || a.FailAttempt?
    ensures var s' := Apply(s, a); WorkerOk(s'.users, s'.emails, s'.queue, s'.attempts, s'.mails)
  {
    var s' := Apply(s, a);
    assert AttemptOk(s.users, s.emails, s.queue, s.attempts[a.k]);
    assert AttemptOk(s'.users, s'.emails, s'.queue, s'.attempts[a.k]);
    WorkerKept(s.users, s.emails, s.queue, s'.users, s'.emails, s'.queue, s.attempts, s.mails);
  }

  lemma LogStep(s: State, a: Action)
    requires RowsOk(s.users, s.emails, s.nextEmail, s.queue) && WritesOk(s.users, s.emails, s.verifies)
    requires LogOk(s.users, s.log) && Enabled(s, a)
    ensures LogOk(Apply(s, a).users, Apply(s, a).log)
  {
    match a {
      case RestSignUp(arg) => CreatedLog(s.users, s.log, NewUser(arg, s.clock));
      case CommitSignUp(k) => CreatedLog(s.users, s.log, s.signUps[k].user);
      case UpdateProfile(req, hashed) => UpdatedLog(s.users, s.log, req.username, BuildUpdate(req, hashed, s.clock));
      case CommitVerify(k) =>
        assert VerifyOk(s.users, s.emails, s.verifies[k]);
        UpdatedLog(s.users, s.log, s.verifies[k].phase.row.username, VERIFIED);
      case _ =>
    }
  }

  lemma CreatedLog(users: map<string, User>, log: seq<Event>, user: User)
    requires LogOk(users, log)
    ensures LogOk(users[user.username := user], log + [Created(user)])
  {
    assert (log + [Created(user)])[..|log|] == log;
  }

  lemma UpdatedLog(users: map<string, User>, log: seq<Event>, username: string, update: UserUpdate)
    requires LogOk(users, log) && username in users
    ensures LogOk(users[username := ApplyUpdate(users[username], update)], log + [Updated(username, update)])
  {
    assert (log + [Updated(username, update)])[..|log|] == log;
  }

  lemma InvStep(s: State, a: Action)
    requires Inv(s) && Enabled(s, a)
    ensures Inv(Apply(s, a))
  {
    RowsStep(s, a);
    FlagStep(s, a);
    WritesStep(s, a);
    ExclusiveStep(s, a);
    OnceStep(s, a);
    TasksStep(s, a);
    NamesStep(s, a);
    WorkerStep(s, a);
    LogStep(s, a);
  }

  lemma {:induction false} InvRun(s: State, run: seq<Action>)
    requires Inv(s) && ValidRun(s, run)
    ensures Inv(Final(s, run))
    decreases |run|
  {
    if run != [] {
      InvStep(s, run[0]);
      InvRun(Apply(s, run[0]), run[1..]);
    }
  }
}
