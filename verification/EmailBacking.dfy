// What the verified flag says about the address on file: exactly which runs keep it backed by a used code.
module EmailBacking {
  import opened Wrappers
  import opened Users
  import opened EmailProtocol
  import opened EmailResults
  import opened EmailOrigins

  /** The user has used a code that was mailed to `email`. */
  ghost predicate UsedFor(s: State, name: string, email: string) {
    exists id :: id in s.emails && s.emails[id].isUsed && s.emails[id].username == name && s.emails[id].email == email
  }

  /** The user has used a code that was mailed to the address now on file. */
  ghost predicate Backed(s: State, name: string)
    requires name in s.users
  {
    UsedFor(s, name, s.users[name].email)
  }

  predicate IsFlagged(s: State, name: string)
    requires name in s.users
  {
    s.users[name].isEmailVerified
  }

  /** The flag means what it says: whoever is flagged has confirmed the address on file. */
  ghost predicate AllBacked(s: State) {
    forall name | name in s.users :: IsFlagged(s, name) <==> Backed(s, name)
  }

  // ----- the two steps that can break it

  /** The flag belongs to the username: changing the address of a verified user keeps it. The new address is backed only
      if the user had used a code for it before. */
  lemma EmailChangeKeepsFlag(s: State, req: UpdateRequest, hashed: string)
    requires Enabled(s, UpdateProfile(req, hashed)) && RowsOk(s.users, s.emails, s.nextEmail, s.queue)
    requires IsFlagged(s, req.username) && Backed(s, req.username)
    ensures var s', name := Apply(s, UpdateProfile(req, hashed)), req.username;
            && name in s'.users && IsFlagged(s', name)
            && s'.users[name].email == Coalesce(req.email, s.users[name].email)
            && (Backed(s', name) <==> req.email.None? || UsedFor(s, name, req.email.value))
  {
  }

  /** Committing a verification backs an unverified user exactly when the code was mailed to the address on file. */
  lemma VerificationBacks(s: State, k: nat)
    requires Inv(s) && Enabled(s, CommitVerify(k))
    ensures var s', row := Apply(s, CommitVerify(k)), s.verifies[k].phase.row;
            && row.username in s.users && row.username in s'.users && IsFlagged(s', row.username)
            && s'.users[row.username].email == s.users[row.username].email
            && (Backed(s', row.username) <==>
                  Backed(s, row.username) || row.email == s.users[row.username].email)
            && (!IsFlagged(s, row.username) ==>
                  (Backed(s', row.username) <==> row.email == s.users[row.username].email))
  {
    assert VerifyOk(s.users, s.emails, s.verifies[k]);
    var s', row := Apply(s, CommitVerify(k)), s.verifies[k].phase.row;
    CommitUses(s, k, row.username, s.users[row.username].email);
    assert UsedFor(s, row.username, s.users[row.username].email) ==> IsFlagged(s, row.username);
  }

  /** A commit uses its own row and no other. */
  lemma CommitUses(s: State, k: nat, name: string, email: string)
    requires Inv(s) && Enabled(s, CommitVerify(k))
    ensures var row := s.verifies[k].phase.row;
            UsedFor(Apply(s, CommitVerify(k)), name, email) <==>
              UsedFor(s, name, email) || (row.username == name && row.email == email)
  {
    assert VerifyOk(s.users, s.emails, s.verifies[k]);
    var s', row := Apply(s, CommitVerify(k)), s.verifies[k].phase.row;
    assert row.id == s.verifies[k].emailId && s'.emails[row.id] == row;
    if UsedFor(s, name, email) {
      var id :| id in s.emails && s.emails[id].isUsed && s.emails[id].username == name && s.emails[id].email == email;
      assert s'.emails[id].isUsed && s'.emails[id].username == name && s'.emails[id].email == email;
    }
  }

  /** No other step uses a row. */
  lemma OthersUseNothing(s: State, a: Action, name: string, email: string)
    requires RowsOk(s.users, s.emails, s.nextEmail, s.queue) && Enabled(s, a) && !a.CommitVerify?
    ensures UsedFor(Apply(s, a), name, email) <==> UsedFor(s, name, email)
  {
    var s' := Apply(s, a);
    if UsedFor(s, name, email) {
      var id :| id in s.emails && s.emails[id].isUsed && s.emails[id].username == name && s.emails[id].email == email;
      assert s'.emails[id] == s.emails[id];
    }
  }

  // ----- the exact condition, over whole runs

  /** What the two handlers could check: a flagged user moves only to an address it has confirmed, and a code flags only
      the user who still has the address it was mailed to. */
  ghost predicate Guard(s: State, a: Action)
    requires Enabled(s, a)
  {
    match a
    case UpdateProfile(req, _) =>
      IsFlagged(s, req.username) && req.email.Some? ==> UsedFor(s, req.username, req.email.value)
    case CommitVerify(k) =>
      var row := s.verifies[k].phase.row;
      row.username in s.users && (!IsFlagged(s, row.username) ==> row.email == s.users[row.username].email)
    case _ => true
  }

  lemma VerifyGuard(s: State, k: nat)
    requires Inv(s) && AllBacked(s) && Enabled(s, CommitVerify(k))
    ensures AllBacked(Apply(s, CommitVerify(k))) <==> Guard(s, CommitVerify(k))
  {
    var s', who := Apply(s, CommitVerify(k)), s.verifies[k].phase.row.username;
    VerificationBacks(s, k);
    assert VerifyOk(s.users, s.emails, s.verifies[k]);
    forall name | name in s.users
      ensures name in s'.users
      ensures name != who ==> s'.users[name] == s.users[name] && (Backed(s', name) <==> Backed(s, name))
    {
      CommitUses(s, k, name, s.users[name].email);
    }
    assert s'.users.Keys == s.users.Keys;
    assert AllBacked(s') <==> Backed(s', who);
  }

  /** Other users keep both their flag and what backs it. */
  lemma UpdateGuard(s: State, req: UpdateRequest, hashed: string)
    requires RowsOk(s.users, s.emails, s.nextEmail, s.queue) && FlagOk(s.users, s.emails)
    requires AllBacked(s) && Enabled(s, UpdateProfile(req, hashed))
    ensures AllBacked(Apply(s, UpdateProfile(req, hashed))) <==> Guard(s, UpdateProfile(req, hashed))
  {
    var s', who := Apply(s, UpdateProfile(req, hashed)), req.username;
    assert s'.users == s.users[who := s'.users[who]] && s'.emails == s.emails;
    forall name, email
      ensures UsedFor(s', name, email) <==> UsedFor(s, name, email)
    {
    }
    assert !IsFlagged(s, who) ==> forall email :: !UsedFor(s, who, email);
    assert AllBacked(s') <==> (IsFlagged(s', who) <==> Backed(s', who));
  }

  /** A new user has neither the flag nor a used code; every other step leaves users and used rows alone. */
  lemma OtherGuard(s: State, a: Action)
    requires RowsOk(s.users, s.emails, s.nextEmail, s.queue) && TasksOk(s.users, s.queue, s.signUps)
    requires AllBacked(s) && Enabled(s, a) && !a.UpdateProfile? && !a.CommitVerify?
    requires FlagOk(Apply(s, a).users, Apply(s, a).emails)
    ensures AllBacked(Apply(s, a))
  {
    var s' := Apply(s, a);
    OnlyNewUsers(s, a);
    forall name | name in s'.users
      ensures IsFlagged(s', name) <==> Backed(s', name)
    {
      OthersUseNothing(s, a, name, s'.users[name].email);
    }
  }

  lemma OnlyNewUsers(s: State, a: Action)
    requires TasksOk(s.users, s.queue, s.signUps) && Enabled(s, a) && !a.UpdateProfile? && !a.CommitVerify?
    ensures forall name | name in Apply(s, a).users ::
              IsFlagged(Apply(s, a), name) ==> name in s.users && Apply(s, a).users[name] == s.users[name]
    ensures forall name | name in s.users && name in Apply(s, a).users ::
              Apply(s, a).users[name] == s.users[name] || !IsFlagged(Apply(s, a), name)
  {
    if a.CommitSignUp? {
      assert s.signUps[a.k] in s.signUps;
    }
  }

  lemma GuardIff(s: State, a: Action)
    requires Inv(s) && AllBacked(s) && Enabled(s, a)
    ensures AllBacked(Apply(s, a)) <==> Guard(s, a)
  {
    if a.UpdateProfile? {
      UpdateGuard(s, a.req, a.hashed);
    } else if a.CommitVerify? {
      VerifyGuard(s, a.k);
    } else {
      FlagStep(s, a);
      OtherGuard(s, a);
    }
  }

  ghost predicate AlwaysBacked(s: State, run: seq<Action>)
    requires ValidRun(s, run)
    decreases |run|
  {
    AllBacked(s) && (run != [] ==> AlwaysBacked(Apply(s, run[0]), run[1..]))
  }

  ghost predicate Guarded(s: State, run: seq<Action>)
    requires ValidRun(s, run)
    decreases |run|
  {
    run != [] ==> Guard(s, run[0]) && Guarded(Apply(s, run[0]), run[1..])
  }

  lemma {:induction false} BackedRun(s: State, run: seq<Action>)
    requires Inv(s) && AllBacked(s) && ValidRun(s, run)
    ensures AlwaysBacked(s, run) <==> Guarded(s, run)
    decreases |run|
  {
    if run != [] {
      GuardIff(s, run[0]);
      InvStep(s, run[0]);
      if Guard(s, run[0]) {
        BackedRun(Apply(s, run[0]), run[1..]);
      }
    }
  }

  /** Through a whole run the flag means a confirmed address on file exactly when every address change of a flagged user
      and every verification of an unflagged one passes the guard that the code does not have. */
  lemma AlwaysBackedIff(clock: int, run: seq<Action>)
    requires ValidRun(Init(clock), run)
    ensures AlwaysBacked(Init(clock), run) <==> Guarded(Init(clock), run)
  {
    InitInv(clock);
    BackedRun(Init(clock), run);
  }

  // ----- runs that leave addresses alone

  ghost predicate KeepsAddresses(run: seq<Action>) {
    forall i | 0 <= i < |run| :: KeepsAddress(run[i])
  }

  /** Codes, and attempts about to write one, carry the address their user has now. */
  ghost predicate Addressed(s: State) {
    && (forall id | id in s.emails ::
          s.emails[id].username in s.users && s.emails[id].email == s.users[s.emails[id].username].email)
    && (forall a | a in s.attempts && a.phase.Loaded? ::
          a.phase.user.username in s.users && a.phase.user.email == s.users[a.phase.user.username].email)
  }

  ghost predicate KeepsAddress(a: Action) {
    a.UpdateProfile? ==> a.req.email.None?
  }

  lemma AddressedStep(s: State, a: Action)
    requires Inv(s) && Addressed(s) && Enabled(s, a) && KeepsAddress(a)
    ensures Addressed(Apply(s, a))
  {
    SameEmails(s, a);
    CodesAddressed(s, a);
    AttemptsAddressed(s, a);
  }

  lemma CodesAddressed(s: State, a: Action)
    requires WritesOk(s.users, s.emails, s.verifies) && Addressed(s) && Enabled(s, a)
    requires SameAddresses(s.users, Apply(s, a).users)
    ensures var s' := Apply(s, a);
            forall id | id in s'.emails ::
              s'.emails[id].username in s'.users && s'.emails[id].email == s'.users[s'.emails[id].username].email
  {
    if a.StoreCode? {
      assert s.attempts[a.k] in s.attempts;
    } else if a.CommitVerify? {
      assert VerifyOk(s.users, s.emails, s.verifies[a.k]);
    }
  }

  lemma AttemptsAddressed(s: State, a: Action)
    requires RowsOk(s.users, s.emails, s.nextEmail, s.queue) && Addressed(s) && Enabled(s, a)
    requires SameAddresses(s.users, Apply(s, a).users)
    ensures var s' := Apply(s, a);
            forall x | x in s'.attempts && x.phase.Loaded? ::
              x.phase.user.username in s'.users && x.phase.user.email == s'.users[x.phase.user.username].email
  {
  }

  ghost predicate SameAddresses(users: map<string, User>, users': map<string, User>) {
    forall name | name in users :: name in users' && users'[name].email == users[name].email
  }

  lemma SameEmails(s: State, a: Action)
    requires RowsOk(s.users, s.emails, s.nextEmail, s.queue) && WritesOk(s.users, s.emails, s.verifies)
    requires NamesOk(s.users, s.signUps) && Enabled(s, a) && KeepsAddress(a)
    ensures SameAddresses(s.users, Apply(s, a).users)
  {
    if a.CommitVerify? {
      assert VerifyOk(s.users, s.emails, s.verifies[a.k]);
    } else if a.CommitSignUp? {
      assert s.signUps[a.k] in s.signUps && IsPending(s.signUps[a.k]);
    }
  }

  lemma {:induction false} AddressedRun(s: State, run: seq<Action>)
    requires Inv(s) && Addressed(s) && ValidRun(s, run) && KeepsAddresses(run)
    ensures Guarded(s, run)
    decreases |run|
  {
    if run != [] {
      AddressedGuard(s, run[0]);
      InvStep(s, run[0]);
      AddressedStep(s, run[0]);
      AddressedRun(Apply(s, run[0]), run[1..]);
    }
  }

  lemma AddressedGuard(s: State, a: Action)
    requires Inv(s) && Addressed(s) && Enabled(s, a) && KeepsAddress(a)
    ensures Guard(s, a)
  {
    if a.CommitVerify? {
      assert VerifyOk(s.users, s.emails, s.verifies[a.k]);
    }
  }

  lemma {:induction false} AtTheEnd(s: State, run: seq<Action>)
    requires ValidRun(s, run) && AlwaysBacked(s, run)
    ensures AllBacked(Final(s, run))
    decreases |run|
  {
    if run != [] {
      AtTheEnd(Apply(s, run[0]), run[1..]);
    }
  }

  /** As long as nobody changes an address, a user is flagged exactly when a code mailed to the address on file has been
      used. */
  lemma BackedUntilChanged(clock: int, run: seq<Action>, name: string)
    requires ValidRun(Init(clock), run) && KeepsAddresses(run) && name in Final(Init(clock), run).users
    ensures IsFlagged(Final(Init(clock), run), name) <==> Backed(Final(Init(clock), run), name)
  {
    InitInv(clock);
    AddressedRun(Init(clock), run);
    AlwaysBackedIff(clock, run);
    AtTheEnd(Init(clock), run);
  }

  // ----- both orders of changing and verifying leave a flag that nothing backs

  /** One user, signed up at `clock` and now at `email`, and one unused code mailed to the address given at sign-up. */
  ghost predicate Invited(s: State, clock: int, arg: CreateUserParams, secretCode: string, email: string) {
    && Inv(s) && s.clock == clock && s.verifies == []
    && s.users == map[arg.username := NewUser(arg, clock).(email := email)]
    && s.emails == map[1 := NewVerifyEmail(1, arg.username, arg.email, secretCode, clock)]
    && s.mails == [Mail(arg.email, arg.username, 1, secretCode)]
    && NobodyPending(s)
  }

  ghost predicate NobodyPending(s: State) {
    forall u | u in s.signUps :: !IsPending(u)
  }

  /** InsertUser, Enqueue, CommitSignUp. */
  lemma SignsUp(clock: int, arg: CreateUserParams) returns (run: seq<Action>)
    ensures ValidRun(Init(clock), run)
    ensures Final(Init(clock), run) ==
              Init(clock).(users := map[arg.username := NewUser(arg, clock)], queue := [arg.username],
                           signUps := [SignUp(NewUser(arg, clock), SignedUp(0))], log := [Created(NewUser(arg, clock))])
  {
    var s0 := Init(clock);
    var s1 := Apply(s0, InsertUser(arg));
    assert s1.signUps == [SignUp(NewUser(arg, clock), Inserted)];
    var s2 := Apply(s1, Enqueue(0));
    assert s2.signUps == [SignUp(NewUser(arg, clock), Enqueued(0))];
    Run1(s2, CommitSignUp(0));
    RunCons(s1, Enqueue(0), [CommitSignUp(0)]);
    RunCons(s0, InsertUser(arg), [Enqueue(0)] + [CommitSignUp(0)]);
    run := [InsertUser(arg)] + ([Enqueue(0)] + [CommitSignUp(0)]);
  }

  lemma Invites(clock: int, arg: CreateUserParams, secretCode: string) returns (run: seq<Action>)
    ensures ValidRun(Init(clock), run) && Invited(Final(Init(clock), run), clock, arg, secretCode, arg.email)
  {
    var signUp := SignsUp(clock, arg);
    var s := Final(Init(clock), signUp);
    var more := TaskDelivers(s, 0, secretCode);
    RunAppend(Init(clock), signUp, more);
    run := signUp + more;
    Reachable(clock, run);
  }

  function Move(username: string, email: string): Action {
    UpdateProfile(UpdateRequest(username, None, Some(email), None), "")
  }

  /** Nothing stands in the way of the only user's move to a new address. */
  lemma Moves(s: State, arg: CreateUserParams, email: string)
    requires s.users.Keys == {arg.username} && NobodyPending(s) && UserUnlocked(s, arg.username)
    ensures Enabled(s, Move(arg.username, email))
    ensures Apply(s, Move(arg.username, email)) ==
              s.(users := s.users[arg.username := s.users[arg.username].(email := email)],
                 log := s.log + [Updated(arg.username, UserUpdate(None, None, None, Some(email), None))])
  {
  }

  /** The mailed link flags the user at whatever address the user has by then. */
  lemma OpensLink(s: State, clock: int, arg: CreateUserParams, secretCode: string, email: string)
    requires Invited(s, clock, arg, secretCode, email)
    ensures ValidRun(s, VerifySteps(s, 1, secretCode))
    ensures var s', row := Final(s, VerifySteps(s, 1, secretCode)), s.emails[1].(isUsed := true);
            && s'.users == map[arg.username := NewUser(arg, clock).(email := email, isEmailVerified := true)]
            && s'.emails == map[1 := row]
            && NobodyPending(s') && UserUnlocked(s', arg.username)
  {
    MailedCodeWorks(s, Mail(arg.email, arg.username, 1, secretCode));
  }

  /** Flagged at an address no code was ever mailed to. */
  ghost predicate FlaggedUnconfirmed(s: State, name: string, email: string) {
    && name in s.users && s.users[name].email == email && IsFlagged(s, name) && !Backed(s, name)
    && forall id | id in s.emails :: s.emails[id].email != email
  }

  /** Verify, then change the address: whoever signs up can end up flagged at an address no code was ever mailed to. */
  lemma VerifyThenChange(clock: int, arg: CreateUserParams, secretCode: string, email: string)
    returns (run: seq<Action>)
    requires email != arg.email
    ensures ValidRun(Init(clock), run) && FlaggedUnconfirmed(Final(Init(clock), run), arg.username, email)
  {
    var invite := Invites(clock, arg, secretCode);
    var s := Final(Init(clock), invite);
    OpensLink(s, clock, arg, secretCode, arg.email);
    var steps, move := VerifySteps(s, 1, secretCode), Move(arg.username, email);
    Moves(Final(s, steps), arg, email);
    Run1(Final(s, steps), move);
    RunAppend(s, steps, [move]);
    RunAppend(Init(clock), invite, steps + [move]);
    run := invite + (steps + [move]);
  }

  /** The user moves while the code is under way. */
  lemma MovesInvited(s: State, clock: int, arg: CreateUserParams, secretCode: string, email: string)
    requires Invited(s, clock, arg, secretCode, arg.email)
    ensures Enabled(s, Move(arg.username, email))
    ensures Invited(Apply(s, Move(arg.username, email)), clock, arg, secretCode, email)
  {
    Moves(s, arg, email);
    InvStep(s, Move(arg.username, email));
  }

  /** Change the address, then open the link mailed to the old one: flagged again at an address nobody confirmed. */
  lemma ChangeThenVerify(clock: int, arg: CreateUserParams, secretCode: string, email: string)
    returns (run: seq<Action>)
    requires email != arg.email
    ensures ValidRun(Init(clock), run) && FlaggedUnconfirmed(Final(Init(clock), run), arg.username, email)
  {
    var move := Move(arg.username, email);
    var invite := Invites(clock, arg, secretCode);
    var s := Final(Init(clock), invite);
    MovesInvited(s, clock, arg, secretCode, email);
    var s' := Apply(s, move);
    OpensLink(s', clock, arg, secretCode, email);
    var steps := VerifySteps(s', 1, secretCode);
    RunCons(s, move, steps);
    RunAppend(Init(clock), invite, [move] + steps);
    run := invite + ([move] + steps);
  }
}
