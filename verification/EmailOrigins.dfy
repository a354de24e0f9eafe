// Where the stored rows of the email protocol come from, column by column, and what its undisturbed steps achieve.
module EmailOrigins {
  import opened Wrappers
  import opened Users
  import opened EmailProtocol
  import opened EmailResults

  /** The state before step `m` of the rest of a run is the state before step `m + 1` of the run. */
  lemma PrefixShift(s: State, run: seq<Action>, m: nat)
    requires run != [] && Enabled(s, run[0]) && m < |run[1..]| && ValidRun(Apply(s, run[0]), run[1..][..m])
    ensures ValidRun(s, run[..m + 1]) && run[m + 1] == run[1..][m]
    ensures Final(s, run[..m + 1]) == Final(Apply(s, run[0]), run[1..][..m])
  {
    assert run[..m + 1][1..] == run[1..][..m];
  }

  // ----- created rows

  /** The row has been committed, or a sign-up is at work on it. */
  ghost predicate Entered(s: State, user: User) {
    Created(user) in s.log || exists u :: u in s.signUps && u.user == user
  }

  /** The step is a sign-up with these columns, at the time on the row. */
  predicate SignsUpAs(s: State, a: Action, user: User) {
    && (a.InsertUser? || a.RestSignUp?)
    && user.username == a.arg.username && user.hashedPassword == a.arg.hashedPassword
    && user.fullName == a.arg.fullName && user.email == a.arg.email && user.createdAt == s.clock
    && user.passwordChangedAt == 0 && !user.isEmailVerified && user.role == "depositor"
  }

  lemma Enters(s: State, a: Action, user: User)
    requires Enabled(s, a) && Entered(Apply(s, a), user)
    ensures Entered(s, user) || SignsUpAs(s, a, user)
  {
    var s' := Apply(s, a);
    if a.Enqueue? || a.CommitSignUp? || a.AbandonSignUp? {
      assert s.signUps[a.k] in s.signUps;
    }
    if Created(user) !in s'.log {
      var u :| u in s'.signUps && u.user == user;
    }
  }

  lemma {:induction false} RowCame(s: State, run: seq<Action>, user: User) returns (n: nat)
    requires ValidRun(s, run) && !Entered(s, user) && Entered(Final(s, run), user)
    ensures n < |run| && ValidRun(s, run[..n]) && SignsUpAs(Final(s, run[..n]), run[n], user)
    decreases |run|
  {
    var s' := Apply(s, run[0]);
    if Entered(s', user) {
      Enters(s, run[0], user);
      n := 0;
    } else {
      var m := RowCame(s', run[1..], user);
      PrefixShift(s, run, m);
      n := m + 1;
    }
  }

  /** The row a stored user started from, on which NoLostUpdate builds, is the one a sign-up of the run asked for: its
      name, hash, full name and address each in their column, created at the time of the sign-up. */
  lemma CreatedAsAsked(clock: int, run: seq<Action>, name: string) returns (n: nat)
    requires ValidRun(Init(clock), run) && name in Final(Init(clock), run).users
    ensures n < |run| && ValidRun(Init(clock), run[..n])
    ensures var created := CreatedOf(Final(Init(clock), run).log, name);
            && created.Some? && created.value.username == name
            && SignsUpAs(Final(Init(clock), run[..n]), run[n], created.value)
  {
    NoLostUpdate(clock, run, name);
    var created := CreatedOf(Final(Init(clock), run).log, name);
    LoggedUpdates(Final(Init(clock), run).log, name);
    CreatedName(Final(Init(clock), run).log, name);
    n := RowCame(Init(clock), run, created.value);
  }

  lemma {:induction false} CreatedName(log: seq<Event>, name: string)
    ensures CreatedOf(log, name).Some? ==> CreatedOf(log, name).value.username == name
  {
    if log != [] {
      CreatedName(log[..|log| - 1], name);
    }
  }

  // ----- updates

  /** The step is a profile update of this user that sets these columns, or the commit of a verification of the user. */
  ghost predicate UpdatesAs(s: State, a: Action, name: string, u: UserUpdate) {
    match a
    case UpdateProfile(req, hashed) =>
      && req.username == name && u.fullName == req.fullName && u.email == req.email && u.isEmailVerified == None
      && u.hashedPassword == (if req.password.Some? then Some(hashed) else None)
      && u.passwordChangedAt == (if req.password.Some? then Some(s.clock) else None)
    case CommitVerify(k) =>
      && k < |s.verifies| && s.verifies[k].phase.Flagged? && s.verifies[k].phase.row.username == name
      && u.fullName == None && u.email == None && u.isEmailVerified == Some(true)
      && u.hashedPassword == None && u.passwordChangedAt == None
    case _ => false
  }

  lemma {:induction false} UpdateCame(s: State, run: seq<Action>, name: string, u: UserUpdate) returns (n: nat)
    requires ValidRun(s, run) && Updated(name, u) !in s.log && Updated(name, u) in Final(s, run).log
    ensures n < |run| && ValidRun(s, run[..n]) && UpdatesAs(Final(s, run[..n]), run[n], name, u)
    decreases |run|
  {
    var s' := Apply(s, run[0]);
    if Updated(name, u) in s'.log {
      n := 0;
    } else {
      var m := UpdateCame(s', run[1..], name, u);
      PrefixShift(s, run, m);
      n := m + 1;
    }
  }

  /** Each update NoLostUpdate merges into a stored row was asked for in the run, column by column. */
  lemma UpdatedAsAsked(clock: int, run: seq<Action>, name: string, u: UserUpdate) returns (n: nat)
    requires ValidRun(Init(clock), run) && u in UpdatesOf(Final(Init(clock), run).log, name)
    ensures n < |run| && ValidRun(Init(clock), run[..n]) && UpdatesAs(Final(Init(clock), run[..n]), run[n], name, u)
  {
    LoggedUpdates(Final(Init(clock), run).log, name);
    n := UpdateCame(Init(clock), run, name, u);
  }

  // ----- who may write

  /** A name or address can be taken unless a user, or a sign-up not yet ended, has it. */
  lemma SignUpIff(s: State, arg: CreateUserParams)
    requires Inv(s)
    ensures Enabled(s, InsertUser(arg)) <==> Enabled(s, RestSignUp(arg))
    ensures Enabled(s, InsertUser(arg)) <==>
              && (forall name | name in s.users :: name != arg.username && s.users[name].email != arg.email)
              && (forall u | u in s.signUps && (u.phase.Inserted? || u.phase.Enqueued?) ::
                    u.user.username != arg.username && u.user.email != arg.email)
  {
    forall k | 0 <= k < |s.signUps|
      ensures s.signUps[k] in s.signUps
    {
    }
  }

  /** A profile can be updated unless a verification holds the user, or somebody else has the new address. */
  lemma UpdateIff(s: State, req: UpdateRequest, hashed: string)
    ensures Enabled(s, UpdateProfile(req, hashed)) <==>
              && req.username in s.users
              && (forall v | v in s.verifies && v.phase.Flagged? :: v.phase.row.username != req.username)
              && (req.email.Some? ==>
                    && (forall name | name in s.users && name != req.username :: s.users[name].email != req.email.value)
                    && (forall u | u in s.signUps && (u.phase.Inserted? || u.phase.Enqueued?) ::
                          u.user.email != req.email.value))
  {
    forall k | 0 <= k < |s.signUps|
      ensures s.signUps[k] in s.signUps
    {
    }
    forall k | 0 <= k < |s.verifies|
      ensures s.verifies[k] in s.verifies
    {
    }
  }

  /** An attempt may fail at any point before its mail is out; the code it stored stays. */
  lemma AttemptMayFail(s: State, k: nat)
    ensures Enabled(s, FailAttempt(k)) <==> k < |s.attempts| && !s.attempts[k].phase.Sent?
    ensures Enabled(s, FailAttempt(k)) ==>
              Apply(s, FailAttempt(k)) == s.(attempts := s.attempts[k := Attempt(s.attempts[k].username, Failed)])
  {
  }

  /** A sign-up may be rolled back, and a verification fail, at any point before its commit. */
  lemma MayEnd(s: State, k: nat)
    ensures Enabled(s, AbandonSignUp(k)) <==>
              k < |s.signUps| && (s.signUps[k].phase.Inserted? || s.signUps[k].phase.Enqueued?)
    ensures Enabled(s, FaultVerify(k)) <==> k < |s.verifies| && !s.verifies[k].phase.Verified?
  {
  }

  /** An abandoned sign-up gives its name and address back. */
  lemma AbandonFrees(s: State, k: nat, arg: CreateUserParams)
    requires Inv(s) && Enabled(s, AbandonSignUp(k))
    requires arg.username == s.signUps[k].user.username && arg.email == s.signUps[k].user.email
    ensures !Enabled(s, InsertUser(arg)) && Enabled(Apply(s, AbandonSignUp(k)), InsertUser(arg))
  {
    var s' := Apply(s, AbandonSignUp(k));
    assert s.signUps[k] in s.signUps && IsPending(s.signUps[k]);
    forall j | 0 <= j < |s'.signUps| && IsPending(s'.signUps[j])
      ensures s'.signUps[j].user.username != arg.username && s'.signUps[j].user.email != arg.email
    {
      assert s'.signUps[j] == s.signUps[j] && j != k;
    }
  }

  /** A verification that fails changes no row and holds none any more. */
  lemma FaultFrees(s: State, k: nat)
    requires Inv(s) && Enabled(s, FaultVerify(k))
    ensures var s' := Apply(s, FaultVerify(k));
            && s'.users == s.users && s'.emails == s.emails
            && (s.verifies[k].phase.Consumed? || s.verifies[k].phase.Flagged? ==>
                  EmailUnlocked(s', s.verifies[k].emailId))
            && (s.verifies[k].phase.Flagged? ==> UserUnlocked(s', s.verifies[k].phase.row.username))
  {
    var s' := Apply(s, FaultVerify(k));
    forall j | 0 <= j < |s.verifies| && j != k
      ensures s'.verifies[j] == s.verifies[j]
    {
    }
  }

  // ----- codes

  /** What a worker stores: an unused code for the user and address it loaded, good for 900 seconds. */
  lemma StoredCode(s: State, k: nat, secretCode: string)
    requires Enabled(s, StoreCode(k, secretCode))
    ensures var s', user := Apply(s, StoreCode(k, secretCode)), s.attempts[k].phase.user;
            && s'.emails.Keys == s.emails.Keys + {s.nextEmail}
            && s'.emails[s.nextEmail] ==
                 VerifyEmail(s.nextEmail, user.username, user.email, secretCode, false, s.clock, s.clock + 900)
  {
  }

  /** Presented `d` seconds from now, a code is taken exactly while it is the right one for its row, unused and not
      expired; otherwise the verification is rejected. */
  lemma CodeTakenIff(s: State, id: int, secretCode: string, d: nat)
    requires EmailUnlocked(s, id)
    ensures var s' := Apply(Apply(s, Tick(d)), BeginVerify(id, secretCode));
            var right := id in s.emails && s.emails[id].secretCode == secretCode && !s.emails[id].isUsed &&
                         s.clock + d < s.emails[id].expiredAt;
            && (Enabled(s', Consume(|s.verifies|)) <==> right)
            && (Enabled(s', Reject(|s.verifies|)) <==> !right)
  {
    var s' := Apply(Apply(s, Tick(d)), BeginVerify(id, secretCode));
    assert s'.verifies[|s.verifies|] == Verify(id, secretCode, s.clock + d, Begun);
    assert EmailUnlocked(s', id);
  }

  // ----- delivery

  /** Whatever else is going on, any task can be worked off: its user gets a mail with a new code. */
  lemma TaskDelivers(s: State, task: nat, secretCode: string) returns (run: seq<Action>)
    requires task < |s.queue| && s.queue[task] in s.users && s.users[s.queue[task]].username == s.queue[task]
    ensures ValidRun(s, run)
    ensures var user := s.users[s.queue[task]];
            var row := VerifyEmail(s.nextEmail, s.queue[task], user.email, secretCode, false, s.clock, s.clock + 900);
            Final(s, run) ==
              s.(emails := s.emails[s.nextEmail := row], nextEmail := s.nextEmail + 1,
                 mails := s.mails + [Mail(user.email, s.queue[task], s.nextEmail, secretCode)],
                 attempts := s.attempts + [Attempt(s.queue[task], Sent)])
  {
    var k, name := |s.attempts|, s.queue[task];
    PicksAndLoads(s, task);
    var loaded := s.(attempts := s.attempts + [Attempt(name, Loaded(s.users[name]))]);
    StoresAndSends(loaded, k, name, secretCode);
    Run4(s, Pick(task), LoadUser(k), StoreCode(k, secretCode), SendMail(k));
    run := [Pick(task)] + ([LoadUser(k)] + ([StoreCode(k, secretCode)] + [SendMail(k)]));
    assert loaded.attempts[k := Attempt(name, Sent)] == s.attempts + [Attempt(name, Sent)];
  }

  lemma PicksAndLoads(s: State, task: nat)
    requires task < |s.queue| && s.queue[task] in s.users
    ensures Enabled(s, Pick(task)) && Enabled(Apply(s, Pick(task)), LoadUser(|s.attempts|))
    ensures Apply(Apply(s, Pick(task)), LoadUser(|s.attempts|)) ==
              s.(attempts := s.attempts + [Attempt(s.queue[task], Loaded(s.users[s.queue[task]]))])
  {
    var s1 := Apply(s, Pick(task));
    assert s1.attempts == s.attempts + [Attempt(s.queue[task], Picked)];
  }

  lemma StoresAndSends(s: State, k: nat, name: string, secretCode: string)
    requires name in s.users && s.users[name].username == name
    requires k < |s.attempts| && s.attempts[k] == Attempt(name, Loaded(s.users[name]))
    ensures Enabled(s, StoreCode(k, secretCode)) && Enabled(Apply(s, StoreCode(k, secretCode)), SendMail(k))
    ensures var row := VerifyEmail(s.nextEmail, name, s.users[name].email, secretCode, false, s.clock, s.clock + 900);
            Apply(Apply(s, StoreCode(k, secretCode)), SendMail(k)) ==
              s.(emails := s.emails[row.id := row], nextEmail := s.nextEmail + 1,
                 mails := s.mails + [Mail(row.email, name, row.id, secretCode)],
                 attempts := s.attempts[k := Attempt(name, Sent)])
  {
  }
}
