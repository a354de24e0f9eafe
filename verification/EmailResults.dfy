// What every run of the sign-up and email-verification protocol guarantees.
module EmailResults {
  import opened Wrappers
  import opened Users
  import opened EmailProtocol

  lemma InitInv(clock: int)
    ensures Inv(Init(clock))
  {
  }

  lemma Reachable(clock: int, run: seq<Action>)
    requires ValidRun(Init(clock), run)
    ensures Inv(Final(Init(clock), run))
  {
    InitInv(clock);
    InvRun(Init(clock), run);
  }

  // ----- the verified flag

  /** Over every mix of sign-ups, worker retries, profile updates and verifications, a user is flagged exactly when some
      verification row of that username is used. */
  lemma FlagMeansUsedCode(clock: int, run: seq<Action>, name: string)
    requires ValidRun(Init(clock), run) && name in Final(Init(clock), run).users
    ensures var s := Final(Init(clock), run);
            s.users[name].isEmailVerified <==>
              exists id :: id in s.emails && s.emails[id].username == name && s.emails[id].isUsed
  {
    Reachable(clock, run);
  }

  // ----- one-shot codes

  /** A row is used exactly when one committed verification, and no other, consumed it; that one presented its id and
      its code and began before it expired. */
  lemma UsedOnce(clock: int, run: seq<Action>, id: int)
    requires ValidRun(Init(clock), run) && id in Final(Init(clock), run).emails
    ensures var s := Final(Init(clock), run);
            && (s.emails[id].isUsed <==>
                  exists k :: 0 <= k < |s.verifies| && s.verifies[k].phase.Verified? && s.verifies[k].emailId == id)
            && (forall j, k | 0 <= j < k < |s.verifies| &&
                              s.verifies[j].phase.Verified? && s.verifies[k].phase.Verified? ::
                  s.verifies[j].emailId != s.verifies[k].emailId)
            && (forall k | 0 <= k < |s.verifies| && s.verifies[k].phase.Verified? && s.verifies[k].emailId == id ::
                  s.verifies[k].secretCode == s.emails[id].secretCode && s.verifies[k].start < s.emails[id].expiredAt)
  {
    Reachable(clock, run);
    var s := Final(Init(clock), run);
    forall k | 0 <= k < |s.verifies| && s.verifies[k].phase.Verified?
      ensures VerifyOk(s.users, s.emails, s.verifies[k])
    {
    }
  }

  /** A committed verification row never changes, except that committing a verification of it sets `isUsed`, once. */
  lemma RowsAreOneShot(s: State, a: Action, id: int)
    requires Inv(s) && Enabled(s, a) && id in s.emails
    ensures var s' := Apply(s, a);
            && id in s'.emails
            && (s'.emails[id] == s.emails[id] ||
                (a.CommitVerify? && s.verifies[a.k].emailId == id && !s.emails[id].isUsed &&
                 s'.emails[id] == s.emails[id].(isUsed := true)))
  {
    if a.CommitVerify? {
      assert VerifyOk(s.users, s.emails, s.verifies[a.k]);
    }
  }

  /** The row `id` has expired unused, and no verification of it that began in time is under way. */
  ghost predicate Expired(s: State, id: int) {
    && id in s.emails && !s.emails[id].isUsed && s.emails[id].expiredAt <= s.clock
    && forall v | v in s.verifies && v.emailId == id ::
         v.phase.Rejected? || (v.phase.Begun? && v.start >= s.emails[id].expiredAt)
  }

  lemma ExpiredStep(s: State, a: Action, id: int)
    requires Inv(s) && Expired(s, id) && Enabled(s, a)
    ensures Expired(Apply(s, a), id)
  {
    if a.Consume? || a.Reject? || a.Flag? || a.CommitVerify? || a.FaultVerify? {
      ExpiredVerify(s, a, id);
    } else {
      RowsAreOneShot(s, a, id);
    }
  }

  lemma ExpiredVerify(s: State, a: Action, id: int)
    requires RowsOk(s.users, s.emails, s.nextEmail, s.queue) && WritesOk(s.users, s.emails, s.verifies)
    requires Expired(s, id) && Enabled(s, a)
    requires a.Consume? || a.Reject? || a.Flag? || a.CommitVerify? || a.FaultVerify?
    ensures Expired(Apply(s, a), id)
  {
    var s', v := Apply(s, a), s.verifies[a.k];
    assert v in s.verifies && VerifyOk(s.users, s.emails, v);
    assert s'.verifies == s.verifies[a.k := s'.verifies[a.k]];
    assert v.emailId == id ==> s'.verifies[a.k] == v.(phase := Rejected);
    ExpiredMove(s, a.k, s'.verifies[a.k], id);
  }

  lemma ExpiredMove(s: State, k: nat, v: Verify, id: int)
    requires Expired(s, id) && k < |s.verifies| && v.emailId == s.verifies[k].emailId
    requires v.emailId == id ==> v.phase.Rejected?
    ensures Expired(s.(verifies := s.verifies[k := v]), id)
  {
  }

  /** A code that expired unused stays unused for ever, whatever is presented later. */
  lemma {:induction false} ExpiredStaysUnused(s: State, run: seq<Action>, id: int)
    requires Inv(s) && Expired(s, id) && ValidRun(s, run)
    ensures id in Final(s, run).emails && Final(s, run).emails[id] == s.emails[id]
    decreases |run|
  {
    if run != [] {
      InvStep(s, run[0]);
      ExpiredStep(s, run[0], id);
      RowsAreOneShot(s, run[0], id);
      ExpiredStaysUnused(Apply(s, run[0]), run[1..], id);
    }
  }

  // ----- verifications never deadlock

  /** Verification `k` needs a row that verification `j` has locked. */
  ghost predicate WaitsFor(s: State, k: nat, j: nat) {
    && k < |s.verifies| && j < |s.verifies|
    && match s.verifies[k].phase
       case Begun => HoldsEmail(s.verifies[j], s.verifies[k].emailId)
       case Consumed(row) => HoldsUser(s.verifies[j], row.username)
       case _ => false
  }

  /** How many rows a verification has locked; the email row always comes before the user row. */
  function Rank(v: Verify): nat {
    match v.phase
    case Consumed(_) => 1
    case Flagged(_, _) => 2
    case _ => 0
  }

  /** A chain of verifications, each waiting for the next. */
  ghost predicate Chain(s: State, path: seq<nat>) {
    |path| >= 2 && forall i | 0 <= i < |path| - 1 :: WaitsFor(s, path[i], path[i + 1])
  }

  lemma {:induction false} ChainRises(s: State, path: seq<nat>)
    requires Chain(s, path)
    ensures forall i | 0 <= i < |path| :: path[i] < |s.verifies|
    ensures Rank(s.verifies[path[0]]) < Rank(s.verifies[path[|path| - 1]])
    decreases |path|
  {
    assert WaitsFor(s, path[0], path[1]);
    if |path| > 2 {
      var rest := path[1..];
      forall i | 0 <= i < |rest| - 1
        ensures WaitsFor(s, rest[i], rest[i + 1])
      {
        assert WaitsFor(s, path[i + 1], path[i + 2]);
      }
      ChainRises(s, rest);
      forall i | 0 <= i < |path|
        ensures path[i] < |s.verifies|
      {
        assert i == 0 || path[i] == rest[i - 1];
      }
    }
  }

  predicate Unfinished(v: Verify) {
    v.phase.Begun? || v.phase.Consumed? || v.phase.Flagged?
  }

  ghost predicate CanMove(s: State, k: nat) {
    Enabled(s, Consume(k)) || Enabled(s, Reject(k)) || Enabled(s, Flag(k)) || Enabled(s, CommitVerify(k))
  }

  lemma SomeoneMoves(s: State, k: nat) returns (j: nat)
    requires WritesOk(s.users, s.emails, s.verifies) && RowsOk(s.users, s.emails, s.nextEmail, s.queue)
    requires k < |s.verifies| && Unfinished(s.verifies[k])
    ensures CanMove(s, j)
  {
    if i :| 0 <= i < |s.verifies| && s.verifies[i].phase.Flagged? {
      j := i;
    } else if i :| 0 <= i < |s.verifies| && s.verifies[i].phase.Consumed? {
      j := i;
      assert VerifyOk(s.users, s.emails, s.verifies[i]);
      assert Enabled(s, Flag(j));
    } else {
      j := k;
      assert EmailUnlocked(s, s.verifies[k].emailId);
    }
  }

  /** Concurrent verifications never wait in a circle, and while one is unfinished some one can take its next step. */
  lemma VerificationsNeverStuck(clock: int, run: seq<Action>)
    requires ValidRun(Init(clock), run)
    ensures var s := Final(Init(clock), run);
            && (forall path | Chain(s, path) :: path[0] != path[|path| - 1])
            && ((exists k :: 0 <= k < |s.verifies| && Unfinished(s.verifies[k])) ==> exists j :: CanMove(s, j))
  {
    Reachable(clock, run);
    var s := Final(Init(clock), run);
    forall path | Chain(s, path)
      ensures path[0] != path[|path| - 1]
    {
      ChainRises(s, path);
    }
    if k :| 0 <= k < |s.verifies| && Unfinished(s.verifies[k]) {
      var j := SomeoneMoves(s, k);
    }
  }

  // ----- the outbox

  /** A sign-up's own task, shared with no other sign-up, is in the queue before its user is committed; rows and mails
      exist only for committed users, and a mail carries the id, code and address of a committed row of its user. */
  lemma OutboxOrder(clock: int, run: seq<Action>)
    requires ValidRun(Init(clock), run)
    ensures var s := Final(Init(clock), run);
            && (forall k: nat | Enabled(s, CommitSignUp(k)) :: OwnTask(s.queue, s.signUps[k]))
            && (forall u | u in s.signUps && u.phase.SignedUp? :: OwnTask(s.queue, u) && u.user.username in s.users)
            && (forall j, k | 0 <= j < k < |s.signUps| && IsQueued(s.signUps[j]) && IsQueued(s.signUps[k]) ::
                  s.signUps[j].phase.task != s.signUps[k].phase.task)
            && (forall id | id in s.emails :: s.emails[id].username in s.users && s.emails[id].username in s.queue)
            && (forall m | m in s.mails ::
                  m.emailId in s.emails && s.emails[m.emailId].secretCode == m.secretCode &&
                  s.emails[m.emailId].username == m.username && s.emails[m.emailId].email == m.to)
  {
    Reachable(clock, run);
    var s := Final(Init(clock), run);
    forall m | m in s.mails
      ensures MailOk(s.emails, m)
    {
    }
    forall k: nat | Enabled(s, CommitSignUp(k))
      ensures OwnTask(s.queue, s.signUps[k])
    {
      assert s.signUps[k] in s.signUps;
    }
  }

  lemma Run1(s: State, a: Action)
    requires Enabled(s, a)
    ensures ValidRun(s, [a]) && Final(s, [a]) == Apply(s, a)
  {
    assert [a][1..] == [];
    assert ValidRun(Apply(s, a), []) && Final(Apply(s, a), []) == Apply(s, a);
  }

  lemma RunCons(s: State, a: Action, rest: seq<Action>)
    requires Enabled(s, a) && ValidRun(Apply(s, a), rest)
    ensures ValidRun(s, [a] + rest) && Final(s, [a] + rest) == Final(Apply(s, a), rest)
  {
    assert ([a] + rest)[1..] == rest;
  }

  lemma {:induction false} RunAppend(s: State, run: seq<Action>, more: seq<Action>)
    requires ValidRun(s, run) && ValidRun(Final(s, run), more)
    ensures ValidRun(s, run + more) && Final(s, run + more) == Final(Final(s, run), more)
    decreases |run|
  {
    if run == [] {
      assert run + more == more;
    } else {
      RunAppend(Apply(s, run[0]), run[1..], more);
      RunCons(s, run[0], run[1..] + more);
      assert run + more == [run[0]] + (run[1..] + more);
    }
  }

  /** The four steps of a verification with nothing in its way. */
  function VerifySteps(s: State, emailId: int, secretCode: string): seq<Action> {
    var k := |s.verifies|;
    [BeginVerify(emailId, secretCode)] + ([Consume(k)] + ([Flag(k)] + [CommitVerify(k)]))
  }

  /** A verification that nothing stands in the way of locks its email row, then its user row. */
  lemma LocksBoth(s: State, k: nat)
    requires HasVerify(s, k) && s.verifies[k].phase.Begun?
    requires var v := s.verifies[k];
             && EmailUnlocked(s, v.emailId) && Consumable(s.emails, v.emailId, v.secretCode, v.start)
             && UserUnlocked(s, s.emails[v.emailId].username) && s.emails[v.emailId].username in s.users
    ensures Enabled(s, Consume(k)) && Enabled(Apply(s, Consume(k)), Flag(k))
    ensures var s' := Apply(Apply(s, Consume(k)), Flag(k));
            var row := s.emails[s.verifies[k].emailId];
            var flagged := Flagged(row.(isUsed := true), ApplyUpdate(s.users[row.username], VERIFIED));
            s' == s.(verifies := s.verifies[k := s.verifies[k].(phase := flagged)])
  {
    var s' := Apply(s, Consume(k));
    assert forall j | 0 <= j < |s.verifies| && j != k :: s'.verifies[j] == s.verifies[j];
    assert UserUnlocked(s', s.emails[s.verifies[k].emailId].username);
  }

  lemma BeginsUnlocked(s: State, m: Mail)
    requires EmailUnlocked(s, m.emailId) && UserUnlocked(s, m.username)
    ensures var s' := Apply(s, BeginVerify(m.emailId, m.secretCode));
            && EmailUnlocked(s', m.emailId) && UserUnlocked(s', m.username)
            && s' == s.(verifies := s.verifies + [Verify(m.emailId, m.secretCode, s.clock, Begun)])
  {
  }

  /** Both rows change at the commit. */
  lemma CommitsBoth(s: State, k: nat, row: VerifyEmail, user: User)
    requires HasVerify(s, k) && s.verifies[k].phase == Flagged(row, user)
    ensures Enabled(s, CommitVerify(k))
    ensures Apply(s, CommitVerify(k)) ==
              s.(emails := s.emails[row.id := row], users := s.users[user.username := user],
                 log := s.log + [Updated(row.username, VERIFIED)],
                 verifies := s.verifies[k := s.verifies[k].(phase := Verified(row))])
  {
  }

  lemma Run4(s: State, a: Action, b: Action, c: Action, d: Action)
    requires Enabled(s, a) && Enabled(Apply(s, a), b) && Enabled(Apply(Apply(s, a), b), c)
    requires Enabled(Apply(Apply(Apply(s, a), b), c), d)
    ensures ValidRun(s, [a] + ([b] + ([c] + [d])))
    ensures Final(s, [a] + ([b] + ([c] + [d]))) == Apply(Apply(Apply(Apply(s, a), b), c), d)
  {
    var s1 := Apply(s, a);
    var s2 := Apply(s1, b);
    Run1(Apply(s2, c), d);
    RunCons(s2, c, [d]);
    RunCons(s1, b, [c] + [d]);
    RunCons(s, a, [b] + ([c] + [d]));
  }

  /** A mailed link works: presented while its row is unused, unexpired and unlocked, it flags the user it was sent to
      and uses up the row. */
  lemma MailedCodeWorks(s: State, m: Mail)
    requires Inv(s) && m in s.mails
    requires !s.emails[m.emailId].isUsed && s.emails[m.emailId].expiredAt > s.clock
    requires EmailUnlocked(s, m.emailId) && UserUnlocked(s, m.username)
    ensures ValidRun(s, VerifySteps(s, m.emailId, m.secretCode))
    ensures var s' := Final(s, VerifySteps(s, m.emailId, m.secretCode));
            var row := s.emails[m.emailId].(isUsed := true);
            && m.username in s.users
            && s' == s.(users := s.users[m.username := s.users[m.username].(isEmailVerified := true)],
                        emails := s.emails[m.emailId := row],
                        log := s.log + [Updated(m.username, VERIFIED)],
                        verifies := s.verifies + [Verify(m.emailId, m.secretCode, s.clock, Verified(row))])
  {
    assert MailOk(s.emails, m);
    UnhinderedWorks(s, m);
  }

  lemma UnhinderedWorks(s: State, m: Mail)
    requires RowsOk(s.users, s.emails, s.nextEmail, s.queue) && MailOk(s.emails, m)
    requires !s.emails[m.emailId].isUsed && s.emails[m.emailId].expiredAt > s.clock
    requires EmailUnlocked(s, m.emailId) && UserUnlocked(s, m.username)
    ensures ValidRun(s, VerifySteps(s, m.emailId, m.secretCode))
    ensures var row := s.emails[m.emailId].(isUsed := true);
            Final(s, VerifySteps(s, m.emailId, m.secretCode)) ==
              s.(users := s.users[m.username := s.users[m.username].(isEmailVerified := true)],
                 emails := s.emails[m.emailId := row],
                 log := s.log + [Updated(m.username, VERIFIED)],
                 verifies := s.verifies + [Verify(m.emailId, m.secretCode, s.clock, Verified(row))])
  {
    var k, row := |s.verifies|, s.emails[m.emailId].(isUsed := true);
    BeginsUnlocked(s, m);
    var s1 := Apply(s, BeginVerify(m.emailId, m.secretCode));
    LocksBoth(s1, k);
    CommitsBoth(Apply(Apply(s1, Consume(k)), Flag(k)), k, row, ApplyUpdate(s.users[m.username], VERIFIED));
    Run4(s, BeginVerify(m.emailId, m.secretCode), Consume(k), Flag(k), CommitVerify(k));
  }

  // ----- user rows are the serial result of the committed changes

  function CreatedOf(log: seq<Event>, name: string): Option<User> {
    if log == [] then None
    else
      match log[|log| - 1]
      case Created(user) => if user.username == name then Some(user) else CreatedOf(log[..|log| - 1], name)
      case _ => CreatedOf(log[..|log| - 1], name)
  }

  /** The committed updates of a user since its row was created. */
  function UpdatesOf(log: seq<Event>, name: string): seq<UserUpdate> {
    if log == [] then []
    else
      var before := UpdatesOf(log[..|log| - 1], name);
      match log[|log| - 1]
      case Created(user) => if user.username == name then [] else before
      case Updated(username, update) =>
        if username == name && CreatedOf(log[..|log| - 1], name).Some? then before + [update] else before
  }

  lemma {:induction false} ReplayIsApplyAll(log: seq<Event>, name: string)
    ensures Replay(log, name) ==
              match CreatedOf(log, name)
              case None => None
              case Some(user) => Some(ApplyAll(user, UpdatesOf(log, name)))
  {
    if log != [] {
      ReplayIsApplyAll(log[..|log| - 1], name);
      var before := UpdatesOf(log[..|log| - 1], name);
      match log[|log| - 1] {
        case Created(_) =>
        case Updated(_, update) => assert (before + [update])[..|before|] == before;
      }
    }
  }

  predicate FreshUser(user: User) {
    !user.isEmailVerified && user.passwordChangedAt == NEVER && user.role == DEPOSITOR
  }

  /** Only profile updates and verifications change users, and rows start out unverified. */
  ghost predicate LogShape(s: State) {
    && (forall e | e in s.log ::
          match e
          case Created(user) => FreshUser(user)
          case Updated(_, update) => update == VERIFIED || IsProfileUpdate(update))
    && (forall u | u in s.signUps :: FreshUser(u.user))
  }

  lemma {:induction false} LogShapeRun(s: State, run: seq<Action>)
    requires LogShape(s) && ValidRun(s, run)
    ensures LogShape(Final(s, run))
    decreases |run|
  {
    if run != [] {
      LogShapeStep(s, run[0]);
      LogShapeRun(Apply(s, run[0]), run[1..]);
    }
  }

  lemma LogShapeStep(s: State, a: Action)
    requires LogShape(s) && Enabled(s, a)
    ensures LogShape(Apply(s, a))
  {
    if a.Enqueue? || a.CommitSignUp? || a.AbandonSignUp? {
      assert s.signUps[a.k] in s.signUps;
    }
  }

  lemma {:induction false} LoggedUpdates(log: seq<Event>, name: string)
    ensures forall u | u in UpdatesOf(log, name) :: Updated(name, u) in log
    ensures CreatedOf(log, name).Some? ==> Created(CreatedOf(log, name).value) in log
  {
    if log != [] {
      LoggedUpdates(log[..|log| - 1], name);
    }
  }

  /** No update is lost, however they interleave: a stored user is the created row changed by one update, the
      right-biased merge of all committed ones in commit order; the password and its date change only together, and the
      role never does. */
  lemma NoLostUpdate(clock: int, run: seq<Action>, name: string)
    requires ValidRun(Init(clock), run) && name in Final(Init(clock), run).users
    ensures var s := Final(Init(clock), run);
            var created, merged := CreatedOf(s.log, name), MergeAll(UpdatesOf(s.log, name));
            && created.Some? && FreshUser(created.value)
            && s.users[name] == ApplyUpdate(created.value, merged)
            && (merged.hashedPassword.Some? <==> merged.passwordChangedAt.Some?)
            && s.users[name].role == DEPOSITOR
  {
    Reachable(clock, run);
    LogShapeRun(Init(clock), run);
    var s := Final(Init(clock), run);
    var updates := UpdatesOf(s.log, name);
    ReplayIsApplyAll(s.log, name);
    LoggedUpdates(s.log, name);
    UpdatesMerge(CreatedOf(s.log, name).value, updates);
    forall i | 0 <= i < |updates|
      ensures updates[i].hashedPassword.Some? <==> updates[i].passwordChangedAt.Some?
    {
      assert Updated(name, updates[i]) in s.log;
    }
    PasswordDated(updates);
  }
}
