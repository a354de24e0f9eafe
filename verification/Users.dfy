// User rows, verification codes, and the algebra of partial profile updates.
module Users {
  import opened Wrappers

  datatype User = User(
    username: string, hashedPassword: string, fullName: string, email: string,
    passwordChangedAt: int, createdAt: int, isEmailVerified: bool, role: string)

  datatype VerifyEmail = VerifyEmail(
    id: int, username: string, email: string, secretCode: string, isUsed: bool, createdAt: int, expiredAt: int)

  datatype CreateUserParams = CreateUserParams(username: string, hashedPassword: string, fullName: string,
                                               email: string)

  /** The optional columns of UpdateUser; None keeps the stored value. */
  datatype UserUpdate = UserUpdate(
    hashedPassword: Option<string>, passwordChangedAt: Option<int>, fullName: Option<string>, email: Option<string>,
    isEmailVerified: Option<bool>)

  /** The column default of `password_changed_at`: the zero time. */
  const NEVER: int := 0

  const DEPOSITOR := "depositor"
  const BANKER := "banker"

  /** Seconds a verification code lives. */
  const CODE_LIFETIME: int := 15 * 60

  /** The row INSERT INTO users creates at time `now`. */
  function NewUser(arg: CreateUserParams, now: int): User {
    User(arg.username, arg.hashedPassword, arg.fullName, arg.email, NEVER, now, false, DEPOSITOR)
  }

  function NewVerifyEmail(id: int, username: string, email: string, secretCode: string, now: int): VerifyEmail {
    VerifyEmail(id, username, email, secretCode, false, now, now + CODE_LIFETIME)
  }

  /** bcrypt, idealised: a hash matches the password it was made from and no other. */
  function HashPassword(password: string): string {
    "bcrypt:" + password
  }

  predicate CheckPassword(password: string, hashed: string) {
    hashed == HashPassword(password)
  }

  /** A hash matches exactly the password it was made from. */
  lemma PasswordMeaning(password: string, attempt: string)
    ensures CheckPassword(attempt, HashPassword(password)) <==> attempt == password
  {
    assert HashPassword(attempt)[|"bcrypt:"|..] == attempt;
    assert HashPassword(password)[|"bcrypt:"|..] == password;
  }

  function Coalesce<T>(value: Option<T>, stored: T): T {
    match value
    case Some(v) => v
    case None => stored
  }

  function ApplyUpdate(user: User, u: UserUpdate): User {
    user.(hashedPassword := Coalesce(u.hashedPassword, user.hashedPassword),
          passwordChangedAt := Coalesce(u.passwordChangedAt, user.passwordChangedAt),
          fullName := Coalesce(u.fullName, user.fullName),
          email := Coalesce(u.email, user.email),
          isEmailVerified := Coalesce(u.isEmailVerified, user.isEmailVerified))
  }

  /** COALESCE, column by column: what is set replaces what is stored, and the rest stays. */
  lemma UpdateColumns(user: User, u: UserUpdate)
    ensures var row := ApplyUpdate(user, u);
            && row.username == user.username && row.createdAt == user.createdAt && row.role == user.role
            && row.hashedPassword == (if u.hashedPassword.Some? then u.hashedPassword.value else user.hashedPassword)
            && row.passwordChangedAt ==
                 (if u.passwordChangedAt.Some? then u.passwordChangedAt.value else user.passwordChangedAt)
            && row.fullName == (if u.fullName.Some? then u.fullName.value else user.fullName)
            && row.email == (if u.email.Some? then u.email.value else user.email)
            && row.isEmailVerified ==
                 (if u.isEmailVerified.Some? then u.isEmailVerified.value else user.isEmailVerified)
  {
  }

  const NO_CHANGE := UserUpdate(None, None, None, None, None)

  /** The update VerifyEmailTx sends. */
  const VERIFIED := UserUpdate(None, None, None, None, Some(true))

  /** The condition of UpdateVerifyEmail, for a transaction that started at `start`. */
  predicate Consumable(emails: map<int, VerifyEmail>, id: int, secretCode: string, start: int) {
    id in emails && emails[id].secretCode == secretCode && !emails[id].isUsed && emails[id].expiredAt > start
  }

  // ----- the gRPC profile update

  datatype UpdateRequest = UpdateRequest(username: string, fullName: Option<string>, email: Option<string>,
                                         password: Option<string>)

  /** The parameters the UpdateUser handler builds; `hashed` is what bcrypt makes of the new password, if there is one,
      and `now` the clock. */
  function BuildUpdate(req: UpdateRequest, hashed: string, now: int): UserUpdate {
    match req.password
    case None => UserUpdate(None, None, req.fullName, req.email, None)
    case Some(_) => UserUpdate(Some(hashed), Some(now), req.fullName, req.email, None)
  }

  /** What every update sent by that handler looks like. */
  predicate IsProfileUpdate(u: UserUpdate) {
    u.isEmailVerified.None? && (u.hashedPassword.Some? <==> u.passwordChangedAt.Some?)
  }

  // ----- algebra

  function Latest<T>(first: Option<T>, second: Option<T>): Option<T> {
    if second.Some? then second else first
  }

  /** Two updates as one; the second wins column by column. */
  function Then(first: UserUpdate, second: UserUpdate): UserUpdate {
    UserUpdate(Latest(first.hashedPassword, second.hashedPassword),
               Latest(first.passwordChangedAt, second.passwordChangedAt),
               Latest(first.fullName, second.fullName),
               Latest(first.email, second.email),
               Latest(first.isEmailVerified, second.isEmailVerified))
  }

  function ApplyAll(user: User, updates: seq<UserUpdate>): User {
    if updates == [] then user else ApplyUpdate(ApplyAll(user, updates[..|updates| - 1]), updates[|updates| - 1])
  }

  function MergeAll(updates: seq<UserUpdate>): UserUpdate {
    if updates == [] then NO_CHANGE else Then(MergeAll(updates[..|updates| - 1]), updates[|updates| - 1])
  }

  function Changed<T(==)>(stored: T, wanted: T): Option<T> {
    if stored == wanted then None else Some(wanted)
  }

  /** The smallest update that turns one row into another. */
  function Difference(user: User, wanted: User): UserUpdate {
    UserUpdate(Changed(user.hashedPassword, wanted.hashedPassword),
               Changed(user.passwordChangedAt, wanted.passwordChangedAt),
               Changed(user.fullName, wanted.fullName),
               Changed(user.email, wanted.email),
               Changed(user.isEmailVerified, wanted.isEmailVerified))
  }

  /** A partial update reaches exactly the rows that share the key, the creation time and the role; the update that sets
      just the columns that differ then does. */
  lemma UpdateReaches(user: User, wanted: User)
    ensures (exists u :: ApplyUpdate(user, u) == wanted) <==>
              user.username == wanted.username && user.createdAt == wanted.createdAt && user.role == wanted.role
    ensures (exists u :: ApplyUpdate(user, u) == wanted) <==> ApplyUpdate(user, Difference(user, wanted)) == wanted
  {
    forall u
      ensures ApplyUpdate(user, u).username == user.username
      ensures ApplyUpdate(user, u).createdAt == user.createdAt && ApplyUpdate(user, u).role == user.role
    {
    }
    if user.username == wanted.username && user.createdAt == wanted.createdAt && user.role == wanted.role {
      assert ApplyUpdate(user, Difference(user, wanted)) == wanted;
    }
  }

  /** Any sequence of updates is one update: their right-biased merge. */
  lemma {:induction false} UpdatesMerge(user: User, updates: seq<UserUpdate>)
    ensures ApplyAll(user, updates) == ApplyUpdate(user, MergeAll(updates))
  {
    if updates != [] {
      UpdatesMerge(user, updates[..|updates| - 1]);
    }
  }

  /** If each update sets the password and its date together, so does the merge. */
  lemma {:induction false} PasswordDated(updates: seq<UserUpdate>)
    requires forall i | 0 <= i < |updates| :: updates[i].hashedPassword.Some? <==> updates[i].passwordChangedAt.Some?
    ensures MergeAll(updates).hashedPassword.Some? <==> MergeAll(updates).passwordChangedAt.Some?
  {
    if updates != [] {
      PasswordDated(updates[..|updates| - 1]);
    }
  }

  /** Where in a sequence of profile updates the verification lands makes no difference. */
  lemma {:induction false} VerificationCommutes(user: User, before: seq<UserUpdate>, after: seq<UserUpdate>)
    requires forall u | u in after :: IsProfileUpdate(u)
    ensures ApplyAll(user, before + [VERIFIED] + after) == ApplyUpdate(ApplyAll(user, before + after), VERIFIED)
    decreases |after|
  {
    var left := before + [VERIFIED] + after;
    if after == [] {
      assert left[..|left| - 1] == before;
      assert before + after == before;
    } else {
      var n := |after| - 1;
      assert left[..|left| - 1] == before + [VERIFIED] + after[..n];
      assert (before + after)[..|before + after| - 1] == before + after[..n];
      assert after[n] in after;
      VerificationCommutes(user, before, after[..n]);
    }
  }
}
