/**
 * The user record and the changes the account operations make to a single
 * record: issuing and consuming the email-verification code, issuing and
 * consuming the password-reset token. Times are milliseconds since the epoch.
 */
module UserRecord {
  import opened Wrappers
  import opened Text

  /** The store's identifier of a user (Mongo's `_id`). */
  type UserId = nat

  /** The two roles the server ever stores. */
  datatype Role = ADMIN | USER

  function RoleName(r: Role): string {
    match r
    case ADMIN => "ADMIN"
    case USER => "USER"
  }

  /** Accepts exactly the two role names, case-sensitively. */
  function ParseRole(s: string): (r: Option<Role>)
    ensures r.Some? <==> s == "ADMIN" || s == "USER"
    ensures r.Some? ==> RoleName(r.value) == s
  {
    if s == "ADMIN" then Some(ADMIN) else if s == "USER" then Some(USER) else None
  }

  lemma RoleRoundTrip(r: Role)
    ensures ParseRole(RoleName(r)) == Some(r)
  {
  }

  /** 24 hours: how long a verification code stays usable. */
  const VerificationLifetime := 24 * 60 * 60 * 1000
  /** One hour: how long a reset token stays usable. */
  const ResetLifetime := 60 * 60 * 1000

  datatype User = User(
    email: string,
    password: string,            // the bcrypt hash, never the password itself
    name: string,
    role: Role,
    isVerified: bool,
    isSuspended: bool,
    verificationToken: Option<string>,
    verificationTokenExpiresAt: Option<int>,
    resetPasswordToken: Option<string>,
    resetPasswordExpiresAt: Option<int>,
    lastLogin: Option<int>)

  /** A user as sent to clients: every field except the password hash. */
  datatype UserView = UserView(
    email: string,
    name: string,
    role: Role,
    isVerified: bool,
    isSuspended: bool,
    verificationToken: Option<string>,
    verificationTokenExpiresAt: Option<int>,
    resetPasswordToken: Option<string>,
    resetPasswordExpiresAt: Option<int>,
    lastLogin: Option<int>)

  /** A user rebuilt from its view and a password hash. */
  function WithPassword(v: UserView, hash: string): User {
    User(v.email, hash, v.name, v.role, v.isVerified, v.isSuspended,
         v.verificationToken, v.verificationTokenExpiresAt,
         v.resetPasswordToken, v.resetPasswordExpiresAt, v.lastLogin)
  }

  /** `select("-password")`: the view drops the hash and nothing else, so the view and the hash give the user back. */
  function View(u: User): (r: UserView)
    ensures WithPassword(r, u.password) == u
  {
    UserView(u.email, u.name, u.role, u.isVerified, u.isSuspended,
             u.verificationToken, u.verificationTokenExpiresAt,
             u.resetPasswordToken, u.resetPasswordExpiresAt, u.lastLogin)
  }

  /** The view carries everything but the hash: two users differing only in it look the same. */
  lemma ViewHidesOnlyThePassword(u: User, v: User)
    ensures View(u) == View(v) <==> u.(password := v.password) == v
  {
  }

  function Pow10(k: nat): nat {
    if k == 0 then 1 else 10 * Pow10(k - 1)
  }

  lemma {:induction false} NatToStringLength(n: nat, k: nat)
    requires k >= 1 && Pow10(k - 1) <= n < Pow10(k)
    ensures |NatToString(n)| == k
    decreases k
  {
    if k > 1 {
      assert Pow10(k - 2) <= n / 10 < Pow10(k - 1);
      NatToStringLength(n / 10, k - 1);
    } else {
      assert n < 10;
    }
  }

  /** The code signup draws is written with exactly six digits. */
  lemma SignupCodeHasSixDigits(code: nat)
    requires 100000 <= code <= 999999
    ensures |NatToString(code)| == 6 && AllDigits(NatToString(code))
  {
    assert Pow10(5) == 100000 && Pow10(6) == 1000000;
    NatToStringLength(code, 6);
  }

  /**
   * The record signup stores: the given e-mail, hash and name, role USER, not
   * verified, not suspended, never logged in, no reset pending, and a code
   * that matches, and alone matches, until 24 hours have passed.
   */
  function NewUser(email: string, hash: string, name: string, code: nat, now: int): (r: User)
    ensures r.email == email && r.password == hash && r.name == name
    ensures r.role == USER && !r.isVerified && !r.isSuspended && r.lastLogin.None?
    ensures forall t :: CodeMatches(r, NatToString(code), t) <==> t < now + VerificationLifetime
    ensures forall c, t :: CodeMatches(r, c, t) ==> c == NatToString(code)
    ensures forall token, t :: !ResetMatches(r, token, t)
  {
    User(email, hash, name, USER, false, false,
         Some(NatToString(code)), Some(now + VerificationLifetime), None, None, None)
  }

  /**
   * The record the admin bootstrap stores: the given e-mail, hash and name,
   * role ADMIN, verified from the start, not suspended, with no code and no
   * reset token to match.
   */
  function NewAdmin(email: string, hash: string, name: string): (r: User)
    ensures r.email == email && r.password == hash && r.name == name
    ensures r.role == ADMIN && r.isVerified && !r.isSuspended && r.lastLogin.None?
    ensures forall c, t :: !CodeMatches(r, c, t) && !ResetMatches(r, c, t)
  {
    User(email, hash, name, ADMIN, true, false, None, None, None, None, None)
  }

  /** The verification lookup: same code, and an expiry strictly after `now`. */
  predicate CodeMatches(u: User, code: string, now: int) {
    u.verificationToken == Some(code) &&
    u.verificationTokenExpiresAt.Some? && u.verificationTokenExpiresAt.value > now
  }

  /**
   * Verified, with both code fields cleared (by the code or by an admin), so
   * that no code matches any more; every other field is kept.
   */
  function MarkVerified(u: User): (r: User)
    ensures r.isVerified
    ensures forall c, t :: !CodeMatches(r, c, t)
    ensures r.(isVerified := u.isVerified, verificationToken := u.verificationToken,
               verificationTokenExpiresAt := u.verificationTokenExpiresAt) == u
  {
    u.(isVerified := true, verificationToken := None, verificationTokenExpiresAt := None)
  }

  function WithResetToken(u: User, token: string, now: int): User {
    u.(resetPasswordToken := Some(token), resetPasswordExpiresAt := Some(now + ResetLifetime))
  }

  /** The reset lookup: same token, and an expiry strictly after `now`. */
  predicate ResetMatches(u: User, token: string, now: int) {
    u.resetPasswordToken == Some(token) &&
    u.resetPasswordExpiresAt.Some? && u.resetPasswordExpiresAt.value > now
  }

  /**
   * The new hash stored and both reset fields cleared, so that no token
   * matches any more; every other field is kept.
   */
  function AfterReset(u: User, hash: string): (r: User)
    ensures r.password == hash
    ensures forall token, t :: !ResetMatches(r, token, t)
    ensures r.(password := u.password, resetPasswordToken := u.resetPasswordToken,
               resetPasswordExpiresAt := u.resetPasswordExpiresAt) == u
  {
    u.(password := hash, resetPasswordToken := None, resetPasswordExpiresAt := None)
  }

  /** A fresh code is accepted exactly until 24 hours have passed. */
  lemma NewCodeLifetime(email: string, hash: string, name: string, code: nat, issued: int, now: int)
    ensures CodeMatches(NewUser(email, hash, name, code, issued), NatToString(code), now)
        <==> now < issued + VerificationLifetime
  {
  }

  /** Once verified, a record matches no code at any time. */
  lemma VerifiedCodeIsSpent(u: User, code: string, now: int)
    ensures !CodeMatches(MarkVerified(u), code, now)
  {
  }

  /** A reset token is accepted exactly until one hour after it was issued, and only that token. */
  lemma ResetTokenLifetime(u: User, token: string, issued: int, other: string, now: int)
    ensures ResetMatches(WithResetToken(u, token, issued), other, now)
        <==> other == token && now < issued + ResetLifetime
  {
  }

  /** After a reset, the record matches no token at any time. */
  lemma ResetTokenIsSpent(u: User, hash: string, token: string, now: int)
    ensures !ResetMatches(AfterReset(u, hash), token, now)
  {
  }
}
