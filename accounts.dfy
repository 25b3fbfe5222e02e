/**
 * The account lifecycle over the user store: the authentication controller
 * (signup, email verification, login, logout, forgot / reset password), the
 * user controller (self-service and admin operations) and the admin bootstrap.
 *
 * The store is a map from id to user record. Time is a `now` parameter, the
 * random verification code, reset token, new id and new hash are inputs
 * constrained by `requires`, bcrypt's comparison is the store's abstract
 * `matches` relation, and sending a mail is an abstract outcome.
 */
module Accounts {
  import opened Wrappers
  import opened Text
  import opened ResponseModel
  import opened UserRecord

  /** What the response does to the session cookie. */
  datatype Cookie =
    | KeepCookie
    | SetSession(userId: UserId, role: Role)   // a signed {userId, role} token, valid 7 days
    | ClearSession

  /** The `data` of an account response. */
  datatype Payload =
    | UserData(user: UserView)                 // the record with the password hash removed
    | FullUserData(full: User)                 // the saved record as is, hash included
    | UsersData(users: map<UserId, UserView>)

  datatype Reply = Reply(cookie: Cookie, body: Response<Payload>)

  /** The outcome of handing a mail to the mail transport. */
  datatype MailOutcome = Sent | MailFailed(reason: string)

  /** What the admin bootstrap ends with (it only logs). */
  datatype AdminOutcome = AdminExists | SaveFailed | Created(id: UserId)

  function Answer(success: bool, status: int, message: string, data: Option<Payload> := None): Reply {
    Reply(KeepCookie, CreateResponse(success, status, message, data))
  }

  const UserNotFound := Answer(false, 400, "User not found")
  const InvalidCredentials := Answer(false, 400, "Invalid credentials")

  // ---------------------------------------------------------------- email shape

  /** JavaScript's `\s`: the WhiteSpace and LineTerminator code points. */
  predicate IsJsSpace(c: char) {
    c == '\t' || c == '\n' || c == '\U{000B}' || c == '\U{000C}' || c == '\r' || c == ' ' ||
    c == '\U{00A0}' || c == '\U{1680}' || ('\U{2000}' <= c <= '\U{200A}') ||
    c == '\U{2028}' || c == '\U{2029}' || c == '\U{202F}' || c == '\U{205F}' || c == '\U{3000}' || c == '\U{FEFF}'
  }

  /** `[^\s@]` */
  predicate IsEmailAtom(c: char) {
    !IsJsSpace(c) && c != '@'
  }

  predicate AllAtoms(s: string) {
    forall k :: 0 <= k < |s| ==> IsEmailAtom(s[k])
  }

  /** `local@host.tld`, each part one or more `[^\s@]`. */
  ghost predicate EmailParts(e: string, local: string, host: string, tld: string) {
    |local| > 0 && |host| > 0 && |tld| > 0 &&
    AllAtoms(local) && AllAtoms(host) && AllAtoms(tld) &&
    e == local + "@" + host + "." + tld
  }

  /** Position `at` holds the single '@', position `dot` a '.' splitting the rest in two non-empty parts. */
  predicate SplitsAt(e: string, at: nat, dot: nat) {
    0 < at && at + 1 < dot && dot + 1 < |e| && e[at] == '@' && e[dot] == '.' &&
    forall k :: 0 <= k < |e| && k != at ==> IsEmailAtom(e[k])
  }

  /** Some position holds the single '@' and a later one a '.' with text on both sides. */
  predicate HasEmailSplit(e: string) {
    exists at: nat, dot: nat | at < |e| && dot < |e| :: SplitsAt(e, at, dot)
  }

  /** The position-based check accepts exactly the strings of the form local@host.tld. */
  lemma ValidEmailIffParts(e: string)
    ensures HasEmailSplit(e) <==> exists local, host, tld :: EmailParts(e, local, host, tld)
  {
    if HasEmailSplit(e) {
      var at: nat, dot: nat :| at < |e| && dot < |e| && SplitsAt(e, at, dot);
      var local, host, tld := e[..at], e[at + 1..dot], e[dot + 1..];
      assert e == local + "@" + host + "." + tld;
      assert AllAtoms(local) && AllAtoms(host) && AllAtoms(tld) by {
        forall k | 0 <= k < |host| ensures IsEmailAtom(host[k]) {
          assert host[k] == e[at + 1 + k];
        }
        forall k | 0 <= k < |tld| ensures IsEmailAtom(tld[k]) {
          assert tld[k] == e[dot + 1 + k];
        }
      }
      assert EmailParts(e, local, host, tld);
    }
    if exists local, host, tld :: EmailParts(e, local, host, tld) {
      var local, host, tld :| EmailParts(e, local, host, tld);
      var at, dot := |local|, |local| + 1 + |host|;
      forall k | 0 <= k < |e| && k != at ensures IsEmailAtom(e[k]) {
        if k < at {
          assert e[k] == local[k];
        } else if k < dot {
          assert e[k] == host[k - at - 1];
        } else if k == dot {
          assert e[k] == '.';
        } else {
          assert e[k] == tld[k - dot - 1];
        }
      }
      assert SplitsAt(e, at, dot);
    }
  }

  /** The signup check `/^[^\s@]+@[^\s@]+\.[^\s@]+$/.test(email)`: local@host.tld, each part free of whitespace and `@`. */
  predicate IsValidEmail(e: string): (r: bool)
    ensures r <==> exists local, host, tld :: EmailParts(e, local, host, tld)
  {
    ValidEmailIffParts(e);
    HasEmailSplit(e)
  }

  // ---------------------------------------------------------------- the store

  /** Emails identify users: the store never holds two records with the same email. */
  ghost predicate UniqueEmails(users: map<UserId, User>) {
    forall a, b :: a in users && b in users && users[a].email == users[b].email ==> a == b
  }

  predicate EmailTaken(users: map<UserId, User>, email: string) {
    exists id :: id in users && users[id].email == email
  }

  predicate HasAdmin(users: map<UserId, User>) {
    exists id :: id in users && users[id].role == ADMIN
  }

  /** The users a verification lookup with `code` at time `now` can find. */
  ghost function CodeHolders(users: map<UserId, User>, code: string, now: int): set<UserId> {
    set id | id in users && CodeMatches(users[id], code, now)
  }

  /** The users a reset lookup with `token` at time `now` can find. */
  ghost function ResetHolders(users: map<UserId, User>, token: string, now: int): set<UserId> {
    set id | id in users && ResetMatches(users[id], token, now)
  }

  /** `crypto.randomBytes(20).toString("hex")`: forty lowercase hex digits. */
  predicate IsResetToken(t: string) {
    |t| == 40 && forall k :: 0 <= k < |t| ==> IsDigit(t[k]) || 'a' <= t[k] <= 'f'
  }

  class AccountStore {
    var users: map<UserId, User>
    /** bcrypt's compare(password, hash). */
    const matches: (string, string) -> bool

    ghost predicate Valid()
      reads this
    {
      UniqueEmails(users)
    }

    constructor (matches: (string, string) -> bool)
      ensures users == map[] && this.matches == matches && Valid()
    {
      users := map[];
      this.matches := matches;
    }

    /**
     * Registers a user (role USER, unverified, a six-digit code valid for 24
     * hours), signs them in, and mails the code. The record is stored and the
     * session set even when the mail then fails.
     */
    method Signup(email: string, password: string, name: string,
                  newId: UserId, hash: string, code: nat, now: int, mail: MailOutcome)
      returns (reply: Reply)
      requires Valid()
      requires newId !in users && matches(password, hash) && 100000 <= code <= 999999
      modifies this
      ensures Valid()
      ensures email == "" || password == "" || name == "" ==>
                reply == Answer(false, 400, "All fields are required") && users == old(users)
      ensures email != "" && password != "" && name != "" && !IsValidEmail(email) ==>
                reply == Answer(false, 400, "Invalid email") && users == old(users)
      ensures email != "" && password != "" && name != "" && IsValidEmail(email) && EmailTaken(old(users), email) ==>
                reply == Answer(false, 400, "User already exists") && users == old(users)
      ensures email != "" && password != "" && name != "" && IsValidEmail(email) && !EmailTaken(old(users), email) ==>
                var u := NewUser(email, hash, name, code, now);
                users == old(users)[newId := u] &&
                reply.cookie == SetSession(newId, USER) &&
                reply.body == (if mail.Sent? then CreateResponse(true, 201, "User created successfully", Some(UserData(View(u))))
                               else CreateResponse(false, 400, mail.reason))
    {
      if email == "" || password == "" || name == "" {
        return Answer(false, 400, "All fields are required");
      }
      if !IsValidEmail(email) {
        return Answer(false, 400, "Invalid email");
      }
      if EmailTaken(users, email) {
        return Answer(false, 400, "User already exists");
      }
      var u := NewUser(email, hash, name, code, now);
      users := users[newId := u];
      var cookie := SetSession(newId, USER);
      if mail.MailFailed? {
        return Reply(cookie, CreateResponse(false, 400, mail.reason));
      }
      reply := Reply(cookie, CreateResponse(true, 201, "User created successfully", Some(UserData(View(u)))));
    }

    /**
     * Consumes a verification code: some user holding it, unexpired, becomes
     * verified and loses the code; `verified` names that user.
     */
    method VerifyEmail(code: string, now: int, mail: MailOutcome) returns (reply: Reply, verified: Option<UserId>)
      requires Valid()
      modifies this
      ensures Valid()
      ensures verified.None? <==> CodeHolders(old(users), code, now) == {}
      ensures verified.None? ==>
                users == old(users) && reply == Answer(false, 400, "Invalid or expired verification code")
      ensures verified.Some? ==>
                var id := verified.value;
                id in CodeHolders(old(users), code, now) &&
                users == old(users)[id := MarkVerified(old(users)[id])] &&
                reply == (if mail.Sent? then Answer(true, 200, "Email verified successfully", Some(UserData(View(users[id]))))
                          else Answer(false, 500, "Server error"))
    {
      if id :| id in users && CodeMatches(users[id], code, now) {
        assert id in CodeHolders(users, code, now);
        users := users[id := MarkVerified(users[id])];
        verified := Some(id);
        if mail.Sent? {
          reply := Answer(true, 200, "Email verified successfully", Some(UserData(View(users[id]))));
        } else {
          reply := Answer(false, 500, "Server error");
        }
      } else {
        assert CodeHolders(users, code, now) == {};
        verified := None;
        reply := Answer(false, 400, "Invalid or expired verification code");
      }
    }

    /**
     * Signs a user in. An unknown email and a wrong password give the same
     * answer; on success only `lastLogin` changes. Neither verification nor
     * suspension is looked at.
     */
    method Login(email: string, password: string, now: int) returns (reply: Reply)
      requires Valid()
      modifies this
      ensures Valid()
      ensures !EmailTaken(old(users), email) ==> reply == InvalidCredentials && users == old(users)
      ensures forall id :: id in old(users) && old(users)[id].email == email ==>
                if matches(password, old(users)[id].password) then
                  users == old(users)[id := old(users)[id].(lastLogin := Some(now))] &&
                  reply == Reply(SetSession(id, old(users)[id].role),
                                 CreateResponse(true, 200, "Logged in successfully", Some(UserData(View(users[id])))))
                else
                  reply == InvalidCredentials && users == old(users)
    {
      if !EmailTaken(users, email) {
        return InvalidCredentials;
      }
      var id :| id in users && users[id].email == email;
      var u := users[id];
      if !matches(password, u.password) {
        return InvalidCredentials;
      }
      users := users[id := u.(lastLogin := Some(now))];
      reply := Reply(SetSession(id, u.role), CreateResponse(true, 200, "Logged in successfully", Some(UserData(View(users[id])))));
    }

    /** Issues a reset token valid for one hour, replacing any earlier one, and mails the link. */
    method ForgotPassword(email: string, token: string, now: int, mail: MailOutcome) returns (reply: Reply)
      requires Valid()
      requires IsResetToken(token)
      modifies this
      ensures Valid()
      ensures !EmailTaken(old(users), email) ==> reply == UserNotFound && users == old(users)
      ensures forall id :: id in old(users) && old(users)[id].email == email ==>
                users == old(users)[id := WithResetToken(old(users)[id], token, now)] &&
                reply == (if mail.Sent? then Answer(true, 200, "Password reset link sent to your email")
                          else Answer(false, 400, mail.reason))
    {
      if !EmailTaken(users, email) {
        return UserNotFound;
      }
      var id :| id in users && users[id].email == email;
      users := users[id := WithResetToken(users[id], token, now)];
      if mail.Sent? {
        reply := Answer(true, 200, "Password reset link sent to your email");
      } else {
        reply := Answer(false, 400, mail.reason);
      }
    }

    /** Consumes a reset token: the holder gets the new hash and loses the token. */
    method ResetPassword(token: string, password: string, hash: string, now: int, mail: MailOutcome)
      returns (reply: Reply, reset: Option<UserId>)
      requires Valid()
      requires matches(password, hash)
      modifies this
      ensures Valid()
      ensures reset.None? <==> ResetHolders(old(users), token, now) == {}
      ensures reset.None? ==> users == old(users) && reply == Answer(false, 400, "Invalid or expired reset token")
      ensures reset.Some? ==>
                var id := reset.value;
                id in ResetHolders(old(users), token, now) &&
                users == old(users)[id := AfterReset(old(users)[id], hash)] &&
                reply == (if mail.Sent? then Answer(true, 200, "Password reset successful")
                          else Answer(false, 400, mail.reason))
    {
      if id :| id in users && ResetMatches(users[id], token, now) {
        assert id in ResetHolders(users, token, now);
        users := users[id := AfterReset(users[id], hash)];
        reset := Some(id);
        if mail.Sent? {
          reply := Answer(true, 200, "Password reset successful");
        } else {
          reply := Answer(false, 400, mail.reason);
        }
      } else {
        assert ResetHolders(users, token, now) == {};
        reset := None;
        reply := Answer(false, 400, "Invalid or expired reset token");
      }
    }

    /** Sets the name when the given one is non-empty; answers with the whole saved record. */
    method UpdateUserDetails(userId: UserId, name: Option<string>) returns (reply: Reply)
      requires Valid()
      modifies this
      ensures Valid()
      ensures userId !in old(users) ==> reply == UserNotFound && users == old(users)
      ensures userId in old(users) ==>
                var u := old(users)[userId];
                users == old(users)[userId := if Truthy(name) then u.(name := name.value) else u] &&
                reply == Answer(true, 200, "User details updated", Some(FullUserData(users[userId])))
    {
      if userId !in users {
        return UserNotFound;
      }
      var u := users[userId];
      if Truthy(name) {
        u := u.(name := name.value);
      }
      users := users[userId := u];
      reply := Answer(true, 200, "User details updated", Some(FullUserData(u)));
    }

    /** Replaces the hash when the old password matches the stored one. */
    method ChangePassword(userId: UserId, oldPassword: string, newPassword: string, hash: string, mail: MailOutcome)
      returns (reply: Reply)
      requires Valid()
      requires matches(newPassword, hash)
      modifies this
      ensures Valid()
      ensures userId !in old(users) ==> reply == UserNotFound && users == old(users)
      ensures userId in old(users) && !matches(oldPassword, old(users)[userId].password) ==>
                reply == Answer(false, 400, "Old password is incorrect") && users == old(users)
      ensures userId in old(users) && matches(oldPassword, old(users)[userId].password) ==>
                users == old(users)[userId := old(users)[userId].(password := hash)] &&
                reply == (if mail.Sent? then Answer(true, 200, "Password updated successfully")
                          else Answer(false, 500, mail.reason))
    {
      if userId !in users {
        return UserNotFound;
      }
      if !matches(oldPassword, users[userId].password) {
        return Answer(false, 400, "Old password is incorrect");
      }
      users := users[userId := users[userId].(password := hash)];
      if mail.Sent? {
        reply := Answer(true, 200, "Password updated successfully");
      } else {
        reply := Answer(false, 500, mail.reason);
      }
    }

    /** Removes the caller's own record and clears their session cookie. */
    method DeleteSelf(userId: UserId) returns (reply: Reply)
      requires Valid()
      modifies this
      ensures Valid()
      ensures userId !in old(users) ==> reply == UserNotFound && users == old(users)
      ensures userId in old(users) ==>
                users == old(users) - {userId} &&
                reply == Reply(ClearSession, CreateResponse(true, 200, "User deleted successfully"))
    {
      if userId !in users {
        return UserNotFound;
      }
      users := users - {userId};
      reply := Reply(ClearSession, CreateResponse(true, 200, "User deleted successfully"));
    }

    /** Sets the role to "USER" or "ADMIN"; the user is looked up before the role is checked. */
    method UpdateUserRole(userId: UserId, role: string) returns (reply: Reply)
      requires Valid()
      modifies this
      ensures Valid()
      ensures userId !in old(users) ==> reply == UserNotFound && users == old(users)
      ensures userId in old(users) && role != "USER" && role != "ADMIN" ==>
                reply == Answer(false, 400, "Invalid role") && users == old(users)
      ensures userId in old(users) && (role == "USER" || role == "ADMIN") ==>
                var u := old(users)[userId].(role := ParseRole(role).value);
                RoleName(u.role) == role &&
                users == old(users)[userId := u] &&
                reply == Answer(true, 200, "User role updated", Some(FullUserData(u)))
    {
      if userId !in users {
        return UserNotFound;
      }
      var r := ParseRole(role);
      if r.None? {
        return Answer(false, 400, "Invalid role");
      }
      var u := users[userId].(role := r.value);
      users := users[userId := u];
      reply := Answer(true, 200, "User role updated", Some(FullUserData(u)));
    }

    /** Removes a record (admin); the caller's session is untouched. */
    method DeleteUser(userId: UserId) returns (reply: Reply)
      requires Valid()
      modifies this
      ensures Valid()
      ensures userId !in old(users) ==> reply == UserNotFound && users == old(users)
      ensures userId in old(users) ==>
                users == old(users) - {userId} && reply == Answer(true, 200, "User deleted successfully")
    {
      if userId !in users {
        return UserNotFound;
      }
      users := users - {userId};
      reply := Answer(true, 200, "User deleted successfully");
    }

    /** Verifies a user without a code (admin), clearing the code fields, and mails a welcome. */
    method ApproveUserEmail(userId: UserId, mail: MailOutcome) returns (reply: Reply)
      requires Valid()
      modifies this
      ensures Valid()
      ensures userId !in old(users) ==> reply == UserNotFound && users == old(users)
      ensures userId in old(users) && old(users)[userId].isVerified ==>
                reply == Answer(false, 400, "User is already verified") && users == old(users)
      ensures userId in old(users) && !old(users)[userId].isVerified ==>
                users == old(users)[userId := MarkVerified(old(users)[userId])] &&
                reply == (if mail.Sent? then Answer(true, 200, "User's email has been verified")
                          else Answer(false, 500, mail.reason))
    {
      if userId !in users {
        return UserNotFound;
      }
      if users[userId].isVerified {
        return Answer(false, 400, "User is already verified");
      }
      users := users[userId := MarkVerified(users[userId])];
      if mail.Sent? {
        reply := Answer(true, 200, "User's email has been verified");
      } else {
        reply := Answer(false, 500, mail.reason);
      }
    }

    /** Sets `isSuspended` and nothing else. */
    method SuspendUser(userId: UserId) returns (reply: Reply)
      requires Valid()
      modifies this
      ensures Valid()
      ensures userId !in old(users) ==> reply == UserNotFound && users == old(users)
      ensures userId in old(users) ==>
                users == old(users)[userId := old(users)[userId].(isSuspended := true)] &&
                reply == Answer(true, 200, "User suspended successfully")
    {
      if userId !in users {
        return UserNotFound;
      }
      users := users[userId := users[userId].(isSuspended := true)];
      reply := Answer(true, 200, "User suspended successfully");
    }

    /**
     * The admin bootstrap: nothing happens when some user is already an
     * admin; otherwise one verified ADMIN record is added, unless its email
     * is taken, in which case the save fails and is only logged.
     */
    method CreateAdmin(email: string, password: string, name: string, newId: UserId, hash: string)
      returns (outcome: AdminOutcome)
      requires Valid()
      requires newId !in users && matches(password, hash)
      modifies this
      ensures Valid()
      ensures HasAdmin(old(users)) ==> outcome == AdminExists && users == old(users)
      ensures !HasAdmin(old(users)) && EmailTaken(old(users), email) ==> outcome == SaveFailed && users == old(users)
      ensures !HasAdmin(old(users)) && !EmailTaken(old(users), email) ==>
                outcome == Created(newId) && users == old(users)[newId := NewAdmin(email, hash, name)]
      ensures outcome.Created? ==> HasAdmin(users) && matches(password, users[newId].password)
    {
      if HasAdmin(users) {
        return AdminExists;
      }
      if EmailTaken(users, email) {
        return SaveFailed;
      }
      users := users[newId := NewAdmin(email, hash, name)];
      assert users[newId].role == ADMIN;
      outcome := Created(newId);
    }

    /** Running the bootstrap twice adds at most one record, and the second run never creates one. */
    method CreateAdminTwice(email: string, password: string, name: string,
                            id1: UserId, hash1: string, id2: UserId, hash2: string)
      returns (first: AdminOutcome, second: AdminOutcome)
      requires Valid()
      requires id1 !in users && id2 !in users && id1 != id2
      requires matches(password, hash1) && matches(password, hash2)
      modifies this
      ensures Valid()
      ensures !second.Created?
      ensures users == old(users) || (first == Created(id1) && users.Keys == old(users).Keys + {id1})
    {
      first := CreateAdmin(email, password, name, id1, hash1);
      second := CreateAdmin(email, password, name, id2, hash2);
    }
  }

  // ---------------------------------------------------------------- read endpoints and logout

  /** The caller's own record, without the hash. */
  function GetUserDetails(users: map<UserId, User>, userId: UserId): (r: Reply)
    ensures r.cookie == KeepCookie
    ensures r.body.success <==> userId in users
    ensures userId !in users ==> r == UserNotFound
    ensures userId in users ==>
              r.body.statusCode == 200 && r.body.data == Some(UserData(View(users[userId])))
  {
    if userId !in users then UserNotFound
    else Answer(true, 200, "User details fetched successfully", Some(UserData(View(users[userId]))))
  }

  /** Every record, without the hashes (admin). */
  function GetAllUsers(users: map<UserId, User>): (r: Reply)
    ensures r.body.success && r.body.statusCode == 200
    ensures r.body.data.Some? && r.body.data.value.UsersData?
    ensures r.body.data.value.users.Keys == users.Keys
    ensures forall id :: id in users ==> r.body.data.value.users[id] == View(users[id])
  {
    Answer(true, 200, "Users fetched successfully", Some(UsersData(map id | id in users :: View(users[id]))))
  }

  /** One record by id, without the hash (admin). */
  function GetUserById(users: map<UserId, User>, userId: UserId): (r: Reply)
    ensures r.cookie == KeepCookie
    ensures r.body.success <==> userId in users
    ensures userId !in users ==> r == UserNotFound
    ensures userId in users ==>
              r.body.statusCode == 200 && r.body.data == Some(UserData(View(users[userId])))
  {
    if userId !in users then UserNotFound
    else Answer(true, 200, "User fetched successfully", Some(UserData(View(users[userId]))))
  }

  /** Clears the session cookie; nothing is looked up. */
  function Logout(): (r: Reply)
    ensures r.cookie == ClearSession
    ensures r.body.success && r.body.statusCode == 200 && r.body.data.None?
  {
    Reply(ClearSession, CreateResponse(true, 200, "Logged out successfully"))
  }

  // ---------------------------------------------------------------- properties

  /** The read endpoints answer the same whatever hash any user has: the hash never leaks. */
  lemma ReadEndpointsHidePasswords(users: map<UserId, User>, id: UserId, hash: string, asked: UserId)
    requires id in users
    ensures var changed := users[id := users[id].(password := hash)];
            GetUserDetails(changed, asked) == GetUserDetails(users, asked) &&
            GetUserById(changed, asked) == GetUserById(users, asked) &&
            GetAllUsers(changed) == GetAllUsers(users)
  {
    var changed := users[id := users[id].(password := hash)];
    assert changed.Keys == users.Keys;
    forall k | k in users ensures View(changed[k]) == View(users[k]) {
    }
    var a := map k | k in changed :: View(changed[k]);
    var b := map k | k in users :: View(users[k]);
    assert a == b;
  }

  /** Consuming a code takes exactly that user out of the code's holders, at every time. */
  lemma VerifyingRemovesOnlyThatHolder(users: map<UserId, User>, id: UserId, code: string, t: int)
    requires id in users
    ensures CodeHolders(users[id := MarkVerified(users[id])], code, t) == CodeHolders(users, code, t) - {id}
  {
    VerifiedCodeIsSpent(users[id], code, t);
  }

  /** When one user held the code, using it again at the same or a later time finds nobody. */
  lemma SecondVerificationFails(users: map<UserId, User>, id: UserId, code: string, now: int, later: int)
    requires CodeHolders(users, code, now) == {id} && now <= later
    ensures CodeHolders(users[id := MarkVerified(users[id])], code, later) == {}
  {
    assert id in CodeHolders(users, code, now);
    VerifyingRemovesOnlyThatHolder(users, id, code, later);
    forall k | k in CodeHolders(users, code, later) ensures k == id {
      assert k in CodeHolders(users, code, now);
    }
  }

  /** Consuming a reset token takes exactly that user out of the token's holders, at every time. */
  lemma ResettingRemovesOnlyThatHolder(users: map<UserId, User>, id: UserId, hash: string, token: string, t: int)
    requires id in users
    ensures ResetHolders(users[id := AfterReset(users[id], hash)], token, t) == ResetHolders(users, token, t) - {id}
  {
    ResetTokenIsSpent(users[id], hash, token, t);
  }

  /** When one user held the token, using it again at the same or a later time finds nobody. */
  lemma SecondResetFails(users: map<UserId, User>, id: UserId, hash: string, token: string, now: int, later: int)
    requires ResetHolders(users, token, now) == {id} && now <= later
    ensures ResetHolders(users[id := AfterReset(users[id], hash)], token, later) == {}
  {
    assert id in ResetHolders(users, token, now);
    ResettingRemovesOnlyThatHolder(users, id, hash, token, later);
    forall k | k in ResetHolders(users, token, later) ensures k == id {
      assert k in ResetHolders(users, token, now);
    }
  }

  /** A code found by the lookup has not expired, so it was issued less than 24 hours ago when issued by signup. */
  lemma SignupCodeExpires(users: map<UserId, User>, id: UserId, email: string, hash: string, name: string,
                          code: nat, issued: int, now: int)
    requires id in users && users[id] == NewUser(email, hash, name, code, issued)
    ensures id in CodeHolders(users, NatToString(code), now) <==> now < issued + VerificationLifetime
  {
    NewCodeLifetime(email, hash, name, code, issued, now);
  }
}
