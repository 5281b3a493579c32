/** The account lifecycle of controllers/users.js over the user collection:
    signup, email verification, login, logout, forgotten and reset
    passwords, password change, the user listings, account deletion and
    access-token refresh.

    Each request is one atomic step. Handlers that change stored users are
    methods of `UserStore`; handlers that only read it are functions of the
    collection. Randomness (`Math.random`, `crypto.randomBytes`), the bcrypt
    salt, the clock (`Date.now`) and the id a new document receives are
    parameters. The notification emails cannot fail their caller and change
    nothing stored, so they do not appear. */
module Accounts {
  import opened Base
  import opened Text
  import opened UserModel
  import opened Tokens

  /** One hour in milliseconds: the lifetime of verification and reset tokens. */
  const TokenWindow: int := 3600000

  /** A handler's response together with what it did to the cookies. */
  datatype Reply<+T> = Reply(response: Response<T>, cookies: seq<CookieOp>)

  // Queries on the collection (`findOne`, `findById`).

  function ByEmail(users: seq<User>, email: string): Option<nat> {
    FirstIndex(users, (u: User) => u.email == email)
  }

  function ById(users: seq<User>, id: UserId): Option<nat> {
    FirstIndex(users, (u: User) => u.id == id)
  }

  /** `{verificationToken: token, verificationTokenExpires: {$gt: now}}`. */
  predicate AwaitsVerification(u: User, token: string, now: int) {
    u.verificationToken == Some(token) && u.verificationTokenExpires.Some? && u.verificationTokenExpires.value > now
  }

  function ByVerificationToken(users: seq<User>, token: string, now: int): Option<nat> {
    FirstIndex(users, (u: User) => AwaitsVerification(u, token, now))
  }

  /** `{resetPasswordToken: token, resetPasswordExpires: {$gt: now}}`. */
  predicate AwaitsReset(u: User, token: string, now: int) {
    u.resetPasswordToken == Some(token) && u.resetPasswordExpires.Some? && u.resetPasswordExpires.value > now
  }

  function ByResetToken(users: seq<User>, token: string, now: int): Option<nat> {
    FirstIndex(users, (u: User) => AwaitsReset(u, token, now))
  }

  /** The account registered under `email`, if any. */
  function Account(users: seq<User>, email: string): (r: Option<User>)
    ensures r.Some? ==> r.value.email == email && r.value in users
    ensures r.None? <==> forall j :: 0 <= j < |users| ==> users[j].email != email
  {
    match ByEmail(users, email)
    case None => None
    case Some(i) => Some(users[i])
  }

  // Tokens.

  /** `Math.floor(100000 + Math.random() * 900000)`, with `Math.random()`
      given as `random`. */
  function VerificationCode(random: real): (code: int)
    requires 0.0 <= random < 1.0
    ensures 100000 <= code <= 999999
  {
    (100000.0 + random * 900000.0).Floor
  }

  /** Six decimal digits without a leading zero. */
  predicate IsSixDigitCode(s: string) {
    |s| == 6 && AllDigits(s) && s[0] != '0'
  }

  /** The verification token signup stores and mails: the code's decimal
      string, which reads back as a number in [100000, 999999]. */
  function VerificationToken(random: real): (token: string)
    requires 0.0 <= random < 1.0
    ensures IsSixDigitCode(token)
    ensures 100000 <= DecimalValue(token) <= 999999
  {
    var code := VerificationCode(random);
    assert Pow10(5) == 100000 && Pow10(6) == 1000000;
    DecimalLength(code, 6);
    DecimalRoundTrip(code);
    DecimalString(code)
  }

  /** The reset token: the 32 random bytes as 64 lower-case hex digits. */
  function ResetToken(random: seq<Byte>): (token: string)
    requires |random| == 32
    ensures |token| == 64
    ensures forall k :: 0 <= k < |token| ==> IsHexDigit(token[k])
    ensures HexBytes(token) == random
  {
    HexRoundTrip(random);
    HexString(random)
  }

  // The field updates the handlers make before `save()`, which also stamps
  // `updatedAt`.

  function Verified(u: User, now: int): User {
    u.(isVerified := true, verificationToken := None, verificationTokenExpires := None, updatedAt := now)
  }

  function WithResetToken(u: User, token: string, expires: int, now: int): User {
    u.(resetPasswordToken := Some(token), resetPasswordExpires := Some(expires), updatedAt := now)
  }

  function PasswordReset(u: User, hash: PasswordHash, now: int): User {
    u.(password := hash, resetPasswordToken := None, resetPasswordExpires := None, updatedAt := now)
  }

  function PasswordChanged(u: User, hash: PasswordHash, now: int): User {
    u.(password := hash, updatedAt := now)
  }

  // Read-only handlers.

  /** `login`: the checks come in a fixed order (fields, account, password,
      verification), so the 403 for an unverified account is only ever given
      to a caller who knew its password. The stored user is not changed, in
      particular `lastLogin` is not updated. */
  function Login(users: seq<User>, email: string, password: string, cfg: Config): (r: Reply<UserView>)
    ensures r.response.status in {200, 400, 403}
    ensures r.response.status == 400 <==>
              email == "" || password == "" || Account(users, email).None?
              || !Matches(password, Account(users, email).value.password)
    ensures r.response.status == 403 <==>
              email != "" && password != "" && Account(users, email).Some?
              && Matches(password, Account(users, email).value.password)
              && !Account(users, email).value.isVerified
    ensures r.response.status == 200 ==>
              var u := Account(users, email).value;
              u.isVerified && Matches(password, u.password)
              && r.cookies == IssueSession(cfg, u.id, u.role) && r.response.data == Some(View(u))
    ensures r.response.status != 200 ==> r.cookies == [] && r.response.data == None
  {
    if email == "" || password == "" then
      Reply(Response(400, "All fields are required", None), [])
    else match Account(users, email)
      case None => Reply(Response(400, "user not found", None), [])
      case Some(u) =>
        if !Matches(password, u.password) then
          Reply(Response(400, "invalid credentials", None), [])
        else if !u.isVerified then
          Reply(Response(403, "Email not verified", None), [])
        else
          Reply(Response(200, "user logged in successfully", Some(View(u))), IssueSession(cfg, u.id, u.role))
  }

  /** `logout`: both session cookies are cleared, whatever the client held. */
  function Logout(): (r: Reply<()>)
    ensures r.response.status == 200
    ensures forall before :: CookieAfter(before, r.cookies, "accessToken") == None
    ensures forall before :: CookieAfter(before, r.cookies, "refreshToken") == None
  {
    var ops := [ClearCookie("accessToken"), ClearCookie("refreshToken")];
    assert ops[..1] == [ClearCookie("accessToken")];
    Reply(Response(200, "user logged out successfully", None), ops)
  }

  /** `getUser`: every stored user, each without its password hash, in
      collection order; 400 when there are none. */
  function GetUsers(users: seq<User>): (r: Response<seq<UserView>>)
    ensures r.status == 200 || r.status == 400
    ensures r.status == 400 <==> users == []
    ensures r.status == 200 ==> r.data.Some? && |r.data.value| == |users|
    ensures r.status == 200 ==>
              forall i :: 0 <= i < |users| ==> WithPassword(r.data.value[i], users[i].password) == users[i]
  {
    if users == [] then Response(400, "No user found", None)
    else Response(200, "Users fetched", Some(seq(|users|, i requires 0 <= i < |users| => View(users[i]))))
  }

  /** `getUserById` for the authenticated caller: their record without the
      password hash, or 404 once it is gone. */
  function GetUserById(users: seq<User>, callerId: UserId): (r: Response<UserView>)
    ensures r.status == 404 <==> forall j :: 0 <= j < |users| ==> users[j].id != callerId
    ensures r.status != 404 ==>
              r.status == 200 && r.data.Some? && r.data.value.id == callerId
              && exists j :: 0 <= j < |users| && View(users[j]) == r.data.value
  {
    match ById(users, callerId)
    case None => Response(404, "user not found", None)
    case Some(i) => Response(200, "user fetched successfully", Some(View(users[i])))
  }

  /** `refreshAccessToken`: 401 for a missing cookie, an invalid or expired
      token or a user that no longer exists; only an expired token also
      clears the refresh cookie. On success both tokens are reissued with the
      role currently stored for the user, not the role the old token claimed. */
  function RefreshAccessToken(users: seq<User>, refreshCookie: Option<Token>, cfg: Config, pastExpiry: bool): (r: Reply<()>)
    ensures r.response.status == 200 || r.response.status == 401
    ensures !Present(refreshCookie) ==> r == Reply(Response(401, "No refresh token provided.", None), [])
    ensures r.response.status == 200 <==>
              && Present(refreshCookie)
              && Verify(refreshCookie.value, cfg.refreshSecret, pastExpiry).Decoded?
              && ById(users, refreshCookie.value.payload.id).Some?
    ensures r.response.status == 200 ==>
              var u := users[ById(users, refreshCookie.value.payload.id).value];
              u.id == refreshCookie.value.payload.id && r.cookies == IssueSession(cfg, u.id, u.role)
    ensures r.cookies == [ClearCookie("refreshToken")] <==>
              Present(refreshCookie) && Verify(refreshCookie.value, cfg.refreshSecret, pastExpiry).Expired?
    ensures r.response.status == 401 && r.cookies != [] ==> r.cookies == [ClearCookie("refreshToken")]
  {
    if !Present(refreshCookie) then
      Reply(Response(401, "No refresh token provided.", None), [])
    else match Verify(refreshCookie.value, cfg.refreshSecret, pastExpiry)
      case Expired =>
        Reply(Response(401, "Refresh token expired. Please log in again.", None), [ClearCookie("refreshToken")])
      case Invalid =>
        Reply(Response(401, "Invalid refresh token.", None), [])
      case Decoded(payload) =>
        match ById(users, payload.id)
        case None => Reply(Response(401, "User not found for refresh token.", None), [])
        case Some(i) =>
          Reply(Response(200, "Access token refreshed successfully", None), IssueSession(cfg, users[i].id, users[i].role))
  }

  // Invariant bookkeeping.

  lemma ReplacePreservesValid(users: seq<User>, i: nat, u: User)
    requires ValidUsers(users) && i < |users|
    requires u.id == users[i].id && u.email == users[i].email && WellFormed(u)
    ensures ValidUsers(users[i := u])
  {
  }

  /** With unique emails, looking up a stored user's email finds that user. */
  lemma EmailLocates(users: seq<User>, i: nat)
    requires i < |users|
    requires forall a, b :: 0 <= a < b < |users| ==> users[a].email != users[b].email
    ensures ByEmail(users, users[i].email) == Some(i)
    ensures Account(users, users[i].email) == Some(users[i])
  {
  }

  /** With unique ids, looking up a stored user's id finds that user. */
  lemma IdLocates(users: seq<User>, i: nat)
    requires i < |users|
    requires forall a, b :: 0 <= a < b < |users| ==> users[a].id != users[b].id
    ensures ById(users, users[i].id) == Some(i)
  {
  }

  lemma ReplacePreservesEmails(users: seq<User>, i: nat, u: User)
    requires i < |users| && u.email == users[i].email
    requires forall a, b :: 0 <= a < b < |users| ==> users[a].email != users[b].email
    ensures var after := users[i := u];
            forall a, b :: 0 <= a < b < |after| ==> after[a].email != after[b].email
  {
  }

  lemma RemovePreservesValid(users: seq<User>, i: nat)
    requires ValidUsers(users) && i < |users|
    ensures ValidUsers(RemoveAt(users, i))
  {
    var r := RemoveAt(users, i);
    forall a, b | 0 <= a < b < |r| ensures r[a].id != r[b].id && r[a].email != r[b].email {
      var a' := if a < i then a else a + 1;
      var b' := if b < i then b else b + 1;
      assert r[a] == users[a'] && r[b] == users[b'];
    }
  }

  /** The user collection, updated in place by the handlers that write it. */
  class UserStore {
    var users: seq<User>

    ghost predicate Valid()
      reads this
    {
      ValidUsers(users)
    }

    constructor()
      ensures Valid() && users == []
    {
      users := [];
    }

    /** `signup`: 400 when a field is missing or the email is taken, with
        nothing stored; otherwise one new unverified user holding a six-digit
        verification token that expires an hour from now, and the session
        cookies are set straight away. */
    method Signup(name: string, email: string, password: string, now: int,
                  random: real, salt: nat, newId: UserId, cfg: Config)
      returns (res: Response<UserView>, cookies: seq<CookieOp>)
      requires Valid()
      requires 0.0 <= random < 1.0
      requires ById(users, newId).None?
      modifies this
      ensures Valid()
      ensures name == "" || email == "" || password == "" ==>
                res == Response(400, "all fields are required", None) && cookies == [] && users == old(users)
      ensures name != "" && email != "" && password != "" && Account(old(users), email).Some? ==>
                res == Response(400, "user already exists", None) && cookies == [] && users == old(users)
      ensures name != "" && email != "" && password != "" && Account(old(users), email).None? ==>
                var u := NewUser(newId, name, email, Hash(password, salt), VerificationToken(random), now + TokenWindow, now);
                && users == old(users) + [u]
                && cookies == IssueSession(cfg, newId, DefaultRole)
                && res == Response(201, "user created successfully", Some(View(u)))
    {
      if name == "" || email == "" || password == "" {
        return Response(400, "all fields are required", None), [];
      }
      var existing := ByEmail(users, email);
      if existing.Some? {
        return Response(400, "user already exists", None), [];
      }
      var hashed := Hash(password, salt);
      var verificationToken := VerificationToken(random);
      var verificationTokenExpires := now + TokenWindow;
      var user := NewUser(newId, name, email, hashed, verificationToken, verificationTokenExpires, now);
      users := users + [user];
      cookies := IssueSession(cfg, user.id, user.role);
      res := Response(201, "user created successfully", Some(View(user)));
    }

    /** `verifyEmail`: the first user holding `token` unexpired (its expiry
        strictly after `now`) becomes verified and loses both verification
        fields; 400 and no change when there is none. */
    method VerifyEmail(token: string, now: int) returns (res: Response<UserView>)
      requires Valid()
      modifies this
      ensures Valid()
      ensures ByVerificationToken(old(users), token, now).None? ==>
                res == Response(400, "invalid verification token", None) && users == old(users)
      ensures ByVerificationToken(old(users), token, now).Some? ==>
                var i := ByVerificationToken(old(users), token, now).value;
                && users == old(users)[i := Verified(old(users)[i], now)]
                && res == Response(200, "email verified successfully", Some(View(users[i])))
    {
      var found := ByVerificationToken(users, token, now);
      if found.None? {
        return Response(400, "invalid verification token", None);
      }
      var i := found.value;
      var user := users[i];
      user := user.(isVerified := true);
      user := user.(verificationToken := None);
      user := user.(verificationTokenExpires := None);
      user := user.(updatedAt := now);
      ReplacePreservesValid(users, i, user);
      users := users[i := user];
      res := Response(200, "email verified successfully", Some(View(user)));
    }

    /** `forgotPassword`: 400 for an unknown email; otherwise the account
        gets a fresh 64-hex-digit reset token expiring an hour from now, and
        nothing else changes. */
    method ForgotPassword(email: string, now: int, random: seq<Byte>) returns (res: Response<()>)
      requires Valid()
      requires |random| == 32
      modifies this
      ensures Valid()
      ensures ByEmail(old(users), email).None? ==>
                res == Response(400, "user not found", None) && users == old(users)
      ensures ByEmail(old(users), email).Some? ==>
                var i := ByEmail(old(users), email).value;
                && users == old(users)[i := WithResetToken(old(users)[i], ResetToken(random), now + TokenWindow, now)]
                && res == Response(200, "password reset email sent successfully", None)
    {
      var found := ByEmail(users, email);
      if found.None? {
        return Response(400, "user not found", None);
      }
      var i := found.value;
      var resetToken := ResetToken(random);
      var resetTokenExpires := now + TokenWindow;
      var user := users[i];
      user := user.(resetPasswordToken := Some(resetToken));
      user := user.(resetPasswordExpires := Some(resetTokenExpires));
      user := user.(updatedAt := now);
      ReplacePreservesValid(users, i, user);
      users := users[i := user];
      res := Response(200, "password reset email sent successfully", None);
    }

    /** `resetPassword`: 400 unless some user holds `token` unexpired. The new
        password's presence is never checked: when it is absent, hashing it
        throws and the reply is 500 with nothing changed. Otherwise the hash
        is replaced and both reset fields are cleared. */
    method ResetPassword(token: string, newPassword: Option<string>, now: int, salt: nat)
      returns (res: Response<()>)
      requires Valid()
      modifies this
      ensures Valid()
      ensures ByResetToken(old(users), token, now).None? ==>
                res == Response(400, "Invalid or expired reset token", None) && users == old(users)
      ensures ByResetToken(old(users), token, now).Some? && newPassword.None? ==>
                res == Response(500, "internal server error", None) && users == old(users)
      ensures ByResetToken(old(users), token, now).Some? && newPassword.Some? ==>
                var i := ByResetToken(old(users), token, now).value;
                && users == old(users)[i := PasswordReset(old(users)[i], Hash(newPassword.value, salt), now)]
                && res == Response(200, "Password reset successful", None)
    {
      var found := ByResetToken(users, token, now);
      if found.None? {
        return Response(400, "Invalid or expired reset token", None);
      }
      if newPassword.None? {
        return Response(500, "internal server error", None);
      }
      var i := found.value;
      var hashedPassword := Hash(newPassword.value, salt);
      var user := users[i];
      user := user.(password := hashedPassword);
      user := user.(resetPasswordToken := None);
      user := user.(resetPasswordExpires := None);
      user := user.(updatedAt := now);
      ReplacePreservesValid(users, i, user);
      users := users[i := user];
      res := Response(200, "Password reset successful", None);
    }

    /** `changePassword` for the authenticated caller: 400 when a field is
        missing or the old password is wrong, 404 when the caller is gone;
        otherwise only the password hash (and `updatedAt`) changes. */
    method ChangePassword(callerId: UserId, oldPassword: string, newPassword: string, now: int, salt: nat)
      returns (res: Response<UserView>)
      requires Valid()
      modifies this
      ensures Valid()
      ensures oldPassword == "" || newPassword == "" ==>
                res == Response(400, "All fields are required", None) && users == old(users)
      ensures oldPassword != "" && newPassword != "" && ById(old(users), callerId).None? ==>
                res == Response(404, "User not found", None) && users == old(users)
      ensures oldPassword != "" && newPassword != "" && ById(old(users), callerId).Some? ==>
                var i := ById(old(users), callerId).value;
                && (!Matches(oldPassword, old(users)[i].password) ==>
                      res == Response(400, "Invalid old password", None) && users == old(users))
                && (Matches(oldPassword, old(users)[i].password) ==>
                      && users == old(users)[i := PasswordChanged(old(users)[i], Hash(newPassword, salt), now)]
                      && res == Response(200, "Password changed successfully", Some(View(users[i]))))
    {
      if oldPassword == "" || newPassword == "" {
        return Response(400, "All fields are required", None);
      }
      var found := ById(users, callerId);
      if found.None? {
        return Response(404, "User not found", None);
      }
      var i := found.value;
      var user := users[i];
      if !Matches(oldPassword, user.password) {
        return Response(400, "Invalid old password", None);
      }
      var hashedPassword := Hash(newPassword, salt);
      user := user.(password := hashedPassword);
      user := user.(updatedAt := now);
      ReplacePreservesValid(users, i, user);
      users := users[i := user];
      res := Response(200, "Password changed successfully", Some(View(user)));
    }

    /** `deleteUser` for the authenticated caller: removes exactly that
        user. When the caller is already gone the 404 is sent but the handler
        does not return, so it goes on to attempt a second reply
        (`repliedTwice`), which throws; the client sees only the 404. */
    method DeleteUser(callerId: UserId) returns (res: Response<()>, repliedTwice: bool)
      requires Valid()
      modifies this
      ensures Valid()
      ensures ById(old(users), callerId).None? ==>
                res == Response(404, "user not found", None) && repliedTwice && users == old(users)
      ensures ById(old(users), callerId).Some? ==>
                && users == RemoveAt(old(users), ById(old(users), callerId).value)
                && res == Response(200, "user deleted successfully", None) && !repliedTwice
      ensures forall j :: 0 <= j < |users| ==> users[j].id != callerId
    {
      var found := ById(users, callerId);
      if found.None? {
        res := Response(404, "user not found", None);
        repliedTwice := true;
      } else {
        RemovePreservesValid(users, found.value);
        users := RemoveAt(users, found.value);
        res := Response(200, "user deleted successfully", None);
        repliedTwice := false;
      }
    }
  }

  // Properties that span several requests.

  /** A verification token works once: after it verified its account, no
      request can match it again unless another account was issued the same
      six digits. */
  lemma {:induction false} VerificationTokenSingleUse(users: seq<User>, token: string, now: int, later: int)
    requires ByVerificationToken(users, token, now).Some?
    requires forall j :: 0 <= j < |users| && users[j].verificationToken == Some(token) ==>
               j == ByVerificationToken(users, token, now).value
    ensures var i := ByVerificationToken(users, token, now).value;
            ByVerificationToken(users[i := Verified(users[i], now)], token, later).None?
  {
    var i := ByVerificationToken(users, token, now).value;
    var after := users[i := Verified(users[i], now)];
    forall j | 0 <= j < |after| ensures !AwaitsVerification(after[j], token, later) {
      if j != i {
        assert after[j] == users[j];
      }
    }
  }

  /** A verified account is never matched again by any token. */
  lemma VerifiedAccountNeverMatches(users: seq<User>, i: nat, token: string, now: int, later: int)
    requires i < |users|
    ensures ByVerificationToken(users[i := Verified(users[i], now)], token, later) != Some(i)
  {
  }

  /** A reset token works once: after it reset its account's password no
      request can match it again unless another account holds the same
      token. */
  lemma {:induction false} ResetTokenSingleUse(users: seq<User>, token: string, hash: PasswordHash, now: int, later: int)
    requires ByResetToken(users, token, now).Some?
    requires forall j :: 0 <= j < |users| && users[j].resetPasswordToken == Some(token) ==>
               j == ByResetToken(users, token, now).value
    ensures var i := ByResetToken(users, token, now).value;
            ByResetToken(users[i := PasswordReset(users[i], hash, now)], token, later).None?
  {
    var i := ByResetToken(users, token, now).value;
    var after := users[i := PasswordReset(users[i], hash, now)];
    forall j | 0 <= j < |after| ensures !AwaitsReset(after[j], token, later) {
      if j != i {
        assert after[j] == users[j];
      }
    }
  }

  /** Once a verified account's password hash is replaced by a hash of
      `newPassword` (by changePassword or resetPassword), login succeeds with
      the new password and fails with 400 for any other. */
  lemma {:induction false} LoginAfterPasswordReplaced(users: seq<User>, i: nat, updated: User,
                                                      newPassword: string, otherPassword: string,
                                                      salt: nat, cfg: Config)
    requires ValidUsers(users) && i < |users|
    requires updated.email == users[i].email && updated.isVerified
    requires updated.password == Hash(newPassword, salt)
    requires newPassword != "" && otherPassword != newPassword
    ensures Login(users[i := updated], updated.email, newPassword, cfg).response.status == 200
    ensures Login(users[i := updated], updated.email, otherPassword, cfg).response.status == 400
  {
    var after := users[i := updated];
    ReplacePreservesEmails(users, i, updated);
    EmailLocates(after, i);
  }

  /** changePassword with the right old password makes later logins accept
      the new password and refuse the old one. */
  lemma ChangePasswordTakesEffect(users: seq<User>, i: nat, oldPassword: string, newPassword: string,
                                  salt: nat, now: int, cfg: Config)
    requires ValidUsers(users) && i < |users| && users[i].isVerified
    requires newPassword != "" && oldPassword != newPassword
    ensures var after := users[i := PasswordChanged(users[i], Hash(newPassword, salt), now)];
            && Login(after, users[i].email, newPassword, cfg).response.status == 200
            && Login(after, users[i].email, oldPassword, cfg).response.status == 400
  {
    LoginAfterPasswordReplaced(users, i, PasswordChanged(users[i], Hash(newPassword, salt), now),
                               newPassword, oldPassword, salt, cfg);
  }

  /** The signup, verify, login scenario: before verification the right
      password gets 403, after verification it gets 200. */
  method SignupVerifyLogin(cfg: Config, now: int, random: real, salt: nat)
    returns (signup: nat, early: nat, verify: nat, late: nat)
    requires 0.0 <= random < 1.0
    ensures signup == 201 && early == 403 && verify == 200 && late == 200
  {
    var store := new UserStore();
    var res, cookies := store.Signup("A", "a@x.com", "pw123456", now, random, salt, 0, cfg);
    signup := res.status;
    assert store.users[0].email == "a@x.com";
    assert Account(store.users, "a@x.com") == Some(store.users[0]);
    early := Login(store.users, "a@x.com", "pw123456", cfg).response.status;
    var code := VerificationToken(random);
    assert ByVerificationToken(store.users, code, now + 1) == Some(0);
    var verified := store.VerifyEmail(code, now + 1);
    verify := verified.status;
    assert Account(store.users, "a@x.com") == Some(store.users[0]);
    late := Login(store.users, "a@x.com", "pw123456", cfg).response.status;
  }

  /** The forgotten-password scenario on a verified account: after the reset
      the old password gets 400 and the new one 200. */
  method ForgotResetLogin(users: seq<User>, i: nat, oldPassword: string, newPassword: string,
                          random: seq<Byte>, salt: nat, now: int, cfg: Config)
    returns (forgot: nat, reset: nat, withOld: nat, withNew: nat)
    requires ValidUsers(users) && i < |users| && users[i].isVerified
    requires |random| == 32
    requires newPassword != "" && oldPassword != newPassword
    requires forall j :: 0 <= j < |users| ==> users[j].resetPasswordToken != Some(ResetToken(random))
    ensures forgot == 200 && reset == 200 && withOld == 400 && withNew == 200
  {
    var store := new UserStore();
    store.users := users;
    var email := users[i].email;
    EmailLocates(users, i);
    var f := store.ForgotPassword(email, now, random);
    forgot := f.status;
    var token := ResetToken(random);
    assert ByResetToken(store.users, token, now) == Some(i) by {
      assert AwaitsReset(store.users[i], token, now);
      forall j | 0 <= j < |store.users| && j != i ensures !AwaitsReset(store.users[j], token, now) {
        assert store.users[j] == users[j];
      }
    }
    var r := store.ResetPassword(token, Some(newPassword), now, salt);
    reset := r.status;
    var updated := store.users[i];
    LoginAfterPasswordReplaced(users, i, updated, newPassword, oldPassword, salt, cfg);
    assert store.users == users[i := updated];
    withOld := Login(store.users, email, oldPassword, cfg).response.status;
    withNew := Login(store.users, email, newPassword, cfg).response.status;
  }
}
