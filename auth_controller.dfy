/**
 * authController.js: registration, login, and the password lifecycle (reset by
 * emailed token, change by the signed-in user). Hashing is the ideal hash of module
 * Models; salts, the reset token, the OTP and the clock are inputs, and a failed
 * email is an input flag.
 */
module AuthController {
  import opened Common
  import opened Models
  import opened Store

  /** `10 * 60 * 1000`: an OTP lives ten minutes. */
  const OtpLifetime: int := 600000
  /** `3600000`: a reset token lives one hour. */
  const ResetLifetime: int := 3600000

  // -------------------------------------------------------------------- register

  /** True when some stored user already has the username (the unique index). */
  predicate UsernameTaken(users: seq<User>, username: string)
  {
    exists j :: 0 <= j < |users| && users[j].username == username
  }

  /**
   * `register`. An email in use gives 400 and stores nothing. `password` is None when
   * absent, which makes the hash throw. The save then rejects an empty username or
   * email and a username already taken. Every failure lands in the `catch`, which
   * answers 400. The user is stored unverified, its OTP due at `now + 600000`. An
   * email that fails after the save still answers 400, with the user stored.
   */
  method Register(db: Database, username: string, email: string, password: Option<string>, salt: nat,
                  otp: string, now: int, emailFails: bool) returns (status: Status)
    requires db.Valid()
    modifies db
    ensures db.Valid()
    ensures FindUserByEmail(old(db.users), email).Some? ==> status == BadRequest && db.Snapshot() == old(db.Snapshot())
    ensures FindUserByEmail(old(db.users), email).None? ==>
      && (password.None? || username == "" || email == "" || UsernameTaken(old(db.users), username) ==>
            status == BadRequest && db.Snapshot() == old(db.Snapshot()))
      && (password.Some? && username != "" && email != "" && !UsernameTaken(old(db.users), username) ==>
            var u := NewUser(old(db.nextId), username, email, Bcrypt(password.value, salt), Some(otp),
                             Some(now + OtpLifetime), now);
            && !u.isVerified && u.otpExpires == Some(now + OtpLifetime)
            && db.Snapshot() == old(db.Snapshot()).(users := old(db.users) + [u], nextId := old(db.nextId) + 1)
            && status == (if emailFails then BadRequest else Created))
  {
    var existing := FindUserByEmail(db.users, email);
    if existing.Some? {
      return BadRequest;
    }
    if password.None? {
      return BadRequest;
    }
    var user := NewUser(db.nextId, username, email, Bcrypt(password.value, salt), Some(otp), Some(now + OtpLifetime), now);
    if !UserValid(user) {
      return BadRequest;
    }
    var taken := IndexWhere(db.users, (u: User) => u.username == username);
    if taken.Some? {
      return BadRequest;
    }
    AddUser(db.Snapshot(), user);
    db.users := db.users + [user];
    db.nextId := db.nextId + 1;
    status := if emailFails then BadRequest else Created;
  }

  // ----------------------------------------------------------------------- login

  /** What the signed token carries (`{ id, role }`) and the `user` of the answer. */
  datatype Session = Session(id: Id, username: string, role: string)

  datatype LoginResult = LoginResult(status: Status, session: Option<Session>)

  /**
   * `login`: 401 for an unknown email or a banned user, before the password is
   * compared; 401 for a wrong password; otherwise a session for that user. Nothing
   * checks `isVerified`.
   */
  function Login(users: seq<User>, email: string, password: string): (r: LoginResult)
    ensures r.status == Ok <==> r.session.Some?
    ensures r.status == Ok || r.status == Unauthorized
    ensures r.session.Some? ==>
      exists i :: 0 <= i < |users| && users[i].email == email && !users[i].isBanned &&
        PasswordMatches(password, users[i].password) &&
        r.session.value == Session(users[i].id, users[i].username, users[i].role)
    ensures (forall i :: 0 <= i < |users| ==> users[i].email != email || users[i].isBanned) ==>
              r.status == Unauthorized
  {
    var found := FindUserByEmail(users, email);
    if found.None? || users[found.value].isBanned then LoginResult(Unauthorized, None)
    else
      var user := users[found.value];
      if !PasswordMatches(password, user.password) then LoginResult(Unauthorized, None)
      else LoginResult(Ok, Some(Session(user.id, user.username, user.role)))
  }

  /**
   * With unique emails the converse holds too: the right password of an unbanned
   * user always logs in, whether or not the account was ever verified.
   */
  lemma LoginAcceptsGoodCredentials(users: seq<User>, i: nat, password: string)
    requires forall a, b :: 0 <= a < b < |users| ==> users[a].email != users[b].email
    requires i < |users| && !users[i].isBanned && PasswordMatches(password, users[i].password)
    ensures Login(users, users[i].email, password) ==
              LoginResult(Ok, Some(Session(users[i].id, users[i].username, users[i].role)))
  {
    assert FindUserByEmail(users, users[i].email) == Some(i);
  }

  // ------------------------------------------------------------ password reset

  /** `forgotPassword`'s update: a token that expires one hour after `now`. */
  function IssueResetToken(u: User, token: string, now: int): (r: User)
    ensures r.resetPasswordToken == Some(token) && r.resetPasswordExpires == Some(now + ResetLifetime)
    ensures r == u.(resetPasswordToken := r.resetPasswordToken, resetPasswordExpires := r.resetPasswordExpires)
  {
    u.(resetPasswordToken := Some(token), resetPasswordExpires := Some(now + ResetLifetime))
  }

  /** The query of `resetPassword`: this token, and an expiry strictly later than now. */
  predicate ResetMatches(u: User, token: string, now: int)
  {
    u.resetPasswordToken == Some(token) && u.resetPasswordExpires.Some? && u.resetPasswordExpires.value > now
  }

  /** A freshly issued token opens a reset exactly until one hour has passed, excluded. */
  lemma ResetWindow(u: User, token: string, issued: int, now: int)
    ensures ResetMatches(IssueResetToken(u, token, issued), token, now) <==> now < issued + ResetLifetime
  {
  }

  /** `resetPassword`'s update: the new hash, and the token and its expiry cleared. */
  function ApplyReset(u: User, digest: PasswordHash): (r: User)
    ensures r.password == digest && r.resetPasswordToken.None? && r.resetPasswordExpires.None?
    ensures r == u.(password := r.password, resetPasswordToken := r.resetPasswordToken,
                    resetPasswordExpires := r.resetPasswordExpires)
    ensures forall token, now :: !ResetMatches(r, token, now)
  {
    u.(password := digest, resetPasswordToken := None, resetPasswordExpires := None)
  }

  /** `User.findOne({ resetPasswordToken: token, resetPasswordExpires: { $gt: now } })` */
  function FindResetUser(users: seq<User>, token: string, now: int): (r: Option<nat>)
    ensures r.Some? ==> r.value < |users| && ResetMatches(users[r.value], token, now)
    ensures r.None? <==> forall j :: 0 <= j < |users| ==> !ResetMatches(users[j], token, now)
  {
    IndexWhere(users, (u: User) => ResetMatches(u, token, now))
  }

  /**
   * `forgotPassword`: 404 for an unknown email; otherwise the user gets a new token,
   * valid for an hour, and the email is sent. A failed email answers 500, with the
   * token already stored.
   */
  method ForgotPassword(db: Database, email: string, token: string, now: int, emailFails: bool)
    returns (status: Status)
    requires db.Valid()
    modifies db
    ensures db.Valid()
    ensures FindUserByEmail(old(db.users), email).None? ==> status == NotFound && db.Snapshot() == old(db.Snapshot())
    ensures FindUserByEmail(old(db.users), email).Some? ==>
      var i := FindUserByEmail(old(db.users), email).value;
      && db.Snapshot() == old(db.Snapshot()).(users := old(db.users)[i := IssueResetToken(old(db.users)[i], token, now)])
      && status == (if emailFails then ServerError else Ok)
  {
    var found := FindUserByEmail(db.users, email);
    if found.None? {
      return NotFound;
    }
    var i := found.value;
    var user := IssueResetToken(db.users[i], token, now);
    SetUser(db.Snapshot(), i, user);
    db.users := db.users[i := user];
    status := if emailFails then ServerError else Ok;
  }

  /**
   * `resetPassword`: 400 unless some user holds the token unexpired; a missing new
   * password makes the hash throw (500); otherwise the password is replaced and
   * the token cleared, so the same token can never be used again.
   */
  method ResetPassword(db: Database, token: string, newPassword: Option<string>, salt: nat, now: int)
    returns (status: Status)
    requires db.Valid()
    modifies db
    ensures db.Valid()
    ensures FindResetUser(old(db.users), token, now).None? ==> status == BadRequest && db.Snapshot() == old(db.Snapshot())
    ensures FindResetUser(old(db.users), token, now).Some? && newPassword.None? ==>
              status == ServerError && db.Snapshot() == old(db.Snapshot())
    ensures FindResetUser(old(db.users), token, now).Some? && newPassword.Some? ==>
      var i := FindResetUser(old(db.users), token, now).value;
      && status == Ok
      && db.Snapshot() == old(db.Snapshot()).(users := old(db.users)[i := ApplyReset(old(db.users)[i], Bcrypt(newPassword.value, salt))])
      && forall later :: !ResetMatches(db.users[i], token, later)
  {
    var found := FindResetUser(db.users, token, now);
    if found.None? {
      return BadRequest;
    }
    if newPassword.None? {
      return ServerError;
    }
    var i := found.value;
    var user := ApplyReset(db.users[i], Bcrypt(newPassword.value, salt));
    SetUser(db.Snapshot(), i, user);
    db.users := db.users[i := user];
    status := Ok;
  }

  /**
   * `changePassword` for the user of `caller` (None when the request carries no
   * user; the route installs no authentication, so in the deployed app it always
   * is None). Empty passwords count as missing.
   */
  method ChangePassword(db: Database, caller: Option<Id>, currentPassword: string, newPassword: string, salt: nat)
    returns (status: Status)
    requires db.Valid()
    modifies db
    ensures db.Valid()
    ensures caller.None? || currentPassword == "" || newPassword == "" ==>
              status == BadRequest && db.Snapshot() == old(db.Snapshot())
    ensures caller.Some? && currentPassword != "" && newPassword != "" ==>
      var found := FindUser(old(db.users), caller.value);
      && (found.None? ==> status == NotFound && db.Snapshot() == old(db.Snapshot()))
      && (found.Some? && !PasswordMatches(currentPassword, old(db.users)[found.value].password) ==>
            status == BadRequest && db.Snapshot() == old(db.Snapshot()))
      && (found.Some? && PasswordMatches(currentPassword, old(db.users)[found.value].password) ==>
            status == Ok &&
            db.Snapshot() == old(db.Snapshot()).(
              users := old(db.users)[found.value := old(db.users)[found.value].(password := Bcrypt(newPassword, salt))]))
  {
    if caller.None? {
      return BadRequest;
    }
    if currentPassword == "" || newPassword == "" {
      return BadRequest;
    }
    var found := FindUser(db.users, caller.value);
    if found.None? {
      return NotFound;
    }
    var i := found.value;
    if !PasswordMatches(currentPassword, db.users[i].password) {
      return BadRequest;
    }
    var user := db.users[i].(password := Bcrypt(newPassword, salt));
    SetUser(db.Snapshot(), i, user);
    db.users := db.users[i := user];
    status := Ok;
  }
}
