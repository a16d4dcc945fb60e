/**
 * userController.js: reading a profile and editing one's own. The stored user is
 * the User of module Models; `profile.bio` and `profile.avatar` are its `bio` and
 * `avatar` fields.
 */
module UserController {
  import opened Common
  import opened Models
  import opened Store

  /** A user as `.select('-password')` returns it: every field except the hash. */
  datatype Profile = Profile(
    id: Id,
    username: string,
    email: string,
    role: string,
    isBanned: bool,
    bio: string,
    avatar: string,
    createdAt: int,
    resetPasswordToken: Option<string>,
    resetPasswordExpires: Option<int>,
    otp: Option<string>,
    otpExpires: Option<int>,
    isVerified: bool)

  /** The projection `-password`: the profile agrees with the user on every field it has. */
  function ProfileOf(u: User): (p: Profile)
    ensures p.id == u.id && p.username == u.username && p.email == u.email && p.role == u.role
    ensures p.isBanned == u.isBanned && p.bio == u.bio && p.avatar == u.avatar && p.createdAt == u.createdAt
    ensures p.resetPasswordToken == u.resetPasswordToken && p.resetPasswordExpires == u.resetPasswordExpires
    ensures p.otp == u.otp && p.otpExpires == u.otpExpires && p.isVerified == u.isVerified
  {
    Profile(u.id, u.username, u.email, u.role, u.isBanned, u.bio, u.avatar, u.createdAt,
            u.resetPasswordToken, u.resetPasswordExpires, u.otp, u.otpExpires, u.isVerified)
  }

  datatype ProfileResult = ProfileResult(status: Status, profile: Option<Profile>)

  /**
   * `getUserProfile`: the user of the route id, or of the caller when the route has
   * none; 404 when no user has that id. The answer is Ok exactly when a profile is
   * returned, and that profile is the one of the stored user with the id.
   */
  function GetUserProfile(users: seq<User>, param: Option<Id>, caller: Id): (r: ProfileResult)
    ensures r.status == Ok <==> r.profile.Some?
    ensures r.status == Ok || r.status == NotFound
    ensures var id := if param.Some? then param.value else caller;
      && (r.status == NotFound <==> forall i :: 0 <= i < |users| ==> users[i].id != id)
      && (r.profile.Some? ==>
            r.profile.value.id == id &&
            exists i :: 0 <= i < |users| && users[i].id == id && r.profile.value == ProfileOf(users[i]))
  {
    var id := if param.Some? then param.value else caller;
    var found := FindUser(users, id);
    if found.None? then ProfileResult(NotFound, None)
    else ProfileResult(Ok, Some(ProfileOf(users[found.value])))
  }

  /**
   * The answer never depends on a password: changing any stored hash changes
   * nothing in any profile lookup.
   */
  lemma ProfileHidesPassword(users: seq<User>, k: nat, digest: PasswordHash, param: Option<Id>, caller: Id)
    requires k < |users|
    ensures GetUserProfile(users[k := users[k].(password := digest)], param, caller) == GetUserProfile(users, param, caller)
  {
    var changed := users[k := users[k].(password := digest)];
    var id := if param.Some? then param.value else caller;
    FindUserSameIds(changed, users, id);
    var found := FindUser(users, id);
    if found.Some? {
      assert changed[found.value] == users[found.value] || changed[found.value] == users[found.value].(password := digest);
    }
  }

  /**
   * The merge of `updateUserProfile`: a falsy username or bio keeps the stored one,
   * and the avatar changes only when a file was uploaded (`avatar` is its path).
   */
  function MergeProfile(u: User, username: string, bio: string, avatar: Option<string>): (r: User)
    ensures r.username == (if username != "" then username else u.username)
    ensures r.bio == (if bio != "" then bio else u.bio)
    ensures r.avatar == (if avatar.Some? && avatar.value != "" then avatar.value else u.avatar)
    ensures r == u.(username := r.username, bio := r.bio, avatar := r.avatar)
    ensures UserValid(u) ==> UserValid(r)
    ensures username == "" && bio == "" && (avatar.None? || avatar.value == "") ==> r == u
  {
    var avatarPath := if avatar.Some? && avatar.value != "" then avatar.value else u.avatar;
    u.(username := OrElse(username, u.username),
       bio := OrElse(bio, u.bio),
       avatar := avatarPath)
  }

  /** True when a user other than the one at `i` has the username (the unique index). */
  predicate UsernameTakenByOther(users: seq<User>, i: nat, username: string)
  {
    exists j :: 0 <= j < |users| && j != i && users[j].username == username
  }

  /**
   * `updateUserProfile` for the caller: 404 when the caller's user is missing; the
   * merged user is saved, unless its username belongs to another user, when the
   * unique index makes the save throw (500) and nothing changes.
   */
  method UpdateUserProfile(db: Database, caller: Id, username: string, bio: string, avatar: Option<string>)
    returns (status: Status)
    requires db.Valid()
    modifies db
    ensures db.Valid()
    ensures FindUser(old(db.users), caller).None? ==> status == NotFound && db.Snapshot() == old(db.Snapshot())
    ensures FindUser(old(db.users), caller).Some? ==>
      var i := FindUser(old(db.users), caller).value;
      var merged := MergeProfile(old(db.users)[i], username, bio, avatar);
      && (UsernameTakenByOther(old(db.users), i, merged.username) ==>
            status == ServerError && db.Snapshot() == old(db.Snapshot()))
      && (!UsernameTakenByOther(old(db.users), i, merged.username) ==>
            status == Ok && db.Snapshot() == old(db.Snapshot()).(users := old(db.users)[i := merged]))
  {
    var found := FindUser(db.users, caller);
    if found.None? {
      return NotFound;
    }
    var i := found.value;
    var merged := MergeProfile(db.users[i], username, bio, avatar);
    var clash := IndexWhere(db.users, (u: User) => u.id != caller && u.username == merged.username);
    if clash.Some? {
      assert clash.value != i;
      return ServerError;
    }
    assert !UsernameTakenByOther(db.users, i, merged.username) by {
      forall j | 0 <= j < |db.users| && j != i ensures db.users[j].username != merged.username {
        assert db.users[j].id != caller;
      }
    }
    SetUser(db.Snapshot(), i, merged);
    db.users := db.users[i := merged];
    status := Ok;
  }
}
