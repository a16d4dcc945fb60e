/**
 * postController.js: creating a post (with the admins' notifications), the like
 * toggle, the owner-only edit, deletion by the owner or an admin, and reporting.
 */
module PostController {
  import opened Common
  import opened Models
  import opened Store
  import opened RoleGate
  import opened NotificationController

  // ------------------------------------------------------------ the like toggle

  /** `likes.filter(id => id.toString() !== user)`: every occurrence of `user` removed. */
  function Without(likes: seq<Id>, user: Id): (r: seq<Id>)
    ensures forall x :: x in r <==> x in likes && x != user
  {
    Filter(likes, (x: Id) => x != user)
  }

  /** Removing a user twice is removing it once. */
  lemma WithoutTwice(likes: seq<Id>, user: Id)
    ensures Without(Without(likes, user), user) == Without(likes, user)
  {
    var r := Without(likes, user);
    FilterAll(r, (x: Id) => x != user);
  }

  /** Removing a user commutes with appending: the appended user goes if it is the one removed. */
  lemma WithoutAppend(likes: seq<Id>, x: Id, user: Id)
    ensures Without(likes + [x], user) == Without(likes, user) + (if x == user then [] else [x])
  {
    FilterAppend(likes, [x], (y: Id) => y != user);
    assert [x][1..] == [];
  }

  /** Removing a user who is absent changes nothing. */
  lemma WithoutAbsent(likes: seq<Id>, user: Id)
    requires user !in likes
    ensures Without(likes, user) == likes
  {
    FilterAll(likes, (x: Id) => x != user);
  }

  /**
   * The new likes list of `likePost`: a user already in it is removed (every
   * occurrence); otherwise the user is appended once. Either way the user's
   * membership flips, and the other users' ids keep their order.
   */
  function ToggleLike(likes: seq<Id>, user: Id): (r: seq<Id>)
    ensures user !in likes ==> r == likes + [user]
    ensures user in likes ==> r == Without(likes, user)
    ensures user in r <==> user !in likes
    ensures Without(r, user) == Without(likes, user)
    ensures NoDuplicates(likes) ==> NoDuplicates(r)
  {
    if user in likes then
      WithoutTwice(likes, user);
      FilterNoDuplicatesIf(likes, user);
      Without(likes, user)
    else
      WithoutAppend(likes, user, user);
      assert forall i :: 0 <= i < |likes| ==> likes[i] != user;
      likes + [user]
  }

  lemma FilterNoDuplicatesIf(likes: seq<Id>, user: Id)
    ensures NoDuplicates(likes) ==> NoDuplicates(Without(likes, user))
  {
    if NoDuplicates(likes) {
      FilterNoDuplicates(likes, (x: Id) => x != user);
    }
  }

  /** Liking and then unliking, from a list without the user, restores the list. */
  lemma {:induction false} LikeThenUnlike(likes: seq<Id>, user: Id)
    requires user !in likes
    ensures ToggleLike(ToggleLike(likes, user), user) == likes
  {
    WithoutAppend(likes, user, user);
    WithoutAbsent(likes, user);
  }

  /** The content of a like notification. */
  function LikedNotice(username: string): string { username + " liked your post." }

  /**
   * `likePost`: 404 for an unknown post. A caller already in the likes is removed
   * and nobody is notified. Otherwise the caller is appended and, when the caller is
   * not the owner, the owner is notified first; that needs the caller's username,
   * and a caller with no user document makes `sender.username` throw: 500, and the
   * post is not saved.
   */
  method LikePost(db: Database, caller: Id, postId: Id, now: int) returns (status: Status)
    requires db.Valid()
    modifies db
    ensures db.Valid()
    ensures FindPost(old(db.posts), postId).None? ==> status == NotFound && db.Snapshot() == old(db.Snapshot())
    ensures FindPost(old(db.posts), postId).Some? ==>
      var i := FindPost(old(db.posts), postId).value;
      var p := old(db.posts)[i];
      var liked := old(db.posts)[i := p.(likes := ToggleLike(p.likes, caller))];
      && (caller in p.likes || p.user == caller ==>
            status == Ok && db.Snapshot() == old(db.Snapshot()).(posts := liked))
      && (caller !in p.likes && p.user != caller && FindUser(old(db.users), caller).None? ==>
            status == ServerError && db.Snapshot() == old(db.Snapshot()))
      && (caller !in p.likes && p.user != caller && FindUser(old(db.users), caller).Some? ==>
            var sender := old(db.users)[FindUser(old(db.users), caller).value];
            var n := Notification(old(db.nextId), p.user, Some(caller), LikeKind, LikedNotice(sender.username),
                                  Some(postId), false, now);
            status == Ok &&
            db.Snapshot() == old(db.Snapshot()).(posts := liked, notifications := old(db.notifications) + [n],
                                                 nextId := old(db.nextId) + 1))
  {
    var found := FindPost(db.posts, postId);
    if found.None? {
      return NotFound;
    }
    var i := found.value;
    var post := db.posts[i];
    var likes: seq<Id>;
    if caller in post.likes {
      likes := Without(post.likes, caller);
    } else {
      likes := post.likes + [caller];
      if post.user != caller {
        var sender := FindUser(db.users, caller);
        if sender.None? {
          return ServerError;
        }
        var username := db.users[sender.value].username;
        CreateNotification(db, post.user, Some(caller), LikeKind, LikedNotice(username), Some(post.id), now);
      }
    }
    assert likes == ToggleLike(post.likes, caller);
    db.ReplacePost(i, post.(likes := likes));
    status := Ok;
  }

  // ------------------------------------------------------------------ createPost

  /** `User.find({ role: 'admin' })` */
  function Admins(users: seq<User>): (r: seq<User>)
    ensures forall u :: u in r <==> u in users && u.role == AdminRole
  {
    Filter(users, (u: User) => u.role == AdminRole)
  }

  /** The content of the admins' notification. */
  function CreatedNotice(username: string): string { username + " created a new post." }

  /**
   * The notifications the loop over the admins stores: one per admin, in the
   * admins' order, with consecutive fresh ids, each referring to the new post.
   */
  function AdminNotices(admins: seq<User>, firstId: Id, sender: Id, content: string, postId: Id, now: int)
    : (r: seq<Notification>)
    ensures |r| == |admins|
    ensures forall k :: 0 <= k < |r| ==>
              r[k].user == admins[k].id && r[k].relatedId == Some(postId) && r[k].kind == PostKind
  {
    seq(|admins|, k requires 0 <= k < |admins| =>
      Notification(firstId + k, admins[k].id, Some(sender), PostKind, content, Some(postId), false, now))
  }

  /** Users with distinct ids are distinct values. */
  lemma DistinctIdsNoDuplicates(users: seq<User>)
    requires forall i, j :: 0 <= i < j < |users| ==> users[i].id != users[j].id
    ensures NoDuplicates(users)
  {
  }

  /** Two different admins of a store with distinct user ids have different ids. */
  lemma AdminIdsDistinct(users: seq<User>)
    requires forall i, j :: 0 <= i < j < |users| ==> users[i].id != users[j].id
    ensures var admins := Admins(users);
      forall j, k :: 0 <= j < k < |admins| ==> admins[j].id != admins[k].id
  {
    var admins := Admins(users);
    DistinctIdsNoDuplicates(users);
    FilterNoDuplicates(users, (u: User) => u.role == AdminRole);
    forall j, k | 0 <= j < k < |admins| ensures admins[j].id != admins[k].id {
      assert admins[j] in users && admins[k] in users;
      var j' :| 0 <= j' < |users| && users[j'] == admins[j];
      var k' :| 0 <= k' < |users| && users[k'] == admins[k];
      assert j' != k';
    }
  }

  /** Every admin of the store receives a notification about the new post. */
  lemma AdminNotified(users: seq<User>, a: User, firstId: Id, sender: Id, content: string, postId: Id, now: int)
    requires a in users && a.role == AdminRole
    ensures var r := AdminNotices(Admins(users), firstId, sender, content, postId, now);
      exists k :: 0 <= k < |r| && r[k].user == a.id && r[k].relatedId == Some(postId)
  {
    var admins := Admins(users);
    var r := AdminNotices(admins, firstId, sender, content, postId, now);
    assert a in admins;
    var k :| 0 <= k < |admins| && admins[k] == a;
    assert r[k].user == a.id && r[k].relatedId == Some(postId);
  }

  /** No admin receives two: with distinct user ids, the recipients are pairwise distinct. */
  lemma NoAdminNotifiedTwice(users: seq<User>, firstId: Id, sender: Id, content: string, postId: Id, now: int)
    requires forall i, j :: 0 <= i < j < |users| ==> users[i].id != users[j].id
    ensures var r := AdminNotices(Admins(users), firstId, sender, content, postId, now);
      forall j, k :: 0 <= j < k < |r| ==> r[j].user != r[k].user
  {
    AdminIdsDistinct(users);
  }

  lemma AdminNoticesSnoc(admins: seq<User>, k: nat, firstId: Id, sender: Id, content: string, postId: Id, now: int)
    requires k < |admins|
    ensures AdminNotices(admins[..k + 1], firstId, sender, content, postId, now)
         == AdminNotices(admins[..k], firstId, sender, content, postId, now)
            + [Notification(firstId + k, admins[k].id, Some(sender), PostKind, content, Some(postId), false, now)]
  {
  }

  /** The loop of lines 25-33: one `createNotification` per admin, in order. */
  method NotifyAdmins(db: Database, admins: seq<User>, caller: Id, content: string, postId: Id, now: int)
    requires db.Valid() && content != ""
    modifies db
    ensures db.Valid()
    ensures db.Snapshot() == old(db.Snapshot()).(
              notifications := old(db.notifications) + AdminNotices(admins, old(db.nextId), caller, content, postId, now),
              nextId := old(db.nextId) + |admins|)
  {
    var k := 0;
    while k < |admins|
      invariant 0 <= k <= |admins|
      invariant db.Valid()
      invariant db.Snapshot() == old(db.Snapshot()).(
                  notifications := old(db.notifications) + AdminNotices(admins[..k], old(db.nextId), caller, content, postId, now),
                  nextId := old(db.nextId) + k)
    {
      AdminNoticesSnoc(admins, k, old(db.nextId), caller, content, postId, now);
      CreateNotification(db, admins[k].id, Some(caller), PostKind, content, Some(postId), now);
      k := k + 1;
    }
    assert admins[..k] == admins;
  }

  /**
   * What lines 23-33 of `createPost` do to the store `before` (holding the new post):
   * with no admin, nothing; with admins but no user document for the caller, 500
   * and nothing; otherwise one notification per admin, signed with the caller's
   * username.
   */
  ghost predicate AdminsNotified(before: Tables, after: Tables, status: Status, caller: Id, postId: Id, now: int)
  {
    var admins := Admins(before.users);
    var sender := FindUser(before.users, caller);
    if admins == [] then status == Created && after == before
    else if sender.None? then status == ServerError && after == before
    else
      status == Created &&
      after == before.(
        notifications := before.notifications
          + AdminNotices(admins, before.nextId, caller, CreatedNotice(before.users[sender.value].username), postId, now),
        nextId := before.nextId + |admins|)
  }

  /**
   * Lines 23-33 of `createPost`, after the post is saved: the admins are read, then
   * notified in turn; `sender.username` is read on the first turn, so a caller with
   * no user document fails there (500) when there is an admin to notify.
   */
  method NotifyAdminsOfPost(db: Database, caller: Id, postId: Id, now: int) returns (status: Status)
    requires db.Valid()
    modifies db
    ensures db.Valid()
    ensures AdminsNotified(old(db.Snapshot()), db.Snapshot(), status, caller, postId, now)
  {
    var admins := Admins(db.users);
    var sender := FindUser(db.users, caller);
    if admins != [] {
      if sender.None? {
        return ServerError;
      }
      var username := db.users[sender.value].username;
      NotifyAdmins(db, admins, caller, CreatedNotice(username), postId, now);
    }
    status := Created;
  }

  /**
   * The judge role of lines 36-39: the labels 'Literal Art', 'Visual Art' and 'Vocal'
   * map to the three judge roles, anything else to null. No category the schema
   * accepts is such a label, so a post that was saved never reaches the judge
   * notification.
   */
  function JudgeRoleFor(category: string): (r: Option<string>)
    ensures r.Some? ==> r.value in JudgeRoles
    ensures category in PostCategories ==> r.None?
  {
    if category == "Literal Art" then Some("literal_judge")
    else if category == "Visual Art" then Some("visual_judge")
    else if category == "Vocal" then Some("vocal_judge")
    else None
  }

  /**
   * `createPost` by `caller`; `content` and `file` are None when absent. A post the
   * schema rejects gives 500 and stores nothing. Otherwise the post is stored, then
   * each admin is notified in turn; the caller's username is read when the first
   * admin is notified, so a caller with no user document gives 500 then, with the
   * post already stored. The judge notification is never reached (`JudgeRoleFor`).
   */
  method CreatePost(db: Database, caller: Id, title: string, content: Option<string>, category: string,
                    file: Option<string>, now: int) returns (status: Status)
    requires db.Valid()
    modifies db
    ensures db.Valid()
    ensures var p := Post(old(db.nextId), caller, title, content, file, category, [], now, None);
      && (!PostValid(p) ==> status == ServerError && db.Snapshot() == old(db.Snapshot()))
      && (PostValid(p) ==>
            AdminsNotified(old(db.Snapshot()).(posts := old(db.posts) + [p], nextId := old(db.nextId) + 1),
                           db.Snapshot(), status, caller, p.id, now))
  {
    var post := Post(db.nextId, caller, title, content, file, category, [], now, None);
    if !PostValid(post) {
      return ServerError;
    }
    ghost var t0 := db.Snapshot();
    AddPost(t0, post);
    db.posts := db.posts + [post];
    db.nextId := db.nextId + 1;
    assert db.Snapshot() == t0.(posts := t0.posts + [post], nextId := t0.nextId + 1);

    status := NotifyAdminsOfPost(db, caller, post.id, now);

    // The judge notification of lines 36-53 needs `JudgeRoleFor(category).Some?`,
    // which no saved post has.
  }

  // ------------------------------------------------------ update, delete, report

  /**
   * The fields `updatePost` assigns: a falsy title, content or category keeps the
   * old value, and the file changes only with an upload. The owner, the likes and
   * the dates stay; with nothing supplied the post is unchanged, and a valid post
   * stays valid unless the new category is outside the enum.
   */
  function MergePost(p: Post, title: string, content: string, category: string, file: Option<string>): (r: Post)
    ensures r.id == p.id && r.user == p.user && r.likes == p.likes
    ensures r.createdAt == p.createdAt && r.updatedAt == p.updatedAt
    ensures r.title == (if title != "" then title else p.title)
    ensures r.content == (if content != "" then Some(content) else p.content)
    ensures r.category == (if category != "" then category else p.category)
    ensures r.file == (if file.Some? then file else p.file)
    ensures title == "" && content == "" && category == "" && file.None? ==> r == p
    ensures PostValid(p) && (category == "" || category in PostCategories) ==> PostValid(r)
  {
    p.(title := OrElse(title, p.title),
       content := if content != "" then Some(content) else p.content,
       category := OrElse(category, p.category),
       file := if file.Some? then file else p.file)
  }

  /**
   * `updatePost`: 404 for an unknown post, 403 for anyone but the owner (an admin
   * included), 500 when the merged post fails the schema (a category outside the
   * enum), otherwise the merged fields replace the old ones.
   */
  method UpdatePost(db: Database, caller: Id, postId: Id, title: string, content: string, category: string,
                    file: Option<string>) returns (status: Status)
    requires db.Valid()
    modifies db
    ensures db.Valid()
    ensures FindPost(old(db.posts), postId).None? ==> status == NotFound && db.Snapshot() == old(db.Snapshot())
    ensures FindPost(old(db.posts), postId).Some? ==>
      var i := FindPost(old(db.posts), postId).value;
      var merged := MergePost(old(db.posts)[i], title, content, category, file);
      && (old(db.posts)[i].user != caller ==> status == Forbidden && db.Snapshot() == old(db.Snapshot()))
      && (old(db.posts)[i].user == caller && !PostValid(merged) ==>
            status == ServerError && db.Snapshot() == old(db.Snapshot()))
      && (old(db.posts)[i].user == caller && PostValid(merged) ==>
            status == Ok && db.Snapshot() == old(db.Snapshot()).(posts := old(db.posts)[i := merged]))
  {
    var found := FindPost(db.posts, postId);
    if found.None? {
      return NotFound;
    }
    var i := found.value;
    var post := db.posts[i];
    if post.user != caller {
      return Forbidden;
    }
    var merged := MergePost(post, title, content, category, file);
    if !PostValid(merged) {
      return ServerError;
    }
    db.ReplacePost(i, merged);
    status := Ok;
  }

  /** Who may delete a post: its owner, or a caller whose token carries the role admin. */
  predicate MayDelete(owner: Id, caller: Id, role: string)
  {
    owner == caller || role == AdminRole
  }

  /**
   * `deletePost`: 404 for an unknown post, 403 unless `MayDelete`, otherwise the post
   * is removed. Its comments, evaluations and notifications stay.
   */
  method DeletePost(db: Database, caller: Id, role: string, postId: Id) returns (status: Status)
    requires db.Valid()
    modifies db
    ensures db.Valid()
    ensures FindPost(old(db.posts), postId).None? ==> status == NotFound && db.Snapshot() == old(db.Snapshot())
    ensures FindPost(old(db.posts), postId).Some? ==>
      var i := FindPost(old(db.posts), postId).value;
      && (!MayDelete(old(db.posts)[i].user, caller, role) ==> status == Forbidden && db.Snapshot() == old(db.Snapshot()))
      && (MayDelete(old(db.posts)[i].user, caller, role) ==>
            status == Ok && db.Snapshot() == old(db.Snapshot()).(posts := RemoveAt(old(db.posts), i)))
  {
    var found := FindPost(db.posts, postId);
    if found.None? {
      return NotFound;
    }
    var i := found.value;
    if db.posts[i].user != caller && role != AdminRole {
      return Forbidden;
    }
    RemovePost(db.Snapshot(), i);
    db.posts := RemoveAt(db.posts, i);
    status := Ok;
  }

  /**
   * `reportPost`: 404 for an unknown post, otherwise 200. The schema declares no
   * `reported` field and Mongoose drops a field outside a strict schema, so the
   * save stores nothing new and the store never changes.
   */
  method ReportPost(db: Database, postId: Id) returns (status: Status)
    ensures status == (if FindPost(db.posts, postId).Some? then Ok else NotFound)
  {
    var found := FindPost(db.posts, postId);
    if found.None? {
      return NotFound;
    }
    status := Ok;
  }
}
