/**
 * adminController.js: the moderation actions behind the admin routes. Each one
 * looks the document up by id (404 when missing) and sets one flag or removes one
 * document, with no ownership check.
 */
module AdminController {
  import opened Common
  import opened Models
  import opened Store

  /** The role `assignJudge` sets. */
  const AssignedJudgeRole: string := "judge"

  /** `banUser` (ban = true) and `unbanUser` (ban = false): only `isBanned` changes. */
  method SetBanned(db: Database, id: Id, ban: bool) returns (status: Status)
    requires db.Valid()
    modifies db
    ensures db.Valid()
    ensures FindUser(old(db.users), id).None? ==> status == NotFound && db.Snapshot() == old(db.Snapshot())
    ensures FindUser(old(db.users), id).Some? ==>
      var i := FindUser(old(db.users), id).value;
      status == Ok &&
      db.Snapshot() == old(db.Snapshot()).(users := old(db.users)[i := old(db.users)[i].(isBanned := ban)])
  {
    var found := FindUser(db.users, id);
    if found.None? {
      return NotFound;
    }
    var i := found.value;
    var user := db.users[i].(isBanned := ban);
    SetUser(db.Snapshot(), i, user);
    db.users := db.users[i := user];
    status := Ok;
  }

  method BanUser(db: Database, id: Id) returns (status: Status)
    requires db.Valid()
    modifies db
    ensures db.Valid()
    ensures FindUser(old(db.users), id).None? ==> status == NotFound && db.Snapshot() == old(db.Snapshot())
    ensures FindUser(old(db.users), id).Some? ==>
      var i := FindUser(old(db.users), id).value;
      status == Ok &&
      db.Snapshot() == old(db.Snapshot()).(users := old(db.users)[i := old(db.users)[i].(isBanned := true)])
  {
    status := SetBanned(db, id, true);
  }

  method UnbanUser(db: Database, id: Id) returns (status: Status)
    requires db.Valid()
    modifies db
    ensures db.Valid()
    ensures FindUser(old(db.users), id).None? ==> status == NotFound && db.Snapshot() == old(db.Snapshot())
    ensures FindUser(old(db.users), id).Some? ==>
      var i := FindUser(old(db.users), id).value;
      status == Ok &&
      db.Snapshot() == old(db.Snapshot()).(users := old(db.users)[i := old(db.users)[i].(isBanned := false)])
  {
    status := SetBanned(db, id, false);
  }

  /**
   * Banning and then unbanning a user of an unbanned account restores the store;
   * banning twice leaves the store as banning once.
   */
  method BanThenUnban(db: Database, id: Id) returns (first: Status, second: Status)
    requires db.Valid()
    modifies db
    ensures db.Valid()
    ensures first == second
    ensures FindUser(old(db.users), id).Some? && !old(db.users)[FindUser(old(db.users), id).value].isBanned ==>
              db.Snapshot() == old(db.Snapshot())
  {
    ghost var before := db.Snapshot();
    var found := FindUser(db.users, id);
    first := BanUser(db, id);
    if found.Some? {
      var i := found.value;
      ghost var banned := before.(users := before.users[i := before.users[i].(isBanned := true)]);
      assert db.Snapshot() == banned;
      FindUserUnique(db.users, id, i);
      second := UnbanUser(db, id);
      if !before.users[i].isBanned {
        assert banned.users[i := banned.users[i].(isBanned := false)] == before.users;
      }
    } else {
      second := UnbanUser(db, id);
    }
  }

  method BanTwice(db: Database, id: Id) returns (first: Status, second: Status)
    requires db.Valid()
    modifies db
    ensures db.Valid()
    ensures first == second
    ensures FindUser(old(db.users), id).Some? ==>
      var i := FindUser(old(db.users), id).value;
      db.Snapshot() == old(db.Snapshot()).(users := old(db.users)[i := old(db.users)[i].(isBanned := true)])
  {
    ghost var before := db.Snapshot();
    var found := FindUser(db.users, id);
    first := BanUser(db, id);
    if found.Some? {
      var i := found.value;
      ghost var banned := before.(users := before.users[i := before.users[i].(isBanned := true)]);
      assert db.Snapshot() == banned;
      FindUserUnique(db.users, id, i);
      second := BanUser(db, id);
      assert banned.users[i := banned.users[i].(isBanned := true)] == banned.users;
    } else {
      second := BanUser(db, id);
    }
  }

  /**
   * `assignJudge`: the role becomes 'judge', which the schema accepts and which the
   * judge gate refuses (RoleGate.SchemaRolesRefused).
   */
  method AssignJudge(db: Database, id: Id) returns (status: Status)
    requires db.Valid()
    modifies db
    ensures db.Valid()
    ensures FindUser(old(db.users), id).None? ==> status == NotFound && db.Snapshot() == old(db.Snapshot())
    ensures FindUser(old(db.users), id).Some? ==>
      var i := FindUser(old(db.users), id).value;
      status == Ok &&
      db.Snapshot() == old(db.Snapshot()).(users := old(db.users)[i := old(db.users)[i].(role := AssignedJudgeRole)])
  {
    var found := FindUser(db.users, id);
    if found.None? {
      return NotFound;
    }
    var i := found.value;
    var user := db.users[i].(role := AssignedJudgeRole);
    SetUser(db.Snapshot(), i, user);
    db.users := db.users[i := user];
    status := Ok;
  }

  /** The admin `deletePost`: 404 when missing, otherwise removed whoever owns it. */
  method AdminDeletePost(db: Database, id: Id) returns (status: Status)
    requires db.Valid()
    modifies db
    ensures db.Valid()
    ensures FindPost(old(db.posts), id).None? ==> status == NotFound && db.Snapshot() == old(db.Snapshot())
    ensures FindPost(old(db.posts), id).Some? ==>
      status == Ok &&
      db.Snapshot() == old(db.Snapshot()).(posts := RemoveAt(old(db.posts), FindPost(old(db.posts), id).value))
  {
    var found := FindPost(db.posts, id);
    if found.None? {
      return NotFound;
    }
    RemovePost(db.Snapshot(), found.value);
    db.posts := RemoveAt(db.posts, found.value);
    status := Ok;
  }

  /** The admin `deleteComment`: 404 when missing, otherwise removed whoever wrote it. */
  method AdminDeleteComment(db: Database, id: Id) returns (status: Status)
    requires db.Valid()
    modifies db
    ensures db.Valid()
    ensures FindComment(old(db.comments), id).None? ==> status == NotFound && db.Snapshot() == old(db.Snapshot())
    ensures FindComment(old(db.comments), id).Some? ==>
      status == Ok &&
      db.Snapshot() == old(db.Snapshot()).(comments := RemoveAt(old(db.comments), FindComment(old(db.comments), id).value))
  {
    var found := FindComment(db.comments, id);
    if found.None? {
      return NotFound;
    }
    RemoveComment(db.Snapshot(), found.value);
    db.comments := RemoveAt(db.comments, found.value);
    status := Ok;
  }

  /** Removing a document removes exactly the one with that id: it is gone, and every other one stays. */
  lemma RemovedIsGone(posts: seq<Post>, id: Id)
    requires forall i, j :: 0 <= i < j < |posts| ==> posts[i].id != posts[j].id
    requires FindPost(posts, id).Some?
    ensures var r := RemoveAt(posts, FindPost(posts, id).value);
      && FindPost(r, id).None?
      && (forall p :: p in posts && p.id != id ==> p in r)
  {
    var i := FindPost(posts, id).value;
    var r := RemoveAt(posts, i);
    forall k | 0 <= k < |r| ensures r[k].id != id {
      if k < i {
        assert r[k] == posts[k];
      } else {
        assert r[k] == posts[k + 1];
      }
    }
    forall p | p in posts && p.id != id ensures p in r {
      var k :| 0 <= k < |posts| && posts[k] == p;
      if k < i {
        assert r[k] == p;
      } else {
        assert k != i;
        assert r[k - 1] == p;
      }
    }
  }
}
