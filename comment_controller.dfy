/**
 * commentController.js: commenting on a post (with a notice to its owner), a
 * post's comments, and deleting one's own comment.
 */
module CommentController {
  import opened Common
  import opened Models
  import opened Ordering
  import opened Store

  /**
   * The content of the owner's notice. It interpolates `req.user.username`, but the
   * token behind `req.user` carries only the id and the role, so the name is always
   * the text "undefined".
   */
  const CommentNotice: string := "undefined commented on your post"

  function CommentCreatedAt(c: Comment): real { c.createdAt as real }

  /**
   * `createComment` by `caller` on `postId`: 404 and nothing stored for an unknown
   * post; otherwise exactly one comment {post, user = caller, content} is stored and,
   * unless the caller owns the post, the owner is notified with the comment's id as
   * the related id.
   */
  method CreateComment(db: Database, caller: Id, postId: Id, content: string, now: int) returns (status: Status)
    requires db.Valid()
    modifies db
    ensures db.Valid()
    ensures FindPost(old(db.posts), postId).None? ==> status == NotFound && db.Snapshot() == old(db.Snapshot())
    ensures FindPost(old(db.posts), postId).Some? ==>
      var owner := old(db.posts)[FindPost(old(db.posts), postId).value].user;
      status == Created && CommentSaved(old(db.Snapshot()), db.Snapshot(), caller, postId, content, owner, now)
  {
    var found := FindPost(db.posts, postId);
    if found.None? {
      return NotFound;
    }
    SaveComment(db, caller, postId, content, db.posts[found.value].user, now);
    status := Created;
  }

  /**
   * The store after a comment {post, user = caller, content} got the next id and,
   * when the caller is not the post owner, the owner got a notice about it.
   */
  ghost predicate CommentSaved(before: Tables, after: Tables, caller: Id, postId: Id, content: string, owner: Id, now: int)
  {
    var c := Comment(before.nextId, postId, caller, content, now);
    var n := Notification(before.nextId + 1, owner, None, CommentKind, CommentNotice, Some(c.id), false, now);
    && (owner == caller ==>
          after == before.(comments := before.comments + [c], nextId := before.nextId + 1))
    && (owner != caller ==>
          after == before.(comments := before.comments + [c],
                           notifications := before.notifications + [n],
                           nextId := before.nextId + 2))
  }

  /** Lines 10-21 of `createComment` once the post was found. */
  method SaveComment(db: Database, caller: Id, postId: Id, content: string, owner: Id, now: int)
    requires db.Valid()
    modifies db
    ensures db.Valid()
    ensures CommentSaved(old(db.Snapshot()), db.Snapshot(), caller, postId, content, owner, now)
  {
    var c := Comment(db.nextId, postId, caller, content, now);
    db.InsertComment(c);
    if owner != caller {
      var n := Notification(db.nextId, owner, None, CommentKind, CommentNotice, Some(c.id), false, now);
      db.InsertNotification(n);
    }
  }

  /**
   * `getComments`: exactly the post's comments, each as often as stored, newest
   * first.
   */
  function GetComments(comments: seq<Comment>, postId: Id): (r: seq<Comment>)
    ensures forall c :: c in r <==> c in comments && c.post == postId
    ensures multiset(r) == multiset(Filter(comments, (c: Comment) => c.post == postId))
    ensures SortedDesc(r, CommentCreatedAt)
  {
    var mine := Filter(comments, (c: Comment) => c.post == postId);
    var r := SortDesc(mine, CommentCreatedAt);
    SameElements(r, mine);
    r
  }

  /** Who may delete a comment: its author, or an admin. */
  predicate MayDeleteComment(c: Comment, caller: Id, role: string)
  {
    c.user == caller || role == AdminRole
  }

  /**
   * `deleteComment` by `caller` with role `role`: 404 for an unknown id, 403 unless the
   * caller wrote it or is an admin, otherwise the comment is removed.
   */
  method DeleteComment(db: Database, caller: Id, role: string, id: Id) returns (status: Status)
    requires db.Valid()
    modifies db
    ensures db.Valid()
    ensures FindComment(old(db.comments), id).None? ==> status == NotFound && db.Snapshot() == old(db.Snapshot())
    ensures FindComment(old(db.comments), id).Some? ==>
      var i := FindComment(old(db.comments), id).value;
      && (!MayDeleteComment(old(db.comments)[i], caller, role) ==>
            status == Forbidden && db.Snapshot() == old(db.Snapshot()))
      && (MayDeleteComment(old(db.comments)[i], caller, role) ==>
            status == Ok && db.Snapshot() == old(db.Snapshot()).(comments := RemoveAt(old(db.comments), i)))
  {
    var found := FindComment(db.comments, id);
    if found.None? {
      return NotFound;
    }
    var i := found.value;
    if db.comments[i].user != caller && role != AdminRole {
      return Forbidden;
    }
    RemoveComment(db.Snapshot(), i);
    db.comments := RemoveAt(db.comments, i);
    status := Ok;
  }

  /**
   * A permitted delete removes exactly the comment with that id: it can no longer
   * be found, and every other comment is still stored.
   */
  lemma DeletedCommentIsGone(comments: seq<Comment>, id: Id)
    requires forall i, j :: 0 <= i < j < |comments| ==> comments[i].id != comments[j].id
    requires FindComment(comments, id).Some?
    ensures var r := RemoveAt(comments, FindComment(comments, id).value);
      && FindComment(r, id).None?
      && |r| == |comments| - 1
      && (forall c :: c in comments && c.id != id ==> c in r)
  {
    var i := FindComment(comments, id).value;
    var r := RemoveAt(comments, i);
    forall k | 0 <= k < |r| ensures r[k].id != id {
      if k < i {
        assert r[k] == comments[k];
      } else {
        assert r[k] == comments[k + 1];
      }
    }
    forall c | c in comments && c.id != id ensures c in r {
      var k :| 0 <= k < |comments| && comments[k] == c;
      if k < i {
        assert r[k] == c;
      } else {
        assert r[k - 1] == c;
      }
    }
  }
}
