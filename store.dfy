/**
 * The MongoDB collections the controllers read and write, held in memory by one
 * `Database` object, and the invariant the controllers keep on them.
 */
module Store {
  import opened Common
  import opened Models

  /** A value copy of every collection, and the next unused ObjectId. */
  datatype Tables = Tables(
    users: seq<User>,
    posts: seq<Post>,
    evaluations: seq<Evaluation>,
    comments: seq<Comment>,
    notifications: seq<Notification>,
    conversations: seq<Conversation>,
    nextId: nat)

  /** Every user passes the schema; `_id`, `username` and `email` are unique (User.js). */
  predicate UsersOk(users: seq<User>, bound: nat)
  {
    && (forall i :: 0 <= i < |users| ==> users[i].id < bound && UserValid(users[i]))
    && (forall i, j :: 0 <= i < j < |users| ==>
          users[i].id != users[j].id && users[i].username != users[j].username && users[i].email != users[j].email)
  }

  /** Every post passes the schema and nobody is in a post's likes twice. */
  predicate PostsOk(posts: seq<Post>, bound: nat)
  {
    && (forall i :: 0 <= i < |posts| ==> posts[i].id < bound && PostValid(posts[i]) && NoDuplicates(posts[i].likes))
    && (forall i, j :: 0 <= i < j < |posts| ==> posts[i].id != posts[j].id)
  }

  /** At most one evaluation per (post, judge) pair. */
  predicate OneEvaluationPerPair(evals: seq<Evaluation>)
  {
    forall i, j :: 0 <= i < j < |evals| ==> evals[i].post != evals[j].post || evals[i].judge != evals[j].judge
  }

  predicate EvaluationsOk(evals: seq<Evaluation>, bound: nat)
  {
    && (forall i :: 0 <= i < |evals| ==> evals[i].id < bound && EvaluationValid(evals[i]))
    && (forall i, j :: 0 <= i < j < |evals| ==> evals[i].id != evals[j].id)
    && OneEvaluationPerPair(evals)
  }

  predicate CommentsOk(comments: seq<Comment>, bound: nat)
  {
    && (forall i :: 0 <= i < |comments| ==> comments[i].id < bound)
    && (forall i, j :: 0 <= i < j < |comments| ==> comments[i].id != comments[j].id)
  }

  predicate NotificationsOk(notifications: seq<Notification>, bound: nat)
  {
    && (forall i :: 0 <= i < |notifications| ==> notifications[i].id < bound && NotificationValid(notifications[i]))
    && (forall i, j :: 0 <= i < j < |notifications| ==> notifications[i].id != notifications[j].id)
  }

  predicate ConversationsOk(conversations: seq<Conversation>, bound: nat)
  {
    && (forall i :: 0 <= i < |conversations| ==> conversations[i].id < bound)
    && (forall i, j :: 0 <= i < j < |conversations| ==> conversations[i].id != conversations[j].id)
  }

  /** The store invariant every controller operation preserves. */
  predicate Consistent(t: Tables)
  {
    && UsersOk(t.users, t.nextId)
    && PostsOk(t.posts, t.nextId)
    && EvaluationsOk(t.evaluations, t.nextId)
    && CommentsOk(t.comments, t.nextId)
    && NotificationsOk(t.notifications, t.nextId)
    && ConversationsOk(t.conversations, t.nextId)
  }

  // ---------------------------------------------- keeping the invariant

  /** Inserting an evaluation with a fresh id, a valid score and a new (post, judge) pair. */
  lemma AddEvaluation(t: Tables, e: Evaluation)
    requires Consistent(t)
    requires e.id == t.nextId && EvaluationValid(e)
    requires forall i :: 0 <= i < |t.evaluations| ==> t.evaluations[i].post != e.post || t.evaluations[i].judge != e.judge
    ensures Consistent(t.(evaluations := t.evaluations + [e], nextId := t.nextId + 1))
  {
    var s := t.evaluations + [e];
    assert forall i :: 0 <= i < |t.evaluations| ==> s[i] == t.evaluations[i];
  }

  /** Inserting a notification with a fresh id and a non-empty content. */
  lemma AddNotification(t: Tables, n: Notification)
    requires Consistent(t)
    requires n.id == t.nextId && NotificationValid(n)
    ensures Consistent(t.(notifications := t.notifications + [n], nextId := t.nextId + 1))
  {
    var s := t.notifications + [n];
    assert forall i :: 0 <= i < |t.notifications| ==> s[i] == t.notifications[i];
  }

  /** Inserting a post with a fresh id that passes the schema and has no likes twice. */
  lemma AddPost(t: Tables, p: Post)
    requires Consistent(t)
    requires p.id == t.nextId && PostValid(p) && NoDuplicates(p.likes)
    ensures Consistent(t.(posts := t.posts + [p], nextId := t.nextId + 1))
  {
    var s := t.posts + [p];
    assert forall i :: 0 <= i < |t.posts| ==> s[i] == t.posts[i];
  }

  /** Replacing a post by a valid one with the same id. */
  lemma SetPost(t: Tables, i: nat, p: Post)
    requires Consistent(t) && i < |t.posts|
    requires p.id == t.posts[i].id && PostValid(p) && NoDuplicates(p.likes)
    ensures Consistent(t.(posts := t.posts[i := p]))
  {
  }

  /** Removing a post. */
  lemma RemovePost(t: Tables, i: nat)
    requires Consistent(t) && i < |t.posts|
    ensures Consistent(t.(posts := RemoveAt(t.posts, i)))
  {
    var r := RemoveAt(t.posts, i);
    forall a, b | 0 <= a < b < |r| ensures r[a].id != r[b].id {
      var a' := if a < i then a else a + 1;
      var b' := if b < i then b else b + 1;
      assert r[a] == t.posts[a'] && r[b] == t.posts[b'];
    }
  }

  /** Inserting a user with a fresh id, a valid document and a username and email nobody has. */
  lemma AddUser(t: Tables, u: User)
    requires Consistent(t)
    requires u.id == t.nextId && UserValid(u)
    requires forall j :: 0 <= j < |t.users| ==> t.users[j].username != u.username && t.users[j].email != u.email
    ensures Consistent(t.(users := t.users + [u], nextId := t.nextId + 1))
  {
    var s := t.users + [u];
    assert forall i :: 0 <= i < |t.users| ==> s[i] == t.users[i];
  }

  /** Replacing a user by a valid one with the same id whose username and email no other user has. */
  lemma SetUser(t: Tables, i: nat, u: User)
    requires Consistent(t) && i < |t.users|
    requires u.id == t.users[i].id && UserValid(u)
    requires forall j :: 0 <= j < |t.users| && j != i ==> t.users[j].username != u.username && t.users[j].email != u.email
    ensures Consistent(t.(users := t.users[i := u]))
  {
  }

  /** Inserting a comment with a fresh id. */
  lemma AddComment(t: Tables, c: Comment)
    requires Consistent(t) && c.id == t.nextId
    ensures Consistent(t.(comments := t.comments + [c], nextId := t.nextId + 1))
  {
    var s := t.comments + [c];
    assert forall i :: 0 <= i < |t.comments| ==> s[i] == t.comments[i];
  }

  /** Removing a comment. */
  lemma RemoveComment(t: Tables, i: nat)
    requires Consistent(t) && i < |t.comments|
    ensures Consistent(t.(comments := RemoveAt(t.comments, i)))
  {
    var r := RemoveAt(t.comments, i);
    forall a, b | 0 <= a < b < |r| ensures r[a].id != r[b].id {
      var a' := if a < i then a else a + 1;
      var b' := if b < i then b else b + 1;
      assert r[a] == t.comments[a'] && r[b] == t.comments[b'];
    }
  }

  /** Inserting a conversation with a fresh id. */
  lemma AddConversation(t: Tables, c: Conversation)
    requires Consistent(t) && c.id == t.nextId
    ensures Consistent(t.(conversations := t.conversations + [c], nextId := t.nextId + 1))
  {
    var s := t.conversations + [c];
    assert forall i :: 0 <= i < |t.conversations| ==> s[i] == t.conversations[i];
  }

  /** Replacing a conversation by one with the same id. */
  lemma SetConversation(t: Tables, i: nat, c: Conversation)
    requires Consistent(t) && i < |t.conversations| && c.id == t.conversations[i].id
    ensures Consistent(t.(conversations := t.conversations[i := c]))
  {
  }

  /** Replacing a notification by a valid one with the same id. */
  lemma SetNotification(t: Tables, i: nat, n: Notification)
    requires Consistent(t) && i < |t.notifications| && n.id == t.notifications[i].id && NotificationValid(n)
    ensures Consistent(t.(notifications := t.notifications[i := n]))
  {
  }

  // ------------------------------------------------------------- lookups

  /** `User.findById(id)` */
  function FindUser(users: seq<User>, id: Id): (r: Option<nat>)
    ensures r.Some? ==> r.value < |users| && users[r.value].id == id
    ensures r.Some? ==> forall j :: 0 <= j < r.value ==> users[j].id != id
    ensures r.None? <==> forall i :: 0 <= i < |users| ==> users[i].id != id
  {
    IndexWhere(users, (u: User) => u.id == id)
  }

  /** `User.findOne({ email })` */
  function FindUserByEmail(users: seq<User>, email: string): (r: Option<nat>)
    ensures r.Some? ==> r.value < |users| && users[r.value].email == email
    ensures r.None? <==> forall i :: 0 <= i < |users| ==> users[i].email != email
  {
    IndexWhere(users, (u: User) => u.email == email)
  }

  /** `Post.findById(id)` */
  function FindPost(posts: seq<Post>, id: Id): (r: Option<nat>)
    ensures r.Some? ==> r.value < |posts| && posts[r.value].id == id
    ensures r.None? <==> forall i :: 0 <= i < |posts| ==> posts[i].id != id
  {
    IndexWhere(posts, (p: Post) => p.id == id)
  }

  /** `Evaluation.findOne({ post, judge })` */
  function FindEvaluation(evals: seq<Evaluation>, post: Id, judge: Id): (r: Option<nat>)
    ensures r.Some? ==> r.value < |evals| && evals[r.value].post == post && evals[r.value].judge == judge
    ensures r.None? <==> forall i :: 0 <= i < |evals| ==> evals[i].post != post || evals[i].judge != judge
  {
    IndexWhere(evals, (e: Evaluation) => e.post == post && e.judge == judge)
  }

  /** `Comment.findById(id)` */
  function FindComment(comments: seq<Comment>, id: Id): (r: Option<nat>)
    ensures r.Some? ==> r.value < |comments| && comments[r.value].id == id
    ensures r.None? <==> forall i :: 0 <= i < |comments| ==> comments[i].id != id
  {
    IndexWhere(comments, (c: Comment) => c.id == id)
  }

  /** `Notification.findById(id)` */
  function FindNotification(notifications: seq<Notification>, id: Id): (r: Option<nat>)
    ensures r.Some? ==> r.value < |notifications| && notifications[r.value].id == id
    ensures r.None? <==> forall i :: 0 <= i < |notifications| ==> notifications[i].id != id
  {
    IndexWhere(notifications, (n: Notification) => n.id == id)
  }

  /** `Conversation.findById(id)` */
  function FindConversation(conversations: seq<Conversation>, id: Id): (r: Option<nat>)
    ensures r.Some? ==> r.value < |conversations| && conversations[r.value].id == id
    ensures r.None? <==> forall i :: 0 <= i < |conversations| ==> conversations[i].id != id
  {
    IndexWhere(conversations, (c: Conversation) => c.id == id)
  }

  /** With distinct ids, `findById` finds the one document that has the id. */
  lemma FindUserUnique(users: seq<User>, id: Id, k: nat)
    requires forall i, j :: 0 <= i < j < |users| ==> users[i].id != users[j].id
    requires k < |users| && users[k].id == id
    ensures FindUser(users, id) == Some(k)
  {
  }

  /** Two user tables with the same ids at the same places give the same lookups. */
  lemma FindUserSameIds(a: seq<User>, b: seq<User>, id: Id)
    requires |a| == |b| && forall j :: 0 <= j < |a| ==> a[j].id == b[j].id
    ensures FindUser(a, id) == FindUser(b, id)
  {
  }

  // ------------------------------------------------- the in-memory database

  class Database {
    var users: seq<User>
    var posts: seq<Post>
    var evaluations: seq<Evaluation>
    var comments: seq<Comment>
    var notifications: seq<Notification>
    var conversations: seq<Conversation>
    var nextId: nat

    ghost function Snapshot(): Tables
      reads this
    {
      Tables(users, posts, evaluations, comments, notifications, conversations, nextId)
    }

    ghost predicate Valid()
      reads this
    {
      Consistent(Snapshot())
    }

    /** An empty database. */
    constructor ()
      ensures Valid()
      ensures Snapshot() == Tables([], [], [], [], [], [], 0)
    {
      users, posts, evaluations := [], [], [];
      comments, notifications, conversations := [], [], [];
      nextId := 0;
    }

    /** Saving a new notification under the next id. */
    method InsertNotification(n: Notification)
      requires Valid() && n.id == nextId && NotificationValid(n)
      modifies this
      ensures Valid()
      ensures Snapshot() == old(Snapshot()).(notifications := old(notifications) + [n], nextId := old(nextId) + 1)
    {
      AddNotification(Snapshot(), n);
      notifications, nextId := notifications + [n], nextId + 1;
    }

    /** Saving a new comment under the next id. */
    method InsertComment(c: Comment)
      requires Valid() && c.id == nextId
      modifies this
      ensures Valid()
      ensures Snapshot() == old(Snapshot()).(comments := old(comments) + [c], nextId := old(nextId) + 1)
    {
      AddComment(Snapshot(), c);
      comments, nextId := comments + [c], nextId + 1;
    }

    /** Saving a new evaluation of a (post, judge) pair not yet evaluated under the next id. */
    method InsertEvaluation(e: Evaluation)
      requires Valid() && e.id == nextId && EvaluationValid(e)
      requires forall i :: 0 <= i < |evaluations| ==> evaluations[i].post != e.post || evaluations[i].judge != e.judge
      modifies this
      ensures Valid()
      ensures Snapshot() == old(Snapshot()).(evaluations := old(evaluations) + [e], nextId := old(nextId) + 1)
    {
      AddEvaluation(Snapshot(), e);
      evaluations, nextId := evaluations + [e], nextId + 1;
    }

    /** Saving a changed post over the stored one with its id. */
    method ReplacePost(i: nat, p: Post)
      requires Valid() && i < |posts| && p.id == posts[i].id && PostValid(p) && NoDuplicates(p.likes)
      modifies this
      ensures Valid()
      ensures Snapshot() == old(Snapshot()).(posts := old(posts)[i := p])
    {
      SetPost(Snapshot(), i, p);
      posts := posts[i := p];
    }

    /** Saving a changed conversation over the stored one with its id. */
    method ReplaceConversation(i: nat, c: Conversation)
      requires Valid() && i < |conversations| && c.id == conversations[i].id
      modifies this
      ensures Valid()
      ensures Snapshot() == old(Snapshot()).(conversations := old(conversations)[i := c])
    {
      SetConversation(Snapshot(), i, c);
      conversations := conversations[i := c];
    }
  }
}
