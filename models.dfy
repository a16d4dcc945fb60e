/**
 * The document shapes of the Mongoose schemas and the validation a `save()` runs
 * against them (the files under backend/models). A save whose document breaks its schema
 * throws, so the controllers that call it answer with their `catch` status.
 */
module Models {
  import opened Common

  // ---------------------------------------------------------------- Post.js

  /** The category enum of Post.js. */
  const PostCategories: seq<string> := ["literal", "visual", "vocal"]

  datatype Post = Post(
    id: Id,
    user: Id,                 // the owner
    title: string,
    content: Option<string>,
    file: Option<string>,
    category: string,
    likes: seq<Id>,           // user ids; the schema itself allows duplicates
    createdAt: int,
    updatedAt: Option<int>)

  /** What `post.save()` accepts: a non-empty title and a category from the enum. */
  predicate PostValid(p: Post)
  {
    p.title != "" && p.category in PostCategories
  }

  // ---------------------------------------------------------- Evaluation.js

  const MinScore: real := 1.0
  const MaxScore: real := 10.0

  datatype Evaluation = Evaluation(
    id: Id,
    post: Id,
    judge: Id,
    score: real,
    feedback: Option<string>,
    createdAt: int)

  /** What `evaluation.save()` accepts: a score between the schema's `min` and `max`. */
  predicate EvaluationValid(e: Evaluation)
  {
    MinScore <= e.score <= MaxScore
  }

  /**
   * The `$field` paths an aggregation stage groups or matches evaluations by: the
   * three ObjectId fields of the schema, and `$user`, which names no field of it.
   */
  datatype EvaluationPath = PostPath | JudgePath | IdPath | UserPath

  /**
   * The value of a path on an Evaluation document: the ObjectId stored under it, or
   * null (None) for `$user`, since the schema has no such field.
   */
  function EvaluationField(e: Evaluation, path: EvaluationPath): (v: Option<Id>)
    ensures v.None? <==> path == UserPath
    ensures path == PostPath ==> v == Some(e.post)
    ensures path == JudgePath ==> v == Some(e.judge)
    ensures path == IdPath ==> v == Some(e.id)
  {
    match path
    case PostPath => Some(e.post)
    case JudgePath => Some(e.judge)
    case IdPath => Some(e.id)
    case UserPath => None
  }

  // ---------------------------------------------------------------- User.js

  /** The role enum of User.js, and its default. */
  const UserRoles: seq<string> := ["user", "judge", "admin"]
  const DefaultRole: string := "user"
  /** The role the controllers test for moderation rights. */
  const AdminRole: string := "admin"

  /**
   * A bcrypt digest, modelled as an ideal hash: `bcrypt.compare(plain, digest)`
   * holds exactly when `digest` was made from `plain`; the salt is random input.
   */
  datatype PasswordHash = Bcrypt(plain: string, salt: nat)

  predicate PasswordMatches(plain: string, digest: PasswordHash)
  {
    digest.plain == plain
  }

  datatype User = User(
    id: Id,
    username: string,
    email: string,
    password: PasswordHash,
    role: string,
    isBanned: bool,
    bio: string,
    avatar: string,
    createdAt: int,
    resetPasswordToken: Option<string>,
    resetPasswordExpires: Option<int>,
    otp: Option<string>,
    otpExpires: Option<int>,
    isVerified: bool)

  /** What `user.save()` accepts, apart from the unique indexes checked against the collection. */
  predicate UserValid(u: User)
  {
    u.username != "" && u.email != "" && u.role in UserRoles
  }

  /** A user document as `new User({...})` builds it: the schema defaults fill the rest. */
  function NewUser(id: Id, username: string, email: string, password: PasswordHash,
                   otp: Option<string>, otpExpires: Option<int>, now: int): (u: User)
    ensures u.id == id && u.username == username && u.email == email && u.password == password
    ensures u.otp == otp && u.otpExpires == otpExpires && u.createdAt == now
    ensures u.role == DefaultRole && DefaultRole in UserRoles
    ensures !u.isBanned && !u.isVerified && u.bio == "" && u.avatar == ""
    ensures u.resetPasswordToken.None? && u.resetPasswordExpires.None?
    ensures UserValid(u) <==> username != "" && email != ""
  {
    User(id, username, email, password, DefaultRole, false, "", "", now, None, None, otp, otpExpires, false)
  }

  // -------------------------------------------------------- Notification.js

  datatype NotificationKind = LikeKind | CommentKind | MessageKind | JudgeKind | PostKind

  datatype Notification = Notification(
    id: Id,
    user: Id,                 // the recipient
    fromUser: Option<Id>,
    kind: NotificationKind,
    content: string,
    relatedId: Option<Id>,
    read: bool,
    createdAt: int)

  /** What `notification.save()` accepts: a non-empty content (user and type are always set here). */
  predicate NotificationValid(n: Notification)
  {
    n.content != ""
  }

  // -------------------------------------------------------- Conversation.js

  datatype Message = Message(sender: Id, content: string, timestamp: int)

  datatype Conversation = Conversation(
    id: Id,
    participants: seq<Id>,
    messages: seq<Message>,
    createdAt: int,
    updatedAt: int)

  // ------------------------------------------------------------- Comment.js

  /** The shape commentController.js builds; Comment.js itself is not part of this model. */
  datatype Comment = Comment(id: Id, post: Id, user: Id, content: string, createdAt: int)
}
