# Art Showcase backend, modelled in Dafny

This project models the Express/Mongoose backend of the Art Showcase app. Users post
literal, visual and vocal art. Other users like posts and comment on them. Judges score
posts, and a blended leaderboard ranks each category. Users message each other, receive
notifications, and are moderated by admins.

The model covers the rules the controllers apply to the database:

- the judging pipeline (`evaluatePost`) and the leaderboards (`getTopRanked`,
  `getUserRankings`, `getTopPosts`);
- the like toggle and the owner/admin checks on posts and comments;
- registration, login and the password-reset token lifecycle;
- profile edits;
- conversations and messages;
- notifications;
- the judge-role gate;
- the chat keyword filter.

## How the model is built

- **The store.** The MongoDB collections are `seq` fields of one `Store.Database`
  class, plus `nextId`, which hands out fresh ObjectIds. `Store.Consistent` is the store
  invariant:
  - every document passes its schema;
  - ids are fresh and distinct;
  - usernames and emails are unique;
  - no post has a duplicate like;
  - there is at most one evaluation per (post, judge) pair.
- **Controllers.** Every controller that writes is a method `modifies db`. It keeps the
  invariant and states the whole new store case by case: one case per status code the
  controller answers with.
- **Reads and calculations.** Reads, filters, sorts, the score arithmetic and the
  predicates are functions with lemmas.
- **Status codes.** A Mongoose `save()` that breaks its schema throws, so the model
  answers with the controller's `catch` status.
- **Arithmetic.** Scores are exact `real`s.
- **Falsy strings.** A falsy request string is `""`; an absent value is `None`.
- **Inputs.** The clock, the random token, the OTP, the bcrypt salt and the failure of
  an email or of a second save are parameters.
- **Passwords.** bcrypt is an ideal hash: `Bcrypt(plain, salt)` matches exactly `plain`.
- **Tokens.** The JWT behind `req.user` carries only `{ id, role }`. So
  `req.user.username` is the text `undefined` in the comment and message notices.

Where the code and its evident intent part ways, the model follows the code:

- **Evaluation scores.** `evaluatePost` lets a score of 0 through its own check. The
  schema minimum of 1 then makes the save fail with 500.
- **Judge roles.** The judge gate accepts only `literal_judge`, `visual_judge` and
  `vocal_judge`. None of these is in the User role enum, so no stored user can pass
  (`RoleGate.NoStoredUserIsJudge`).
- **`getUserRankings`.** It groups by `$user`, which no Evaluation has. So all
  evaluations form one group with key null.
- **`createPost`.** Its judge notification maps labels such as `'Literal Art'`, which
  the category enum never accepts, so that branch is dead.
- **`markAsRead`.** It dereferences the lookup result before testing it. An unknown id
  therefore answers 500, not 404.
- **`reportPost`.** It assigns `reported`, which the Post schema does not declare. The
  strict schema drops it, so the store does not change.
- **`changePassword`.** The route installs no authentication middleware. Every real
  call therefore takes the "no user id" branch (400). The model keeps the caller as an
  `Option` and proves all the branches.
- **`login`.** It never checks `isVerified`.
- **`getUserProfile`.** It hides only the password. The reset token and the OTP are
  part of the answer.

## Model

| member | source | states |
|---|---|---|
| Models.NewUser | backend/models/User.js:7-18 | A new user stores the given id, username, email, password hash, OTP, OTP expiry and creation time; it has role 'user' (in the enum), is neither banned nor verified, has empty bio and avatar and no reset token; it passes the schema exactly when username and email are non-empty |
| Models.EvaluationField | backend/models/Evaluation.js:3-9 | The id-valued paths an aggregation groups by: `$post`, `$judge` and `$_id` give the stored ObjectId; `$user`, which the schema does not declare, is null on every evaluation, and it is the only path that is null |
| Store.AddEvaluation | backend/models/Evaluation.js:4-6 | Storing an evaluation with a fresh id, a score in 1..10 and a new (post, judge) pair keeps the store invariant |
| Store.AddUser | backend/models/User.js:4-5 | Storing a valid user whose username and email are both unused keeps usernames and emails unique |
| Store.SetUser | backend/models/User.js:4-7 | Replacing a user by a valid one with the same id and no clash with the others keeps the invariant |
| Store.AddPost | backend/models/Post.js:4-9 | Storing a valid post (title set, category in the enum) with a fresh id and duplicate-free likes keeps the invariant |
| Store.RemovePost | backend/controllers/postController.js:127 | Removing a post keeps the invariant |
| Store.FindUser | backend/controllers/adminController.js:16-17 | `findById` on users: the first user with the id, None exactly when no user has it |
| Store.FindUserUnique | backend/models/User.js:3-19 | With distinct ids, the user at index k is the one `findById` returns |
| JudgeController.GetTopPosts | backend/controllers/judgeController.js:6-19 | At most 10 posts, all of the requested category when one is given, as many as min(10, matching posts), a sub-multiset of the matching posts (none repeated in place of another), most liked first, and no matching post left out has more likes than one returned |
| JudgeController.GetEvaluations | backend/controllers/judgeController.js:69-79 | Exactly the evaluations whose judge is the caller |
| JudgeController.AddingKeepsOnePerPair | backend/controllers/judgeController.js:38-50 | Adding an evaluation for a pair with none keeps at most one evaluation per (post, judge) |
| JudgeController.EvaluatePost | backend/controllers/judgeController.js:22-66 | 400 for a missing post id, a non-number or a score outside [0, 10]; 404 for an unknown post; 400 for a second evaluation by the same judge; 500 for a score below the schema minimum 1; all with the store unchanged. Otherwise exactly one evaluation {post, judge = caller, score, feedback} is stored, then the owner's notification; a failed notification answers 500 with the evaluation kept |
| JudgeController.SaveEvaluation | backend/controllers/judgeController.js:44-62 | The evaluation is saved before the notification; a failed second save leaves the first in place |
| JudgeController.ScorePosts | backend/controllers/judgeController.js:113-130 | The inner loop pushes, for each post in order, exactly `ScorePost` of it |
| JudgeController.GetTopRanked | backend/controllers/judgeController.js:102-144 | The nested loops produce exactly the leaderboard `TopRanked`: literal, visual, vocal, each the category's top ten |
| Ranking.MaxLikes | backend/controllers/judgeController.js:110 | maxLikes is at least 1, at least every like count, and equal to one of them unless it is 1 |
| Ranking.ScorePostBounds | backend/controllers/judgeController.js:114-122 | userScore lies in [0, 40]; judgeScore is 0 without evaluations and in [6, 60] with stored ones; finalScore is their sum, in [0, 100] |
| Ranking.MostLikedGetsFullLikeScore | backend/controllers/judgeController.js:110-120 | The most liked post of a category (with at least one like) gets the full 40 |
| Ranking.NoLikesGiveZeroLikeScore | backend/controllers/judgeController.js:110-120 | When no post of the category has a like, the divide-by-zero guard makes every like score 0 |
| Ranking.SumBounds | backend/controllers/judgeController.js:117 | The reduce-sum of values in [lo, hi] lies in [n·lo, n·hi] |
| Ranking.MeanBounds | backend/controllers/judgeController.js:116-118 | The mean of scores is 0 with none and lies within their bounds otherwise |
| Ranking.ScoreAll | backend/controllers/judgeController.js:113-130 | One scored entry per post of the category, in order |
| Ranking.CategoryPosts | backend/controllers/judgeController.js:108 | Exactly the posts of the category |
| Ranking.TopRanked | backend/controllers/judgeController.js:104-137 | One entry per category, in the order literal, visual, vocal |
| Ranking.RankedIsSortedPermutation | backend/controllers/judgeController.js:113-133 | Before the cut, the scored list is sorted non-increasing by finalScore and holds every post of the category exactly once |
| Ranking.RankCategoryTopTen | backend/controllers/judgeController.js:132-134 | top10 has length min(10, posts in category), is sorted non-increasing, holds only posts of the category, and beats every entry cut off |
| Ranking.RankCategoryScoreBounds | backend/controllers/judgeController.js:120-122 | Every ranked entry has userScore in [0, 40], judgeScore in [0, 60] and finalScore their sum in [0, 100] |
| Ranking.GroupKeys | backend/controllers/judgeController.js:86-87 | The `$group` keys are distinct, cover every evaluation's key and come from some evaluation |
| Ranking.GroupRowFacts | backend/controllers/judgeController.js:88-89 | A group's totalScore is the sum of its scores and averageScore times count equals the total |
| Ranking.AggregateRows | backend/controllers/judgeController.js:84-93 | Every distinct key has its group's row, and there are no other rows (as many rows as keys, each the row of a key); no group is empty; sorted non-increasing by averageScore |
| Ranking.UserGroupHoldsEverything | backend/controllers/judgeController.js:87 | With the `$user` key every evaluation falls in the null group, which holds all scores |
| Ranking.UserRankingsIsOneGroup | backend/controllers/judgeController.js:82-99 | `getUserRankings` returns nothing without evaluations and otherwise one row: key null, the total and the mean of all scores |
| Ranking.ScoresWith | backend/controllers/judgeController.js:115-117 | A group's scores are at most as many as the evaluations and, for stored evaluations, lie in 1..10 |
| Ranking.MeanTimesCount | backend/controllers/judgeController.js:117 | mean × count = sum for a non-empty list |
| RankingExamples.BlendExample | backend/controllers/judgeController.js:110-134 | A post with 8 likes and scores 6, 8 ranks 82 (40 + 42) above a post with 2 likes and no score (10 + 0) |
| RankingExamples.AggregateExample | backend/controllers/judgeController.js:84-93 | Three scores 5, 7, 9 by two judges on two posts give one null-keyed row, total 21, average 7 |
| Ordering.SortDesc | backend/controllers/judgeController.js:132-133 | The sort is a permutation of its input, sorted non-increasing by the key |
| Ordering.TopN | backend/controllers/notificationController.js:22-24 | Sort then limit: min(n, size) elements, a sub-multiset of the input (nothing repeated or invented), sorted, none beaten by one left out |
| Ordering.SortDescStable | backend/controllers/judgeController.js:132-133 | The sort is stable: for every key value, the elements with that key come out in their input order, none added or dropped |
| Ordering.TakeKeepsLargest | backend/controllers/judgeController.js:134 | `.slice(0, 10)` of a sorted list keeps the largest |
| RoleGate.IsJudge | backend/middleware/isJudge.js:1-7 | Passes exactly a request with role literal_judge, visual_judge or vocal_judge; 403 otherwise, including for no user |
| RoleGate.SchemaRolesRefused | backend/middleware/isJudge.js:2-5 | user, admin and the 'judge' that assignJudge sets are all refused |
| RoleGate.NoStoredUserIsJudge | backend/models/User.js:7 | No user the store can hold passes the gate |
| PostController.ToggleLike | backend/controllers/postController.js:98-101 | A caller already in the likes has every occurrence removed; otherwise the caller is appended once at the end. Either way the membership flips, every other id and its order stay, and duplicate-freedom is kept |
| PostController.Without | backend/controllers/postController.js:99 | The filter removes every occurrence of the user and only those |
| PostController.LikeThenUnlike | backend/controllers/postController.js:98-101 | Liking then unliking from a list without the caller restores the list |
| PostController.LikePost | backend/controllers/postController.js:94-118 | 404 and no change for an unknown post; the likes toggle; a notification only on a new like by someone other than the owner, never on unlike |
| PostController.Admins | backend/controllers/postController.js:23 | Exactly the users whose role is admin |
| PostController.AdminNotices | backend/controllers/postController.js:25-33 | One notification per admin, addressed to that admin, about the new post |
| PostController.AdminNotified | backend/controllers/postController.js:23-33 | Every admin receives a notification about the new post |
| PostController.NoAdminNotifiedTwice | backend/controllers/postController.js:23-33 | No admin receives two |
| PostController.NotifyAdmins | backend/controllers/postController.js:25-33 | The loop appends exactly the admins' notifications, in order |
| PostController.NotifyAdminsOfPost | backend/controllers/postController.js:23-33 | No admin, no change; a caller without a user document fails (500) when there is an admin; else one notice per admin |
| PostController.JudgeRoleFor | backend/controllers/postController.js:36-39 | Only the three labels map to judge roles, and no category the schema accepts does |
| PostController.CreatePost | backend/controllers/postController.js:7-59 | A post that breaks the schema gives 500 and no change; otherwise it is stored and the admins are notified, with no judge notification |
| PostController.MergePost | backend/controllers/postController.js:156-161 | Empty title, content or category keep the old values; file changes only on upload; a valid post with a valid or empty category stays valid |
| PostController.UpdatePost | backend/controllers/postController.js:145-168 | 404 unknown; 403 for anyone but the owner, admins included; 500 when the merge breaks the schema; else the merged post is stored |
| PostController.DeletePost | backend/controllers/postController.js:120-132 | 404 unknown; 403 unless owner or admin; else the post is removed |
| PostController.ReportPost | backend/controllers/postController.js:169-180 | 404 for an unknown post, otherwise 200, and the store does not change |
| AdminController.SetBanned | backend/controllers/adminController.js:14-36 | 404 unknown; else only `isBanned` of that user changes |
| AdminController.BanUser | backend/controllers/adminController.js:14-24 | 404 unknown; else isBanned becomes true and nothing else changes |
| AdminController.UnbanUser | backend/controllers/adminController.js:26-36 | 404 unknown; else isBanned becomes false and nothing else changes |
| AdminController.BanThenUnban | backend/controllers/adminController.js:14-36 | Both calls answer alike; ban then unban of an unbanned user restores the store |
| AdminController.BanTwice | backend/controllers/adminController.js:14-24 | Banning twice leaves the store as banning once |
| AdminController.AssignJudge | backend/controllers/adminController.js:38-48 | 404 unknown; else only the role changes, to 'judge' |
| AdminController.AdminDeletePost | backend/controllers/adminController.js:50-59 | 404 unknown; else the post is removed whoever owns it |
| AdminController.AdminDeleteComment | backend/controllers/adminController.js:61-70 | 404 unknown; else the comment is removed whoever wrote it |
| AdminController.RemovedIsGone | backend/controllers/adminController.js:50-59 | After removal no post has the id and every other post remains |
| AuthController.Register | backend/controllers/authController.js:7-43 | 400 and no change for an email in use, a missing password, an empty username or email or a taken username; otherwise the user is stored unverified with otpExpires = now + 600000; an email failure answers 400 with the user kept |
| AuthController.Login | backend/controllers/authController.js:45-61 | 401 for an unknown email or a banned user; 401 for a wrong password; a session only for an unbanned user with that email and a matching password |
| AuthController.LoginAcceptsGoodCredentials | backend/controllers/authController.js:48-57 | With unique emails the right password of an unbanned user always logs in, verified or not |
| AuthController.IssueResetToken | backend/controllers/authController.js:70-72 | The token is set and expires at now + 3600000; nothing else changes |
| AuthController.ResetWindow | backend/controllers/authController.js:100-103 | A freshly issued token opens a reset exactly while now < issued + 3600000 |
| AuthController.FindResetUser | backend/controllers/authController.js:100-103 | Finds a user whose token matches with an expiry strictly after now; None exactly when none does |
| AuthController.ApplyReset | backend/controllers/authController.js:107-110 | The new hash is set and the token and its expiry cleared, every other field unchanged, so no later call can match it |
| AuthController.ForgotPassword | backend/controllers/authController.js:63-92 | 404 and no change for an unknown email; otherwise the token and expiry are set (kept even if the email fails, which answers 500) |
| AuthController.ResetPassword | backend/controllers/authController.js:95-118 | 400 and no change without a matching unexpired token; otherwise the password is replaced and the token can never be used again |
| AuthController.ChangePassword | backend/controllers/authController.js:120-149 | 400 without a user id or with a missing password; 404 unknown user; 400 wrong current password; else only the password changes |
| UserController.ProfileOf | backend/controllers/userController.js:5 | The profile agrees with the user on every field and has no password |
| UserController.GetUserProfile | backend/controllers/userController.js:3-11 | 404 exactly when no user has the route id (or the caller's); otherwise that user's profile |
| UserController.ProfileHidesPassword | backend/controllers/userController.js:5 | Changing any stored password changes no profile answer |
| UserController.MergeProfile | backend/controllers/userController.js:27-29 | A non-empty username or bio replaces the old one, the avatar changes only on upload, nothing else changes, and validity is kept |
| UserController.UpdateUserProfile | backend/controllers/userController.js:21-35 | 404 when the caller's user is missing; 500 and no change when the new username is another user's; else the merged user is stored |
| CommentController.CreateComment | backend/controllers/commentController.js:5-26 | 404 and no change for an unknown post; otherwise one comment {post, user = caller, content} and, unless the caller owns the post, one notice to the owner with the comment id |
| CommentController.SaveComment | backend/controllers/commentController.js:10-21 | The comment is stored, and the owner is notified only when the commenter is someone else |
| CommentController.GetComments | backend/controllers/commentController.js:28-37 | Exactly the post's comments, each as often as stored, newest first |
| CommentController.DeleteComment | backend/controllers/commentController.js:39-51 | 404 unknown; 403 unless author or admin; else the comment is removed |
| CommentController.DeletedCommentIsGone | backend/controllers/commentController.js:46 | After removal no comment has the id and every other comment remains |
| MessageController.ConversationWith | backend/controllers/messageController.js:7-9 | The first conversation whose participants include both users; None exactly when there is none |
| MessageController.ConversationWithSymmetric | backend/controllers/messageController.js:7-9 | The same conversation is found whichever user asks |
| MessageController.CreateConversation | backend/controllers/messageController.js:4-18 | An existing conversation of the two is returned unchanged; only when none exists is [caller, recipient] stored |
| MessageController.CreateConversationTwice | backend/controllers/messageController.js:10-14 | A second call, from either side, returns the same conversation; the store afterwards is either unchanged or holds exactly that one conversation more under the next id |
| MessageController.GetConversations | backend/controllers/messageController.js:20-31 | Exactly the caller's conversations, each once, most recently updated first |
| MessageController.RecipientOf | backend/controllers/messageController.js:55 | The first participant other than the caller; None exactly when every participant is the caller |
| MessageController.SendMessage | backend/controllers/messageController.js:33-73 | 404 unknown; otherwise one message by the caller appended after the others, updatedAt set, no participant check; the notice goes to the first other participant; the appended message is returned |
| NotificationController.CreateNotification | backend/controllers/notificationController.js:4-18 | Stores {user = recipient, fromUser = sender, type, content, relatedId}; a rejected save stores nothing and never reaches the caller |
| NotificationController.Inbox | backend/controllers/notificationController.js:22 | Exactly the notifications addressed to the user |
| NotificationController.GetNotifications | backend/controllers/notificationController.js:20-29 | Only the caller's notifications, a sub-multiset of the inbox, newest first, at most 50, none left out newer than one returned |
| NotificationController.MarkAsRead | backend/controllers/notificationController.js:31-47 | 500 for an unknown id; 403 and no change for someone else's; else read becomes true, and marking twice equals marking once |
| AllowedMessages.SomeIncluded | backend/utils/allowedMessages.js:22-24 | `some(includes)`: true exactly when some entry is a token |
| AllowedMessages.IsAllowedMessage | backend/utils/allowedMessages.js:19-27 | True exactly when some token is a greeting, a thanks entry or an art keyword; no token gives false |
| AllowedMessages.MultiWordEntriesNeverMatch | backend/utils/allowedMessages.js:6-7 | For space-free tokens, acceptance is exactly a token among the single-word entries |
| AllowedMessages.WholeTokensOnly | backend/utils/allowedMessages.js:22-24 | 'artistic' is rejected and 'art' accepted |
| AllowedMessages.ToLower | backend/utils/allowedMessages.js:15 | Same length, each letter lowercased |
| AllowedMessages.ToLowerIdempotent | backend/utils/allowedMessages.js:15 | Lowercasing twice is lowercasing once |
| AllowedMessages.IsAllowedText | backend/utils/allowedMessages.js:14-27 | The verdict on the lowercased, tokenised text |
| AllowedMessages.CaseInsensitive | backend/utils/allowedMessages.js:14-16 | Texts equal up to case get the same verdict |

## Left out

- Express routing, the JWT check of `auth.js`, Socket.IO emits and console logging are transport. So are the `populate` joins that only decorate answers.
- bcrypt's cost and salting are not modelled: the hash is ideal. `crypto.randomBytes`, the `Math.random` OTP and the clock are inputs. Email sending (`sendEmail.js`) is an input flag saying whether it failed.
- The `natural` word tokenizer is a function parameter (`AllowedMessages.IsAllowedText`). `AllowedMessages.ToLower` covers ASCII letters only, not the full Unicode lowercasing of `toLowerCase`.
- JavaScript floating point and `toFixed` are not modelled; the arithmetic is exact `real`. NaN and infinite scores are not modelled.
- MongoDB query semantics are reduced to filters and sorts over sequences:
  - `JudgeController.GetTopPosts` orders by like count, the order its comment promises. MongoDB's `.sort({ likes: -1 })` on an array field compares array elements instead.
  - `findOne` is the first match in store order.
  - `Models.EvaluationField` covers only the ObjectId-valued paths `$post`, `$judge` and `$_id`, plus `$user`, the one the source groups by. Grouping by `$score`, `$feedback` or `$createdAt` is not modelled; the source never does it.
  - A query on an undefined field (`findOne({ email: undefined })`) is not modelled.
- `AuthController.Login` takes the password as a string. A missing password, which makes `bcrypt.compare` throw (500), is not modelled.
- An id that is not a valid ObjectId (a CastError, 500) is not modelled: ids are `nat`.
- Concurrency is not modelled. Every call runs atomically, so the race between the duplicate-evaluation check and the save is not modelled.
- The plain reads `getPosts`, `getPostsByUser`, `getPostById`, `getReportedPosts`, `getAllUsers` and the admin `getUsers` only list a collection. They are not modelled.
- `verifyOtp`/`resendOtp` are routed but not part of this model. `chatController.js` (an external AI API call) is not part of this model.
- Comment.js is not part of this model. A comment save is taken to always succeed.
- Conversation.js and Notification.js are used only as document shapes.
