/**
 * judgeController.js: the judge queue (`getTopPosts`), storing a judge's score
 * (`evaluatePost`), a judge's own scores (`getEvaluations`) and the blended
 * per-category leaderboard (`getTopRanked`). The leaderboard arithmetic and the
 * `getUserRankings` aggregation are the functions of module Ranking.
 */
module JudgeController {
  import opened Common
  import opened Models
  import opened Ordering
  import opened Store
  import opened Ranking

  /** `.limit(10)` of `getTopPosts`. */
  const QueueLimit: nat := 10

  /** The scale of the controller's own range check, `score < 0 || score > 10`. */
  const ControllerMinScore: real := 0.0
  const ControllerMaxScore: real := 10.0

  /** The content of the notification a post owner receives. */
  const EvaluatedNotice: string := "Your post was evaluated by a judge."

  function LikeCount(p: Post): real { |p.likes| as real }

  /** The filter of `getTopPosts`: a category when one is given (a falsy one means all). */
  predicate InQueue(p: Post, category: string)
  {
    category == "" || p.category == category
  }

  /**
   * `getTopPosts`: at most 10 posts, all of the requested category when one is
   * given, most liked first; a matching post left out has no more likes than any
   * post returned.
   */
  function GetTopPosts(posts: seq<Post>, category: string): (r: seq<Post>)
    ensures |r| <= QueueLimit
    ensures |r| == Min(|Filter(posts, (p: Post) => InQueue(p, category))|, QueueLimit)
    ensures multiset(r) <= multiset(Filter(posts, (p: Post) => InQueue(p, category)))
    ensures forall p :: p in r ==> p in posts && (category != "" ==> p.category == category)
    ensures SortedDesc(r, LikeCount)
    ensures forall p :: p in posts && InQueue(p, category) && p !in r ==>
              forall q :: q in r ==> |q.likes| >= |p.likes|
  {
    TopN(Filter(posts, (p: Post) => InQueue(p, category)), LikeCount, QueueLimit)
  }

  /** `getEvaluations`: exactly the evaluations whose judge is the caller. */
  function GetEvaluations(evals: seq<Evaluation>, judge: Id): (r: seq<Evaluation>)
    ensures forall e :: e in r <==> e in evals && e.judge == judge
    ensures |r| <= |evals|
  {
    Filter(evals, (e: Evaluation) => e.judge == judge)
  }

  /** The request checks of lines 27 and 31: a truthy post id and a number in [0, 10]. */
  predicate RequestOk(postId: Option<Id>, score: Option<real>)
  {
    postId.Some? && score.Some? && ControllerMinScore <= score.value <= ControllerMaxScore
  }

  /**
   * Adding an evaluation for a (post, judge) pair that has none keeps at most one
   * evaluation per pair; the schema declares no such index, so this is all that
   * keeps the rule.
   */
  lemma AddingKeepsOnePerPair(evals: seq<Evaluation>, e: Evaluation)
    requires OneEvaluationPerPair(evals)
    requires FindEvaluation(evals, e.post, e.judge).None?
    ensures OneEvaluationPerPair(evals + [e])
    ensures FindEvaluation(evals + [e], e.post, e.judge).Some?
  {
    var s := evals + [e];
    assert s[|evals|] == e;
  }

  /**
   * `evaluatePost` by the judge `caller`. `postId` is None when falsy and `score` is
   * None when not a number. In order: 400 for a bad request, 404 for an unknown
   * post, 400 when the caller already scored the post, 500 when the save rejects a
   * score below the schema minimum 1 (the controller lets 0 through); otherwise the
   * evaluation is stored, and then the owner's notification. `notifyFails` is a
   * failure of that second save: the answer is 500 but the evaluation stays stored.
   */
  method EvaluatePost(db: Database, caller: Id, postId: Option<Id>, score: Option<real>,
                      feedback: Option<string>, now: int, notifyFails: bool) returns (status: Status)
    requires db.Valid()
    modifies db
    ensures db.Valid()
    ensures !RequestOk(postId, score) ==> status == BadRequest && db.Snapshot() == old(db.Snapshot())
    ensures RequestOk(postId, score) && FindPost(old(db.posts), postId.value).None? ==>
              status == NotFound && db.Snapshot() == old(db.Snapshot())
    ensures RequestOk(postId, score) && FindPost(old(db.posts), postId.value).Some? &&
            FindEvaluation(old(db.evaluations), postId.value, caller).Some? ==>
              status == BadRequest && db.Snapshot() == old(db.Snapshot())
    ensures RequestOk(postId, score) && FindPost(old(db.posts), postId.value).Some? &&
            FindEvaluation(old(db.evaluations), postId.value, caller).None? && score.value < MinScore ==>
              status == ServerError && db.Snapshot() == old(db.Snapshot())
    ensures RequestOk(postId, score) && FindPost(old(db.posts), postId.value).Some? &&
            FindEvaluation(old(db.evaluations), postId.value, caller).None? && MinScore <= score.value ==>
      var owner := old(db.posts)[FindPost(old(db.posts), postId.value).value].user;
      var e := Evaluation(old(db.nextId), postId.value, caller, score.value, feedback, now);
      var n := Notification(old(db.nextId) + 1, owner, None, JudgeKind, EvaluatedNotice, Some(postId.value), false, now);
      && (notifyFails ==>
            status == ServerError &&
            db.Snapshot() == old(db.Snapshot()).(evaluations := old(db.evaluations) + [e], nextId := old(db.nextId) + 1))
      && (!notifyFails ==>
            status == Created &&
            db.Snapshot() == old(db.Snapshot()).(evaluations := old(db.evaluations) + [e],
                                                 notifications := old(db.notifications) + [n],
                                                 nextId := old(db.nextId) + 2))
  {
    if postId.None? || score.None? {
      return BadRequest;
    }
    if score.value < ControllerMinScore || score.value > ControllerMaxScore {
      return BadRequest;
    }
    var found := FindPost(db.posts, postId.value);
    if found.None? {
      return NotFound;
    }
    var post := db.posts[found.value];
    var existing := FindEvaluation(db.evaluations, postId.value, caller);
    if existing.Some? {
      return BadRequest;
    }
    var e := Evaluation(db.nextId, postId.value, caller, score.value, feedback, now);
    if !EvaluationValid(e) {
      return ServerError;
    }
    status := SaveEvaluation(db, e, post.user, now, notifyFails);
  }

  /**
   * Lines 44-62 of `evaluatePost` once the checks passed: the evaluation is saved,
   * then the notification to the post owner; when the second save fails, the first
   * one stays.
   */
  method SaveEvaluation(db: Database, e: Evaluation, owner: Id, now: int, notifyFails: bool) returns (status: Status)
    requires db.Valid()
    requires e.id == db.nextId && EvaluationValid(e)
    requires FindEvaluation(db.evaluations, e.post, e.judge).None?
    modifies db
    ensures db.Valid()
    ensures var n := Notification(old(db.nextId) + 1, owner, None, JudgeKind, EvaluatedNotice, Some(e.post), false, now);
      && (notifyFails ==>
            status == ServerError &&
            db.Snapshot() == old(db.Snapshot()).(evaluations := old(db.evaluations) + [e], nextId := old(db.nextId) + 1))
      && (!notifyFails ==>
            status == Created &&
            db.Snapshot() == old(db.Snapshot()).(evaluations := old(db.evaluations) + [e],
                                                 notifications := old(db.notifications) + [n],
                                                 nextId := old(db.nextId) + 2))
  {
    db.InsertEvaluation(e);
    if notifyFails {
      return ServerError;
    }
    var n := Notification(db.nextId, owner, None, JudgeKind, EvaluatedNotice, Some(e.post), false, now);
    db.InsertNotification(n);
    status := Created;
  }

  /**
   * The inner loop of `getTopRanked`: one `scoredPosts.push` per post of the
   * category, in the category's order, each post scored against `maxLikes` and the
   * mean of its own evaluations (0 when it has none).
   */
  method ScorePosts(posts: seq<Post>, maxLikes: nat, evals: seq<Evaluation>) returns (scoredPosts: seq<Scored>)
    requires maxLikes >= 1
    ensures scoredPosts == ScoreAll(posts, maxLikes, evals)
  {
    scoredPosts := [];
    var j := 0;
    while j < |posts|
      invariant 0 <= j <= |posts|
      invariant |scoredPosts| == j
      invariant forall k :: 0 <= k < j ==> scoredPosts[k] == ScorePost(posts[k], maxLikes, evals)
    {
      var post := posts[j];
      var likes := |post.likes|;
      var scores := ScoresFor(evals, post.id);
      var avgJudgeScore := if |scores| > 0 then Sum(scores) / |scores| as real else 0.0;
      var userScore := (likes as real / maxLikes as real) * LikeWeight;
      var judgeScore := (avgJudgeScore / ScoreScale) * JudgeWeight;
      scoredPosts := scoredPosts + [Scored(post, userScore, judgeScore, userScore + judgeScore)];
      j := j + 1;
    }
  }

  /**
   * `getTopRanked` as the controller runs it: for each category in turn, score every
   * post of the category, then sort and keep ten. The result is the leaderboard
   * `TopRanked`, whose properties are the lemmas of module Ranking.
   */
  method GetTopRanked(db: Database) returns (results: seq<CategoryRanking>)
    ensures results == TopRanked(db.posts, db.evaluations)
  {
    ghost var expected := TopRanked(db.posts, db.evaluations);
    results := [];
    var c := 0;
    while c < |RankedCategories|
      invariant 0 <= c <= |RankedCategories|
      invariant |results| == c
      invariant forall k :: 0 <= k < c ==> results[k] == expected[k]
    {
      var category := RankedCategories[c];
      var posts := CategoryPosts(db.posts, category);
      var maxLikes := MaxLikes(posts);
      var scoredPosts := ScorePosts(posts, maxLikes, db.evaluations);
      var top10 := Take(SortDesc(scoredPosts, FinalScoreOf), TopCount);
      assert top10 == RankCategory(db.posts, db.evaluations, category);
      results := results + [CategoryRanking(category, top10)];
      c := c + 1;
    }
  }
}
