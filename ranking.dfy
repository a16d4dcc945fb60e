/**
 * The arithmetic of judgeController.js: the blended per-category leaderboard of
 * `getTopRanked` (40 points for likes relative to the category's most liked post,
 * 60 points for the mean judge score out of 10) and the `$group` aggregation of
 * `getUserRankings`. Numbers are exact reals; JavaScript's floating point is not modelled.
 */
module Ranking {
  import opened Common
  import opened Models
  import opened Ordering

  /** The categories `getTopRanked` ranks, in the order it returns them. */
  const RankedCategories: seq<string> := ["literal", "visual", "vocal"]
  const LikeWeight: real := 40.0
  const JudgeWeight: real := 60.0
  /** The divisor of the mean judge score: the schema's maximum score. */
  const ScoreScale: real := 10.0
  const TopCount: nat := 10

  /** One entry of a category's `top10`. */
  datatype Scored = Scored(post: Post, userScore: real, judgeScore: real, finalScore: real)

  datatype CategoryRanking = CategoryRanking(category: string, top10: seq<Scored>)

  function FinalScoreOf(s: Scored): real { s.finalScore }

  function PostOf(s: Scored): Post { s.post }

  // ------------------------------------------------------------ sums and means

  function Sum(xs: seq<real>): real
  {
    if xs == [] then 0.0 else xs[0] + Sum(xs[1..])
  }

  lemma {:induction false} SumBounds(xs: seq<real>, lo: real, hi: real)
    requires forall i :: 0 <= i < |xs| ==> lo <= xs[i] <= hi
    ensures |xs| as real * lo <= Sum(xs) <= |xs| as real * hi
  {
    if xs != [] {
      SumBounds(xs[1..], lo, hi);
    }
  }

  /** `$avg`, and `reduce(sum) / length` guarded by `length ? ... : 0`. */
  function Mean(xs: seq<real>): real
  {
    if |xs| == 0 then 0.0 else Sum(xs) / |xs| as real
  }

  /** The mean of values in [lo, hi] lies in [lo, hi]; the mean of nothing is 0. */
  lemma MeanBounds(xs: seq<real>, lo: real, hi: real)
    requires forall i :: 0 <= i < |xs| ==> lo <= xs[i] <= hi
    ensures xs == [] ==> Mean(xs) == 0.0
    ensures xs != [] ==> lo <= Mean(xs) <= hi
  {
    if xs != [] {
      SumBounds(xs, lo, hi);
      var n := |xs| as real;
      var m := Sum(xs) / n;
      assert m * n == Sum(xs);
      if m < lo {
        assert m * n < lo * n;
      }
      if m > hi {
        assert m * n > hi * n;
      }
    }
  }

  // ------------------------------------------------------ aggregation inputs

  /** The scores of the evaluations whose field `path` holds `key`, in store order. */
  function ScoresWith(evals: seq<Evaluation>, path: EvaluationPath, key: Option<Id>): (r: seq<real>)
    ensures |r| <= |evals|
    ensures (forall i :: 0 <= i < |evals| ==> EvaluationValid(evals[i])) ==>
              forall i :: 0 <= i < |r| ==> MinScore <= r[i] <= MaxScore
  {
    if evals == [] then []
    else (if EvaluationField(evals[0], path) == key then [evals[0].score] else []) + ScoresWith(evals[1..], path, key)
  }

  /** `Evaluation.find({ post: postId })` mapped to the scores. */
  function ScoresFor(evals: seq<Evaluation>, postId: Id): seq<real>
  {
    ScoresWith(evals, PostPath, Some(postId))
  }

  // --------------------------------------------------------- the blended score

  /** `Math.max(...posts.map(p => p.likes.length), 1)` */
  function MaxLikes(posts: seq<Post>): (m: nat)
    ensures m >= 1
    ensures forall i :: 0 <= i < |posts| ==> |posts[i].likes| <= m
    ensures m == 1 || exists i :: 0 <= i < |posts| && |posts[i].likes| == m
  {
    if posts == [] then 1
    else
      var rest := MaxLikes(posts[1..]);
      if |posts[0].likes| > rest then |posts[0].likes| else rest
  }

  function UserScore(likes: nat, maxLikes: nat): real
    requires maxLikes >= 1
  {
    (likes as real / maxLikes as real) * LikeWeight
  }

  function JudgeScore(avgJudgeScore: real): real
  {
    (avgJudgeScore / ScoreScale) * JudgeWeight
  }

  /** The entry `scoredPosts.push` adds for one post. */
  function ScorePost(p: Post, maxLikes: nat, evals: seq<Evaluation>): Scored
    requires maxLikes >= 1
  {
    var u := UserScore(|p.likes|, maxLikes);
    var j := JudgeScore(Mean(ScoresFor(evals, p.id)));
    Scored(p, u, j, u + j)
  }

  /** `Post.find({ category })` */
  function CategoryPosts(posts: seq<Post>, category: string): (r: seq<Post>)
    ensures forall p :: p in r <==> p in posts && p.category == category
  {
    Filter(posts, (p: Post) => p.category == category)
  }

  function ScoreAll(posts: seq<Post>, maxLikes: nat, evals: seq<Evaluation>): (r: seq<Scored>)
    requires maxLikes >= 1
    ensures |r| == |posts|
    ensures forall i :: 0 <= i < |posts| ==> r[i] == ScorePost(posts[i], maxLikes, evals)
  {
    seq(|posts|, i requires 0 <= i < |posts| => ScorePost(posts[i], maxLikes, evals))
  }

  /** Every scored post of a category, sorted by non-increasing final score, before the cut. */
  function Ranked(posts: seq<Post>, evals: seq<Evaluation>, category: string): seq<Scored>
  {
    var inCategory := CategoryPosts(posts, category);
    SortDesc(ScoreAll(inCategory, MaxLikes(inCategory), evals), FinalScoreOf)
  }

  /** A category's `top10`. */
  function RankCategory(posts: seq<Post>, evals: seq<Evaluation>, category: string): seq<Scored>
  {
    Take(Ranked(posts, evals, category), TopCount)
  }

  /** The response of `getTopRanked`. */
  function TopRanked(posts: seq<Post>, evals: seq<Evaluation>): (r: seq<CategoryRanking>)
    ensures |r| == |RankedCategories|
    ensures forall i :: 0 <= i < |r| ==> r[i].category == RankedCategories[i]
  {
    seq(|RankedCategories|, i requires 0 <= i < |RankedCategories| =>
      CategoryRanking(RankedCategories[i], RankCategory(posts, evals, RankedCategories[i])))
  }

  // ----------------------------------------------------------------- lemmas

  /**
   * The components of one post's score: the like part lies in [0, 40]; the judge
   * part is 0 without evaluations and lies in [6, 60] with stored ones (scores 1..10).
   */
  lemma ScorePostBounds(p: Post, maxLikes: nat, evals: seq<Evaluation>)
    requires 1 <= maxLikes && |p.likes| <= maxLikes
    requires forall i :: 0 <= i < |evals| ==> EvaluationValid(evals[i])
    ensures var s := ScorePost(p, maxLikes, evals);
      && 0.0 <= s.userScore <= LikeWeight
      && (ScoresFor(evals, p.id) == [] ==> s.judgeScore == 0.0)
      && (ScoresFor(evals, p.id) != [] ==> JudgeWeight * MinScore / ScoreScale <= s.judgeScore <= JudgeWeight)
      && s.finalScore == s.userScore + s.judgeScore
      && 0.0 <= s.finalScore <= LikeWeight + JudgeWeight
  {
    var xs := ScoresFor(evals, p.id);
    MeanBounds(xs, MinScore, MaxScore);
    var ratio := |p.likes| as real / maxLikes as real;
    assert 0.0 <= ratio <= 1.0 by {
      assert ratio * maxLikes as real == |p.likes| as real;
    }
  }

  /** The most liked post of a category gets the full 40 like points. */
  lemma MostLikedGetsFullLikeScore(posts: seq<Post>, i: nat, evals: seq<Evaluation>)
    requires i < |posts| && |posts[i].likes| > 0
    requires forall j :: 0 <= j < |posts| ==> |posts[j].likes| <= |posts[i].likes|
    ensures ScorePost(posts[i], MaxLikes(posts), evals).userScore == LikeWeight
  {
    var m := MaxLikes(posts);
    assert m == |posts[i].likes| by {
      if m != 1 {
        var k :| 0 <= k < |posts| && |posts[k].likes| == m;
      }
    }
    assert |posts[i].likes| as real / m as real == 1.0;
  }

  /** No division by zero: when no post of the category has a like, every like score is 0. */
  lemma NoLikesGiveZeroLikeScore(posts: seq<Post>, evals: seq<Evaluation>, category: string)
    requires forall p :: p in posts && p.category == category ==> |p.likes| == 0
    ensures forall s :: s in Ranked(posts, evals, category) ==> s.userScore == 0.0
  {
    var inCategory := CategoryPosts(posts, category);
    var scored := ScoreAll(inCategory, MaxLikes(inCategory), evals);
    var ranked := Ranked(posts, evals, category);
    SortDescMembers(scored, FinalScoreOf);
    forall s | s in ranked ensures s.userScore == 0.0 {
      var k :| 0 <= k < |ranked| && ranked[k] == s;
      assert s in scored;
      var i :| 0 <= i < |scored| && scored[i] == s;
      var p := inCategory[i];
      assert p in inCategory;
      assert |p.likes| == 0;
    }
  }

  /**
   * Before the cut, a category's ranking lists every post of the category exactly
   * once, sorted by non-increasing final score.
   */
  lemma RankedIsSortedPermutation(posts: seq<Post>, evals: seq<Evaluation>, category: string)
    ensures SortedDesc(Ranked(posts, evals, category), FinalScoreOf)
    ensures multiset(MapSeq(Ranked(posts, evals, category), PostOf)) == multiset(CategoryPosts(posts, category))
  {
    var inCategory := CategoryPosts(posts, category);
    var scored := ScoreAll(inCategory, MaxLikes(inCategory), evals);
    MapSortDesc(scored, FinalScoreOf, PostOf);
    assert MapSeq(scored, PostOf) == inCategory;
  }

  /**
   * A category's `top10` holds min(10, posts in the category) entries, all of the
   * category, sorted non-increasing, and no post left out scores higher than one kept.
   */
  lemma RankCategoryTopTen(posts: seq<Post>, evals: seq<Evaluation>, category: string)
    ensures |RankCategory(posts, evals, category)| == Min(|CategoryPosts(posts, category)|, TopCount)
    ensures SortedDesc(RankCategory(posts, evals, category), FinalScoreOf)
    ensures forall s :: s in RankCategory(posts, evals, category) ==> s.post in posts && s.post.category == category
    ensures var top := RankCategory(posts, evals, category);
            var all := Ranked(posts, evals, category);
            forall i, j :: 0 <= i < |top| <= j < |all| ==> top[i].finalScore >= all[j].finalScore
  {
    var inCategory := CategoryPosts(posts, category);
    var scored := ScoreAll(inCategory, MaxLikes(inCategory), evals);
    var all := Ranked(posts, evals, category);
    var top := RankCategory(posts, evals, category);
    TakeKeepsLargest(all, FinalScoreOf, TopCount);
    SortDescMembers(scored, FinalScoreOf);
    forall s | s in top ensures s.post in posts && s.post.category == category {
      var k :| 0 <= k < |top| && top[k] == s;
      assert s == all[k];
      assert s in scored;
      var i :| 0 <= i < |scored| && scored[i] == s;
      assert inCategory[i] in inCategory;
    }
  }

  /** With stored evaluations (scores 1..10), every final score of a leaderboard lies in [0, 100]. */
  lemma RankCategoryScoreBounds(posts: seq<Post>, evals: seq<Evaluation>, category: string)
    requires forall i :: 0 <= i < |evals| ==> EvaluationValid(evals[i])
    ensures forall s :: s in RankCategory(posts, evals, category) ==>
      && 0.0 <= s.userScore <= LikeWeight
      && 0.0 <= s.judgeScore <= JudgeWeight
      && s.finalScore == s.userScore + s.judgeScore
      && 0.0 <= s.finalScore <= LikeWeight + JudgeWeight
  {
    var inCategory := CategoryPosts(posts, category);
    var m := MaxLikes(inCategory);
    var scored := ScoreAll(inCategory, m, evals);
    SortDescMembers(scored, FinalScoreOf);
    forall s | s in RankCategory(posts, evals, category)
      ensures 0.0 <= s.userScore <= LikeWeight && 0.0 <= s.judgeScore <= JudgeWeight
      ensures s.finalScore == s.userScore + s.judgeScore && 0.0 <= s.finalScore <= LikeWeight + JudgeWeight
    {
      var top := RankCategory(posts, evals, category);
      var k :| 0 <= k < |top| && top[k] == s;
      assert s == Ranked(posts, evals, category)[k];
      assert s in scored;
      var i :| 0 <= i < |scored| && scored[i] == s;
      ScorePostBounds(inCategory[i], m, evals);
    }
  }

  // --------------------------------------------------------- getUserRankings

  /** The grouping key of `getUserRankings`: `_id: '$user'`. */
  const RankingGroupPath: EvaluationPath := UserPath

  /** One output document of the `$group` stage. */
  datatype RankingRow = RankingRow(key: Option<Id>, averageScore: real, totalScore: real)

  function AverageOf(r: RankingRow): real { r.averageScore }

  function ScoreOf(e: Evaluation): real { e.score }

  /** The distinct values of field `path`, in order of first appearance. */
  function GroupKeys(evals: seq<Evaluation>, path: EvaluationPath): (ks: seq<Option<Id>>)
    ensures NoDuplicates(ks)
    ensures forall i :: 0 <= i < |evals| ==> EvaluationField(evals[i], path) in ks
    ensures forall k :: k in ks ==> exists i :: 0 <= i < |evals| && EvaluationField(evals[i], path) == k
  {
    if evals == [] then []
    else
      var init := evals[..|evals| - 1];
      var ks := GroupKeys(init, path);
      var k := EvaluationField(evals[|evals| - 1], path);
      assert forall i :: 0 <= i < |init| ==> evals[i] == init[i];
      if k in ks then ks else ks + [k]
  }

  function GroupRow(evals: seq<Evaluation>, path: EvaluationPath, key: Option<Id>): RankingRow
  {
    var scores := ScoresWith(evals, path, key);
    RankingRow(key, Mean(scores), Sum(scores))
  }

  /** `$group` by `path` with `$avg` and `$sum` of the score, then `$sort: { averageScore: -1 }`. */
  function Aggregate(evals: seq<Evaluation>, path: EvaluationPath): seq<RankingRow>
  {
    SortDesc(MapSeq(GroupKeys(evals, path), (k: Option<Id>) => GroupRow(evals, path, k)), AverageOf)
  }

  /** The response of `getUserRankings`. */
  function UserRankings(evals: seq<Evaluation>): seq<RankingRow>
  {
    Aggregate(evals, RankingGroupPath)
  }

  /** A key that occurs has a non-empty group. */
  lemma {:induction false} ScoresWithNonEmpty(evals: seq<Evaluation>, path: EvaluationPath, i: nat)
    requires i < |evals|
    ensures ScoresWith(evals, path, EvaluationField(evals[i], path)) != []
  {
    if i > 0 {
      ScoresWithNonEmpty(evals[1..], path, i - 1);
    }
  }

  /** The row of a non-empty group: its sum, and its mean. */
  lemma {:induction false} GroupRowFacts(evals: seq<Evaluation>, path: EvaluationPath, key: Option<Id>)
    requires ScoresWith(evals, path, key) != []
    ensures var r := GroupRow(evals, path, key);
      && r.key == key
      && r.totalScore == Sum(ScoresWith(evals, path, key))
      && r.averageScore * |ScoresWith(evals, path, key)| as real == r.totalScore
  {
    MeanTimesCount(ScoresWith(evals, path, key));
  }

  lemma KeyHasGroup(evals: seq<Evaluation>, path: EvaluationPath, key: Option<Id>)
    requires key in GroupKeys(evals, path)
    ensures ScoresWith(evals, path, key) != []
  {
    var j :| 0 <= j < |evals| && EvaluationField(evals[j], path) == key;
    ScoresWithNonEmpty(evals, path, j);
  }

  lemma MeanTimesCount(xs: seq<real>)
    requires xs != []
    ensures Mean(xs) * |xs| as real == Sum(xs)
  {
    var n := |xs| as real;
    var total := Sum(xs);
    assert Mean(xs) == total / n;
    QuotientTimesDivisor(total, n);
  }

  lemma QuotientTimesDivisor(a: real, b: real)
    requires b != 0.0
    ensures (a / b) * b == a
  {
  }

  /**
   * The rows of an aggregation are the groups of the distinct keys, one row per key,
   * none of them empty, sorted by non-increasing average (each row's sum and mean:
   * GroupRowFacts).
   */
  lemma AggregateRows(evals: seq<Evaluation>, path: EvaluationPath)
    ensures SortedDesc(Aggregate(evals, path), AverageOf)
    ensures |Aggregate(evals, path)| == |GroupKeys(evals, path)|
    ensures forall r :: r in Aggregate(evals, path) ==>
      && r.key in GroupKeys(evals, path)
      && ScoresWith(evals, path, r.key) != []
      && r == GroupRow(evals, path, r.key)
    ensures forall k :: k in GroupKeys(evals, path) ==> GroupRow(evals, path, k) in Aggregate(evals, path)
  {
    var ks := GroupKeys(evals, path);
    var rows := MapSeq(ks, (k: Option<Id>) => GroupRow(evals, path, k));
    var sorted := Aggregate(evals, path);
    SortDescMembers(rows, AverageOf);
    forall r | r in sorted
      ensures r.key in ks && ScoresWith(evals, path, r.key) != [] && r == GroupRow(evals, path, r.key)
    {
      var m :| 0 <= m < |sorted| && sorted[m] == r;
      assert r in rows;
      var i :| 0 <= i < |rows| && rows[i] == r;
      assert ks[i] in ks;
      KeyHasGroup(evals, path, ks[i]);
    }
    forall k | k in ks ensures GroupRow(evals, path, k) in sorted {
      var i :| 0 <= i < |ks| && ks[i] == k;
      assert rows[i] == GroupRow(evals, path, k);
    }
  }

  /** No Evaluation has a `user` field, so every evaluation's key is null. */
  lemma {:induction false} UserGroupHoldsEverything(evals: seq<Evaluation>)
    ensures ScoresWith(evals, RankingGroupPath, None) == MapSeq(evals, ScoreOf)
    ensures evals != [] ==> GroupKeys(evals, RankingGroupPath) == [None]
  {
    if evals != [] {
      UserGroupHoldsEverything(evals[1..]);
      var init := evals[..|evals| - 1];
      UserGroupHoldsEverything(init);
      assert MapSeq(evals, ScoreOf)
          == [evals[0].score] + MapSeq(evals[1..], ScoreOf);
    }
  }

  /**
   * `getUserRankings` as written: the `$user` key matches no Evaluation field, so the
   * result is a single row with key null, the total and the mean of ALL scores; no
   * evaluations give no row.
   */
  lemma UserRankingsIsOneGroup(evals: seq<Evaluation>)
    ensures evals == [] ==> UserRankings(evals) == []
    ensures evals != [] ==>
      var all := MapSeq(evals, ScoreOf);
      UserRankings(evals) == [RankingRow(None, Sum(all) / |evals| as real, Sum(all))]
  {
    UserGroupHoldsEverything(evals);
    if evals != [] {
      var row := GroupRow(evals, RankingGroupPath, None);
      assert MapSeq([None], (k: Option<Id>) => GroupRow(evals, RankingGroupPath, k)) == [row];
    }
  }
}
