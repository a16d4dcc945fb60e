/** Worked leaderboards: the blend and the aggregation on small, concrete stores. */
module RankingExamples {
  import opened Common
  import opened Models
  import opened Ordering
  import opened Ranking

  function PostA(): Post { Post(1, 100, "A", None, None, "visual", [10, 11, 12, 13, 14, 15, 16, 17], 0, None) }
  function PostB(): Post { Post(2, 101, "B", None, None, "visual", [10, 11], 0, None) }

  /** Post A is scored 6 and 8 by two judges; post B has no evaluation. */
  function JudgeScoresAB(): seq<Evaluation>
  {
    [Evaluation(3, 1, 50, 6.0, None, 0), Evaluation(4, 1, 51, 8.0, None, 0)]
  }

  lemma ScoresAB()
    ensures ScoresFor(JudgeScoresAB(), 1) == [6.0, 8.0]
    ensures ScoresFor(JudgeScoresAB(), 2) == []
  {
    assert JudgeScoresAB()[1..] == [JudgeScoresAB()[1]];
  }

  lemma MeanOfSixAndEight()
    ensures Mean([6.0, 8.0]) == 7.0
  {
    assert [6.0, 8.0][1..] == [8.0];
  }

  lemma BothVisual()
    ensures CategoryPosts([PostA(), PostB()], "visual") == [PostA(), PostB()]
    ensures MaxLikes([PostA(), PostB()]) == 8
  {
    assert [PostA(), PostB()][1..] == [PostB()];
  }

  lemma ScoredA()
    ensures ScorePost(PostA(), 8, JudgeScoresAB()) == Scored(PostA(), 40.0, 42.0, 82.0)
  {
    ScoresAB();
    MeanOfSixAndEight();
  }

  lemma ScoredB()
    ensures ScorePost(PostB(), 8, JudgeScoresAB()) == Scored(PostB(), 10.0, 0.0, 10.0)
  {
    ScoresAB();
  }

  lemma ScoredAB()
    ensures ScoreAll([PostA(), PostB()], 8, JudgeScoresAB())
         == [Scored(PostA(), 40.0, 42.0, 82.0), Scored(PostB(), 10.0, 0.0, 10.0)]
  {
    ScoredA();
    ScoredB();
  }

  lemma SortedAB()
    ensures var s := [Scored(PostA(), 40.0, 42.0, 82.0), Scored(PostB(), 10.0, 0.0, 10.0)];
            SortDesc(s, FinalScoreOf) == s
  {
    var s := [Scored(PostA(), 40.0, 42.0, 82.0), Scored(PostB(), 10.0, 0.0, 10.0)];
    assert s[1..] == [s[1]];
    assert SortDesc(s[1..], FinalScoreOf) == [s[1]];
  }

  /**
   * Category "visual": A has 8 likes and judge scores 6 and 8, B has 2 likes and no
   * score. The most liked post sets maxLikes = 8, so A gets 40 + 42 = 82 and
   * B gets 10 + 0 = 10, in that order.
   */
  lemma BlendExample()
    ensures RankCategory([PostA(), PostB()], JudgeScoresAB(), "visual")
         == [Scored(PostA(), 40.0, 42.0, 82.0), Scored(PostB(), 10.0, 0.0, 10.0)]
  {
    BothVisual();
    ScoredAB();
    SortedAB();
  }

  /**
   * Three evaluations scored 5, 7 and 9: `getUserRankings` puts all of them in one
   * null-keyed row with total 21 and average 7, whoever owns the evaluated posts.
   */
  lemma AggregateExample()
    ensures UserRankings([Evaluation(1, 10, 50, 5.0, None, 0), Evaluation(2, 11, 50, 7.0, None, 0),
                          Evaluation(3, 11, 51, 9.0, None, 0)])
         == [RankingRow(None, 7.0, 21.0)]
  {
    var evals := [Evaluation(1, 10, 50, 5.0, None, 0), Evaluation(2, 11, 50, 7.0, None, 0),
                  Evaluation(3, 11, 51, 9.0, None, 0)];
    UserRankingsIsOneGroup(evals);
    ScoresOfExample(evals);
    assert 21.0 / 3.0 == 7.0;
  }

  lemma ScoresOfExample(evals: seq<Evaluation>)
    requires evals == [Evaluation(1, 10, 50, 5.0, None, 0), Evaluation(2, 11, 50, 7.0, None, 0),
                       Evaluation(3, 11, 51, 9.0, None, 0)]
    ensures Sum(MapSeq(evals, ScoreOf)) == 21.0
  {
    var all := MapSeq(evals, ScoreOf);
    assert all == [5.0, 7.0, 9.0];
    assert all[1..] == [7.0, 9.0] && all[1..][1..] == [9.0];
    assert Sum([9.0]) == 9.0;
    assert Sum([7.0, 9.0]) == 16.0;
  }
}
