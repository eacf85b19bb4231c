/**
 * The scoring engine: a weighted sum of the statistics with capped terms
 * and two tiered bonuses, rounded half up to an integer and mapped onto a
 * grade. The sum is computed in exact reals.
 */
module Scoring {
  import opened Stats
  import opened Grades

  function Min(a: real, b: real): real {
    if a <= b then a else b
  }

  /** 0.1 point per commit, at most 300. */
  function CommitTerm(commits: nat): (t: real)
    ensures 0.0 <= t <= 300.0
  {
    Min(commits as real * 0.1, 300.0)
  }

  /** 0.05 point per issue, at most 50. */
  function IssueTerm(issues: nat): (t: real)
    ensures 0.0 <= t <= 50.0
  {
    Min(issues as real * 0.05, 50.0)
  }

  /** 0.1 point per pull request, at most 50. */
  function PullRequestTerm(pullRequests: nat): (t: real)
    ensures 0.0 <= t <= 50.0
  {
    Min(pullRequests as real * 0.1, 50.0)
  }

  /** One point per average commit per repository, at most 50. */
  function AverageCommitsTerm(average: NonNeg): (t: real)
    ensures 0.0 <= t <= 50.0
  {
    Min(average, 50.0) * 1.0
  }

  /** Two points per average star per repository, at most 100. */
  function StarsPerRepoTerm(starsPerRepo: NonNeg): (t: real)
    ensures 0.0 <= t <= 100.0
  {
    Min(starsPerRepo * 2.0, 100.0)
  }

  /** A percentage divided by ten, at most 10: used for the issue close rate and the PR merge rate. */
  function RateTerm(rate: NonNeg): (t: real)
    ensures 0.0 <= t <= 10.0
  {
    Min(rate / 10.0, 10.0)
  }

  /** Five points per year active (a year is 365 days), at most 25; nothing for zero days. */
  function ActivityTerm(daysActive: nat): (t: real)
    ensures 0.0 <= t <= 25.0
    ensures daysActive == 0 ==> t == 0.0
  {
    if daysActive > 0 then
      var yearsActive := daysActive as real / 365.0;
      Min(yearsActive * 5.0, 25.0)
    else 0.0
  }

  /** A bonus tier: reaching `threshold` earns `bonus`. */
  datatype Tier = Tier(threshold: real, bonus: nat)

  /** The high-stars-per-repository bonus tiers. */
  const STARS_PER_REPO_TIERS: seq<Tier> :=
    [Tier(100.0, 200), Tier(50.0, 100), Tier(20.0, 50), Tier(10.0, 20)]

  /** The total-stars bonus tiers. */
  const TOTAL_STARS_TIERS: seq<Tier> :=
    [Tier(10000.0, 2000), Tier(5000.0, 1000), Tier(1000.0, 500), Tier(500.0, 200), Tier(100.0, 50)]

  /**
   * `b` is the bonus of the best tier that `x` reaches, or 0 when it reaches
   * none: tiers do not add up.
   */
  ghost predicate IsHighestTier(tiers: seq<Tier>, x: real, b: nat) {
    && (forall k :: 0 <= k < |tiers| && tiers[k].threshold <= x ==> tiers[k].bonus <= b)
    && (b == 0 || exists k :: 0 <= k < |tiers| && tiers[k].threshold <= x && tiers[k].bonus == b)
  }

  /** The high-stars-per-repository bonus, as `calculateRating`'s if-else chain. */
  function StarsPerRepoBonus(starsPerRepo: real): (b: nat)
    ensures b in {0, 20, 50, 100, 200}
    ensures IsHighestTier(STARS_PER_REPO_TIERS, starsPerRepo, b)
  {
    var tiers := STARS_PER_REPO_TIERS;
    if starsPerRepo >= 100.0 then assert tiers[0].bonus == 200; 200
    else if starsPerRepo >= 50.0 then assert tiers[1].bonus == 100; 100
    else if starsPerRepo >= 20.0 then assert tiers[2].bonus == 50; 50
    else if starsPerRepo >= 10.0 then assert tiers[3].bonus == 20; 20
    else 0
  }

  /** The total-stars bonus, as `calculateRating`'s if-else chain. */
  function TotalStarsBonus(stars: nat): (b: nat)
    ensures b in {0, 50, 200, 500, 1000, 2000}
    ensures IsHighestTier(TOTAL_STARS_TIERS, stars as real, b)
  {
    var tiers := TOTAL_STARS_TIERS;
    if stars >= 10000 then assert tiers[0].bonus == 2000; 2000
    else if stars >= 5000 then assert tiers[1].bonus == 1000; 1000
    else if stars >= 1000 then assert tiers[2].bonus == 500; 500
    else if stars >= 500 then assert tiers[3].bonus == 200; 200
    else if stars >= 100 then assert tiers[4].bonus == 50; 50
    else 0
  }

  /** The unrounded weighted sum. `score` and `grade` of the record do not enter it. */
  function RawScore(s: GitHubStats): real {
    s.repositories as real * 1.0
    + s.stars as real * 0.5
    + CommitTerm(s.commits)
    + IssueTerm(s.issues)
    + PullRequestTerm(s.pullRequests)
    + s.followers as real * 0.3
    + s.contributedTo as real * 2.0
    + s.forked as real * 0.2
    + StarsPerRepoBonus(s.starsPerRepo) as real
    + TotalStarsBonus(s.stars) as real
    + AverageCommitsTerm(s.averageCommitsPerRepo)
    + StarsPerRepoTerm(s.starsPerRepo)
    + RateTerm(s.issueCloseRate)
    + RateTerm(s.prMergeRate)
    + ActivityTerm(s.daysActive)
  }

  /** Rounding to the nearest integer with halves going up: the integer within half a unit below or at `x`. */
  function Round(x: real): (r: int)
    ensures r as real - 0.5 <= x < r as real + 0.5
    ensures x >= 0.0 ==> r >= 0
  {
    (x + 0.5).Floor
  }

  /** The score of a record: the rounded weighted sum. It is a non-negative integer. */
  function ScoreOf(s: GitHubStats): (r: int)
    ensures r >= 0
    ensures r as real - 0.5 <= RawScore(s) < r as real + 0.5
  {
    Round(RawScore(s))
  }

  /** The grade a record earns: the label of the highest tier its score reaches. */
  function GradeOf(s: GitHubStats): (g: string)
    ensures IsLabel(g) && g != ""
    ensures g == GRADE_RANGES[TierIndex(ScoreOf(s))].grade
  {
    TableShape();
    GRADE_RANGES[TierIndex(ScoreOf(s))].grade
  }

  /**
   * The rating step: add the terms one by one, round, store the score, then
   * pick the grade by the descending scan. Rating a rated record again
   * changes nothing.
   */
  method CalculateRating(stats: GitHubStats) returns (rated: GitHubStats)
    ensures rated == stats.(score := ScoreOf(stats), grade := GradeOf(stats))
    ensures rated.score >= 0 && IsLabel(rated.grade)
    ensures ScoreOf(rated) == rated.score && GradeOf(rated) == rated.grade
  {
    var score: real := 0.0;
    score := score + stats.repositories as real * 1.0;
    score := score + stats.stars as real * 0.5;
    score := score + CommitTerm(stats.commits);
    score := score + IssueTerm(stats.issues);
    score := score + PullRequestTerm(stats.pullRequests);
    score := score + stats.followers as real * 0.3;
    score := score + stats.contributedTo as real * 2.0;
    score := score + stats.forked as real * 0.2;
    var highStarRepoBonus := StarsPerRepoBonus(stats.starsPerRepo);
    score := score + highStarRepoBonus as real;
    score := score + TotalStarsBonus(stats.stars) as real;
    score := score + AverageCommitsTerm(stats.averageCommitsPerRepo);
    score := score + StarsPerRepoTerm(stats.starsPerRepo);
    score := score + RateTerm(stats.issueCloseRate);
    score := score + RateTerm(stats.prMergeRate);
    score := score + ActivityTerm(stats.daysActive);
    var rounded := Round(score);
    rated := stats.(score := rounded);
    var grade := SelectGrade(rounded, stats.grade);
    rated := rated.(grade := grade);
    assert RawScore(rated) == RawScore(stats);
  }

  /** `t` is at least `s` in every field the score reads. */
  ghost predicate Dominates(t: GitHubStats, s: GitHubStats) {
    && s.repositories <= t.repositories
    && s.stars <= t.stars
    && s.commits <= t.commits
    && s.issues <= t.issues
    && s.pullRequests <= t.pullRequests
    && s.followers <= t.followers
    && s.contributedTo <= t.contributedTo
    && s.forked <= t.forked
    && s.starsPerRepo <= t.starsPerRepo
    && s.averageCommitsPerRepo <= t.averageCommitsPerRepo
    && s.issueCloseRate <= t.issueCloseRate
    && s.prMergeRate <= t.prMergeRate
    && s.daysActive <= t.daysActive
  }

  lemma RoundMonotone(x: real, y: real)
    requires x <= y
    ensures Round(x) <= Round(y)
  {
  }

  lemma RawScoreMonotone(s: GitHubStats, t: GitHubStats)
    requires Dominates(t, s)
    ensures RawScore(s) <= RawScore(t)
  {
    assert CommitTerm(s.commits) <= CommitTerm(t.commits);
    assert IssueTerm(s.issues) <= IssueTerm(t.issues);
    assert PullRequestTerm(s.pullRequests) <= PullRequestTerm(t.pullRequests);
    assert StarsPerRepoBonus(s.starsPerRepo) <= StarsPerRepoBonus(t.starsPerRepo);
    assert TotalStarsBonus(s.stars) <= TotalStarsBonus(t.stars);
    assert AverageCommitsTerm(s.averageCommitsPerRepo) <= AverageCommitsTerm(t.averageCommitsPerRepo);
    assert StarsPerRepoTerm(s.starsPerRepo) <= StarsPerRepoTerm(t.starsPerRepo);
    assert RateTerm(s.issueCloseRate) <= RateTerm(t.issueCloseRate);
    assert RateTerm(s.prMergeRate) <= RateTerm(t.prMergeRate);
    assert ActivityTerm(s.daysActive) <= ActivityTerm(t.daysActive);
  }

  /**
   * The score is monotone: raising any counter or ratio it reads, one or
   * several at once, never lowers it, and never lowers the grade.
   */
  lemma ScoreMonotone(s: GitHubStats, t: GitHubStats)
    requires Dominates(t, s)
    ensures ScoreOf(s) <= ScoreOf(t)
    ensures TierIndex(ScoreOf(s)) <= TierIndex(ScoreOf(t))
  {
    RawScoreMonotone(s, t);
    RoundMonotone(RawScore(s), RawScore(t));
    TierMonotone(ScoreOf(s), ScoreOf(t));
  }

  /**
   * Each capped term contributes the same at its cap and one unit above it,
   * so the whole score is the same.
   */
  lemma CapBoundaries(s: GitHubStats)
    ensures ScoreOf(s.(commits := 3000)) == ScoreOf(s.(commits := 3001))
    ensures ScoreOf(s.(issues := 1000)) == ScoreOf(s.(issues := 1001))
    ensures ScoreOf(s.(pullRequests := 500)) == ScoreOf(s.(pullRequests := 501))
    ensures ScoreOf(s.(averageCommitsPerRepo := 50.0)) == ScoreOf(s.(averageCommitsPerRepo := 51.0))
    ensures ScoreOf(s.(starsPerRepo := 50.0)) == ScoreOf(s.(starsPerRepo := 51.0))
    ensures ScoreOf(s.(issueCloseRate := 100.0)) == ScoreOf(s.(issueCloseRate := 101.0))
    ensures ScoreOf(s.(prMergeRate := 100.0)) == ScoreOf(s.(prMergeRate := 101.0))
    ensures ScoreOf(s.(daysActive := 1825)) == ScoreOf(s.(daysActive := 1826))
  {
    assert RawScore(s.(commits := 3000)) == RawScore(s.(commits := 3001));
    assert RawScore(s.(issues := 1000)) == RawScore(s.(issues := 1001));
    assert RawScore(s.(pullRequests := 500)) == RawScore(s.(pullRequests := 501));
    assert RawScore(s.(averageCommitsPerRepo := 50.0)) == RawScore(s.(averageCommitsPerRepo := 51.0));
    assert RawScore(s.(starsPerRepo := 50.0)) == RawScore(s.(starsPerRepo := 51.0));
    assert RawScore(s.(issueCloseRate := 100.0)) == RawScore(s.(issueCloseRate := 101.0));
    assert RawScore(s.(prMergeRate := 100.0)) == RawScore(s.(prMergeRate := 101.0));
    assert RawScore(s.(daysActive := 1825)) == RawScore(s.(daysActive := 1826));
  }

  /** Past its cap a term is constant. */
  lemma TermsSaturate(commits: nat, issues: nat, pullRequests: nat, average: NonNeg,
                      starsPerRepo: NonNeg, rate: NonNeg, daysActive: nat)
    ensures commits >= 3000 ==> CommitTerm(commits) == 300.0
    ensures issues >= 1000 ==> IssueTerm(issues) == 50.0
    ensures pullRequests >= 500 ==> PullRequestTerm(pullRequests) == 50.0
    ensures average >= 50.0 ==> AverageCommitsTerm(average) == 50.0
    ensures starsPerRepo >= 50.0 ==> StarsPerRepoTerm(starsPerRepo) == 100.0
    ensures rate >= 100.0 ==> RateTerm(rate) == 10.0
    ensures daysActive >= 1825 ==> ActivityTerm(daysActive) == 25.0
  {
  }

  /** The record a run starts from scores 0 and is graded D-. */
  lemma InitialRecordScore()
    ensures ScoreOf(INITIAL_STATS) == 0 && GradeOf(INITIAL_STATS) == "D-"
  {
    assert RawScore(INITIAL_STATS) == 0.0;
  }

  /** A worked record: ten repositories, 1000 stars, 2000 commits, two years active. */
  const EXAMPLE_STATS: GitHubStats :=
    INITIAL_STATS.(repositories := 10, stars := 1000, commits := 2000, issues := 100,
                   pullRequests := 50, followers := 500, contributedTo := 20, forked := 10,
                   averageCommitsPerRepo := 200.0, starsPerRepo := 100.0,
                   issueCloseRate := 80.0, prMergeRate := 90.0, daysActive := 730)

  /**
   * The worked record earns both top bonus tiers it reaches (+200 per
   * repository, +500 total), a commit term of 200 (2000 commits stay under
   * the cap of 300), an issue term of 5 and an activity term of 10, for
   * 1789 points and grade S+.
   */
  lemma ExampleScore()
    ensures StarsPerRepoBonus(EXAMPLE_STATS.starsPerRepo) == 200
    ensures TotalStarsBonus(EXAMPLE_STATS.stars) == 500
    ensures CommitTerm(EXAMPLE_STATS.commits) == 200.0
    ensures IssueTerm(EXAMPLE_STATS.issues) == 5.0
    ensures ActivityTerm(EXAMPLE_STATS.daysActive) == 10.0
    ensures ScoreOf(EXAMPLE_STATS) == 1789
    ensures GradeOf(EXAMPLE_STATS) == "S+"
  {
    var e := EXAMPLE_STATS;
    assert AverageCommitsTerm(e.averageCommitsPerRepo) == 50.0;
    assert StarsPerRepoTerm(e.starsPerRepo) == 100.0;
    assert RateTerm(e.issueCloseRate) == 8.0 && RateTerm(e.prMergeRate) == 9.0;
    assert PullRequestTerm(e.pullRequests) == 5.0 && IssueTerm(e.issues) == 5.0;
    assert CommitTerm(e.commits) == 200.0;
    assert 730.0 / 365.0 == 2.0;
    assert ActivityTerm(e.daysActive) == 10.0;
    assert StarsPerRepoBonus(e.starsPerRepo) == 200 && TotalStarsBonus(e.stars) == 500;
    assert RawScore(e) == 1789.0;
    assert GRADE_RANGES[14].minScore <= 1789 < GRADE_RANGES[15].minScore;
  }
}
