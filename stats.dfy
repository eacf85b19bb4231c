/**
 * The statistics record the action builds for one account, and the
 * zero-guarded derived metrics computed from its totals.
 */
module Stats {
  import opened Wrappers

  /** Real numbers that are never negative: every ratio, rate and average of the record. */
  type NonNeg = r: real | r >= 0.0

  /** One entry of the language-count dictionary; the dictionary keeps its entries in insertion order. */
  datatype LangEntry = LangEntry(name: string, count: nat)

  /**
   * The account-level figures read from the profile before the repository
   * loop runs. Only their values matter here: how they are fetched is not
   * part of this model.
   */
  datatype Profile = Profile(followers: nat, following: nat, contributedTo: nat, contributions: NonNeg)

  /**
   * The statistics record. Timestamps are milliseconds since the epoch;
   * `oldestRepo` is `None` while no repository has been processed.
   */
  datatype GitHubStats = GitHubStats(
    stars: nat,
    commits: nat,
    issues: nat,
    pullRequests: nat,
    repositories: nat,
    followers: nat,
    following: nat,
    contributions: NonNeg,
    forked: nat,
    watchedBy: nat,
    contributedTo: nat,
    languages: seq<LangEntry>,
    topLanguage: string,
    oldestRepo: Option<int>,
    daysActive: nat,
    averageCommitsPerRepo: NonNeg,
    starsPerRepo: NonNeg,
    issueCloseRate: NonNeg,
    prMergeRate: NonNeg,
    grade: string,
    score: int)

  /** The record as created at the start of a run: all counters zero, no languages, the lowest grade. */
  const INITIAL_STATS: GitHubStats :=
    GitHubStats(0, 0, 0, 0, 0, 0, 0, 0.0, 0, 0, 0, [], "", None, 0, 0.0, 0.0, 0.0, 0.0, "D-", 0)

  /** The record after the profile step has filled in the account-level figures. */
  function WithProfile(s: GitHubStats, p: Profile): (r: GitHubStats)
    ensures r.followers == p.followers && r.following == p.following
    ensures r.contributedTo == p.contributedTo && r.contributions == p.contributions
    ensures r.stars == s.stars && r.commits == s.commits && r.repositories == s.repositories
  {
    s.(followers := p.followers, following := p.following,
       contributedTo := p.contributedTo, contributions := p.contributions)
  }

  /** `n / d` as a real, guarded so that a zero divisor gives 0 (per-repository averages). */
  function Ratio(n: nat, d: nat): (r: NonNeg)
    ensures d == 0 ==> r == 0.0
    ensures d > 0 ==> r * d as real == n as real
    ensures n <= d ==> r <= 1.0
  {
    if d > 0 then n as real / d as real else 0.0
  }

  /** `n / d * 100` as a real, guarded so that a zero total gives 0 (close and merge rates). */
  function Percent(n: nat, d: nat): (r: NonNeg)
    ensures d == 0 ==> r == 0.0
    ensures d > 0 ==> r * d as real == 100.0 * n as real
    ensures n <= d ==> r <= 100.0
  {
    if d > 0 then n as real / d as real * 100.0 else 0.0
  }

  /** Milliseconds in a day. */
  const MS_PER_DAY: nat := 1000 * 60 * 60 * 24

  /**
   * The whole number of days, rounded up, between two timestamps in
   * milliseconds, in either order: the least `d` with `d` days covering
   * the distance.
   */
  function CeilDays(now: int, since: int): (d: nat)
    ensures d * MS_PER_DAY >= Abs(now - since)
    ensures d > 0 ==> (d - 1) * MS_PER_DAY < Abs(now - since)
  {
    (Abs(now - since) + MS_PER_DAY - 1) / MS_PER_DAY
  }

  function Abs(x: int): nat {
    if x < 0 then -x else x
  }
}
