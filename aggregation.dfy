/**
 * The aggregation loop: it walks the account's repositories in order,
 * fetches each one's five counters, adds them into the statistics record,
 * counts languages, tracks the oldest creation date and the closed/merged
 * running totals, then derives the averages and rates and rates the record.
 */
module Aggregation {
  import opened Wrappers
  import opened Stats
  import opened Fetchers
  import opened Scoring
  import opened Grades

  /** What the service answers, for one repository, to each query the loop makes. */
  datatype RemoteData = RemoteData(
    commitSearch: Option<nat>,
    commitPages: Pages<ListedCommit>,
    commitProbe: Option<seq<ListedCommit>>,
    issues: Listing<ListedIssue>,
    pulls: Listing<ListedPull>)

  /**
   * A listed repository. `createdAt` is in milliseconds since the epoch.
   * `remote` is `None` when processing the repository throws, in which case
   * it adds nothing to the record.
   */
  datatype Repo = Repo(
    owner: string,
    name: string,
    stars: nat,
    forks: nat,
    watchers: nat,
    language: Option<string>,
    createdAt: int,
    remote: Option<RemoteData>)

  /** The five counters of one repository, as its fetchers compute them. */
  datatype Metrics = Metrics(commits: nat, issues: nat, closedIssues: nat, prs: nat, mergedPRs: nat)

  function MetricsOf(d: RemoteData): Metrics {
    Metrics(
      FirstSuccess(CommitStrategies(d.commitSearch, d.commitPages, d.commitProbe), 0),
      PagedCount(d.issues.all, IsIssue, StopOnShortPage),
      PagedCount(d.issues.closed, IsIssue, StopOnShortPage),
      PagedCount(d.pulls.all, Every, StopOnShortPage),
      PagedCount(d.pulls.closed, IsMerged, StopOnShortPage))
  }

  /** The summed counters of a run. */
  datatype Tally = Tally(stars: nat, forks: nat, watchers: nat, commits: nat, issues: nat,
                         closedIssues: nat, prs: nat, mergedPRs: nat)

  const ZERO: Tally := Tally(0, 0, 0, 0, 0, 0, 0, 0)

  function Add(a: Tally, b: Tally): Tally {
    Tally(a.stars + b.stars, a.forks + b.forks, a.watchers + b.watchers, a.commits + b.commits,
          a.issues + b.issues, a.closedIssues + b.closedIssues, a.prs + b.prs, a.mergedPRs + b.mergedPRs)
  }

  /** What one repository adds: its own figures and its fetched counters, or nothing when it failed. */
  function Contribution(r: Repo): Tally {
    match r.remote
    case None => ZERO
    case Some(d) =>
      var m := MetricsOf(d);
      Tally(r.stars, r.forks, r.watchers, m.commits, m.issues, m.closedIssues, m.prs, m.mergedPRs)
  }

  /** The sum of the contributions of `rs`. */
  function Total(rs: seq<Repo>): Tally {
    if |rs| == 0 then ZERO else Add(Total(rs[..|rs| - 1]), Contribution(rs[|rs| - 1]))
  }

  /** The repositories whose processing succeeded. */
  function Successful(rs: seq<Repo>): (r: seq<Repo>)
    ensures forall x :: x in r <==> x in rs && x.remote.Some?
    ensures forall x :: multiset(r)[x] == (if x.remote.Some? then multiset(rs)[x] else 0)
  {
    if |rs| == 0 then []
    else
      assert rs == rs[..|rs| - 1] + [rs[|rs| - 1]];
      Successful(rs[..|rs| - 1]) + (if rs[|rs| - 1].remote.Some? then [rs[|rs| - 1]] else [])
  }

  /** Totals split over a concatenation. */
  lemma {:induction false} TotalConcat(a: seq<Repo>, b: seq<Repo>)
    ensures Total(a + b) == Add(Total(a), Total(b))
  {
    if |b| == 0 {
      assert a + b == a;
      AddZero(Total(a));
    } else {
      var init := b[..|b| - 1];
      var last := b[|b| - 1];
      assert (a + b)[..|a + b| - 1] == a + init;
      assert (a + b)[|a + b| - 1] == last;
      TotalConcat(a, init);
      AddAssociative(Total(a), Total(init), Contribution(last));
    }
  }

  lemma AddZero(x: Tally)
    ensures Add(x, ZERO) == x && Add(ZERO, x) == x
  {
  }

  lemma AddAssociative(x: Tally, y: Tally, z: Tally)
    ensures Add(Add(x, y), z) == Add(x, Add(y, z))
  {
  }

  lemma AddCommutative(x: Tally, y: Tally)
    ensures Add(x, y) == Add(y, x)
  {
  }

  /** The totals do not depend on the order the repositories are processed in: any permutation gives the same totals. */
  lemma {:induction false} TotalOrderIndependent(a: seq<Repo>, b: seq<Repo>)
    requires multiset(a) == multiset(b)
    ensures Total(a) == Total(b)
    decreases |a|
  {
    if |a| == 0 {
      assert |b| == |multiset(b)| == 0;
    } else {
      var init, last := a[..|a| - 1], a[|a| - 1];
      assert a == init + [last];
      assert last in multiset(b);
      var k :| 0 <= k < |b| && b[k] == last;
      var front, back := b[..k], b[k + 1..];
      assert b == front + [last] + back;
      RemoveOne(init, front, back, last);
      TotalOrderIndependent(init, front + back);
      TotalRemove(front, last, back);
    }
  }

  /** Taking the same repository out of two permutations of each other leaves permutations. */
  lemma RemoveOne(init: seq<Repo>, front: seq<Repo>, back: seq<Repo>, last: Repo)
    requires multiset(init + [last]) == multiset(front + [last] + back)
    ensures multiset(init) == multiset(front + back)
  {
    var kept, rest := multiset(init), multiset(front + back);
    assert multiset(init + [last]) == kept + multiset{last};
    assert multiset(front + [last] + back) == rest + multiset{last};
    forall x
      ensures kept[x] == rest[x]
    {
      assert (kept + multiset{last})[x] == (rest + multiset{last})[x];
    }
  }

  /** One repository in the middle contributes as if it came last. */
  lemma TotalRemove(front: seq<Repo>, last: Repo, back: seq<Repo>)
    ensures Total(front + [last] + back) == Add(Total(front + back), Contribution(last))
  {
    TotalConcat(front + [last], back);
    TotalConcat(front, [last]);
    TotalSingleton(last);
    TotalConcat(front, back);
    AddAssociative(Total(front), Contribution(last), Total(back));
    AddCommutative(Contribution(last), Total(back));
    AddAssociative(Total(front), Total(back), Contribution(last));
  }

  /** The totals are the sums over the successful repositories alone. */
  lemma {:induction false} FailuresAddNothing(rs: seq<Repo>)
    ensures Total(rs) == Total(Successful(rs))
  {
    if |rs| > 0 {
      var init := rs[..|rs| - 1];
      var last := rs[|rs| - 1];
      FailuresAddNothing(init);
      assert Total(rs) == Add(Total(init), Contribution(last));
      if last.remote.Some? {
        assert Successful(rs) == Successful(init) + [last];
        TotalConcat(Successful(init), [last]);
        TotalSingleton(last);
      } else {
        assert Successful(rs) == Successful(init) + [];
        assert Successful(init) + [] == Successful(init);
        AddZero(Total(init));
      }
    }
  }

  lemma TotalSingleton(r: Repo)
    ensures Total([r]) == Contribution(r)
  {
    assert [r][..0] == [];
    AddZero(Contribution(r));
  }

  // ---------------------------------------------------------------------
  // Languages

  /** Whether a processed repository counts towards language `l`; an empty language name counts as none. */
  predicate UsesLanguage(r: Repo, l: string) {
    r.remote.Some? && r.language.Some? && r.language.value != "" && r.language.value == l
  }

  /** The number of processed repositories whose language is `l`. */
  function Occurrences(rs: seq<Repo>, l: string): nat {
    if |rs| == 0 then 0
    else Occurrences(rs[..|rs| - 1], l) + (if UsesLanguage(rs[|rs| - 1], l) then 1 else 0)
  }

  /** The index of the first repository using `l`, or `|rs|` when none does. */
  function FirstUse(rs: seq<Repo>, l: string): (k: nat)
    ensures k <= |rs|
    ensures k < |rs| ==> UsesLanguage(rs[k], l)
    ensures forall j :: 0 <= j < k ==> !UsesLanguage(rs[j], l)
  {
    if |rs| == 0 then 0
    else if UsesLanguage(rs[0], l) then 0
    else
      var k := FirstUse(rs[1..], l);
      assert forall j :: 1 <= j < |rs| ==> rs[1..][j - 1] == rs[j];
      1 + k
  }

  /** The position of the entry for `l` in the dictionary. */
  function IndexOf(entries: seq<LangEntry>, l: string): (k: Option<nat>)
    ensures k.Some? ==> k.value < |entries| && entries[k.value].name == l
    ensures k.Some? ==> forall j :: 0 <= j < k.value ==> entries[j].name != l
    ensures k.None? ==> forall j :: 0 <= j < |entries| ==> entries[j].name != l
  {
    if |entries| == 0 then None
    else if entries[0].name == l then Some(0)
    else match IndexOf(entries[1..], l)
      case None => None
      case Some(k) => Some(k + 1)
  }

  /** The count the dictionary holds for `l`; a missing key reads as 0. */
  function CountOf(entries: seq<LangEntry>, l: string): nat {
    match IndexOf(entries, l)
    case None => 0
    case Some(k) => entries[k].count
  }

  /** No name occurs twice. */
  ghost predicate DistinctNames(entries: seq<LangEntry>) {
    forall i, j :: 0 <= i < j < |entries| ==> entries[i].name != entries[j].name
  }

  /** `languageCounts[l]++`, creating the key at the end with 0 first when it is missing. */
  function Bump(entries: seq<LangEntry>, l: string): (r: seq<LangEntry>)
    ensures IndexOf(entries, l).None? ==> r == entries + [LangEntry(l, 1)]
    ensures IndexOf(entries, l).Some? ==>
              |r| == |entries| && forall j :: 0 <= j < |r| ==> r[j].name == entries[j].name
  {
    match IndexOf(entries, l)
    case None => entries + [LangEntry(l, 1)]
    case Some(k) => entries[k := LangEntry(l, entries[k].count + 1)]
  }

  /** Bumping `l` adds one to its count, leaves every other count alone and keeps the names distinct. */
  lemma BumpCounts(entries: seq<LangEntry>, l: string)
    requires DistinctNames(entries)
    ensures DistinctNames(Bump(entries, l))
    ensures CountOf(Bump(entries, l), l) == CountOf(entries, l) + 1
    ensures forall m :: m != l ==> CountOf(Bump(entries, l), m) == CountOf(entries, m)
    ensures (forall j :: 0 <= j < |entries| ==> entries[j].count > 0) ==>
              forall j :: 0 <= j < |Bump(entries, l)| ==> Bump(entries, l)[j].count > 0
  {
    var r := Bump(entries, l);
    match IndexOf(entries, l) {
      case None =>
        assert r[|entries|].name == l;
        assert IndexOf(r, l) == Some(|entries|);
      case Some(k) =>
        assert r[k].name == l;
        assert IndexOf(r, l) == Some(k);
    }
    forall m | m != l ensures CountOf(r, m) == CountOf(entries, m) {
      match IndexOf(entries, m) {
        case None =>
          assert IndexOf(r, m).None?;
        case Some(k) =>
          assert r[k].name == m;
          assert IndexOf(r, m) == Some(k);
      }
    }
  }

  /** The language dictionary after processing `rs`, in insertion order. */
  function LanguageCounts(rs: seq<Repo>): seq<LangEntry> {
    if |rs| == 0 then []
    else
      var init := LanguageCounts(rs[..|rs| - 1]);
      var last := rs[|rs| - 1];
      if last.remote.Some? && last.language.Some? && last.language.value != "" then Bump(init, last.language.value)
      else init
  }

  /**
   * The dictionary is exact: one entry per language used, holding the
   * number of processed repositories with that language.
   */
  lemma {:induction false} LanguageCountsExact(rs: seq<Repo>)
    ensures DistinctNames(LanguageCounts(rs))
    ensures forall l :: CountOf(LanguageCounts(rs), l) == Occurrences(rs, l)
    ensures forall k :: 0 <= k < |LanguageCounts(rs)| ==> LanguageCounts(rs)[k].count > 0
  {
    if |rs| > 0 {
      var init := rs[..|rs| - 1];
      var last := rs[|rs| - 1];
      LanguageCountsExact(init);
      var before := LanguageCounts(init);
      var after := LanguageCounts(rs);
      if last.remote.Some? && last.language.Some? && last.language.value != "" {
        var l := last.language.value;
        BumpCounts(before, l);
        forall m ensures CountOf(after, m) == Occurrences(rs, m) {
          assert UsesLanguage(last, m) <==> m == l;
        }
      } else {
        forall m ensures CountOf(after, m) == Occurrences(rs, m) {
          assert !UsesLanguage(last, m);
        }
      }
    }
  }

  /** The entries stand in the order in which their languages were first met. */
  lemma {:induction false} LanguageCountsOrdered(rs: seq<Repo>)
    ensures forall k :: 0 <= k < |LanguageCounts(rs)| ==> FirstUse(rs, LanguageCounts(rs)[k].name) < |rs|
    ensures forall i, j :: 0 <= i < j < |LanguageCounts(rs)| ==>
              FirstUse(rs, LanguageCounts(rs)[i].name) < FirstUse(rs, LanguageCounts(rs)[j].name)
  {
    if |rs| > 0 {
      var init := rs[..|rs| - 1];
      var last := rs[|rs| - 1];
      LanguageCountsOrdered(init);
      var before := LanguageCounts(init);
      var after := LanguageCounts(rs);
      assert forall j :: 0 <= j < |init| ==> rs[j] == init[j];
      // A language already in the dictionary keeps its first use.
      forall k | 0 <= k < |before|
        ensures FirstUse(rs, before[k].name) == FirstUse(init, before[k].name)
      {
        var f := FirstUse(init, before[k].name);
        assert UsesLanguage(rs[f], before[k].name);
      }
      if last.remote.Some? && last.language.Some? && last.language.value != "" {
        var l := last.language.value;
        if IndexOf(before, l).None? {
          LanguageCountsExact(init);
          assert CountOf(before, l) == 0;
          assert FirstUse(rs, l) == |init| by {
            forall j | 0 <= j < |init| ensures !UsesLanguage(rs[j], l) {
              if UsesLanguage(init[j], l) {
                UsesImpliesOccurs(init, j, l);
              }
            }
          }
          assert after == before + [LangEntry(l, 1)];
        }
      }
    }
  }

  /** A repository using `l` makes its count positive. */
  lemma {:induction false} UsesImpliesOccurs(rs: seq<Repo>, j: nat, l: string)
    requires j < |rs| && UsesLanguage(rs[j], l)
    ensures Occurrences(rs, l) > 0
  {
    if j < |rs| - 1 {
      UsesImpliesOccurs(rs[..|rs| - 1], j, l);
    }
  }

  /** Entry `k` holds a positive count that no entry exceeds and that every earlier entry falls short of. */
  ghost predicate IsFirstMax(entries: seq<LangEntry>, k: int) {
    && 0 <= k < |entries|
    && entries[k].count > 0
    && (forall j :: 0 <= j < |entries| ==> entries[j].count <= entries[k].count)
    && (forall j :: 0 <= j < k ==> entries[j].count < entries[k].count)
  }

  /** The top language: the first entry with the largest count, or "" when no count is positive. */
  ghost predicate IsTopLanguage(entries: seq<LangEntry>, top: string) {
    && ((forall j :: 0 <= j < |entries| ==> entries[j].count == 0) ==> top == "")
    && ((exists j :: 0 <= j < |entries| && entries[j].count > 0) ==>
          exists k :: IsFirstMax(entries, k) && entries[k].name == top)
  }

  /** The scan over the dictionary in insertion order with a strict comparison, starting from a maximum of 0. */
  method TopLanguage(entries: seq<LangEntry>) returns (top: string)
    ensures IsTopLanguage(entries, top)
  {
    top := "";
    var maxCount := 0;
    ghost var best := -1;
    for i := 0 to |entries|
      invariant maxCount == 0 ==> top == "" && forall j :: 0 <= j < i ==> entries[j].count == 0
      invariant maxCount > 0 ==> 0 <= best < i && entries[best].name == top && entries[best].count == maxCount
      invariant maxCount > 0 ==> forall j :: 0 <= j < best ==> entries[j].count < maxCount
      invariant forall j :: 0 <= j < i ==> entries[j].count <= maxCount
    {
      if entries[i].count > maxCount {
        maxCount := entries[i].count;
        top := entries[i].name;
        best := i;
      }
    }
    assert maxCount > 0 ==> IsFirstMax(entries, best);
  }

  // ---------------------------------------------------------------------
  // Oldest repository

  /** The earliest creation date among the processed repositories, `None` when none was processed. */
  function Oldest(rs: seq<Repo>): (o: Option<int>)
    ensures o.None? <==> forall i :: 0 <= i < |rs| ==> rs[i].remote.None?
    ensures o.Some? ==> exists i :: 0 <= i < |rs| && rs[i].remote.Some? && rs[i].createdAt == o.value
    ensures o.Some? ==> forall i :: 0 <= i < |rs| && rs[i].remote.Some? ==> o.value <= rs[i].createdAt
  {
    if |rs| == 0 then None
    else
      var prev := Oldest(rs[..|rs| - 1]);
      var last := rs[|rs| - 1];
      assert forall i :: 0 <= i < |rs| - 1 ==> rs[..|rs| - 1][i] == rs[i];
      if last.remote.None? then prev
      else if prev.None? || last.createdAt < prev.value then Some(last.createdAt)
      else prev
  }

  // ---------------------------------------------------------------------
  // The loop

  /** The record before the loop: the profile figures, the repository count, everything else at its default. */
  function StartRecord(profile: Profile, repositories: nat): GitHubStats {
    WithProfile(INITIAL_STATS, profile).(repositories := repositories)
  }

  /**
   * With no repositories the only terms left of the record this run rates
   * are the account-level ones: followers and repositories contributed to.
   */
  lemma NoRepositoriesScore(p: Profile)
    ensures ScoreOf(StartRecord(p, 0)) == Round(p.followers as real * 0.3 + p.contributedTo as real * 2.0)
  {
    assert RawScore(StartRecord(p, 0)) == p.followers as real * 0.3 + p.contributedTo as real * 2.0;
  }

  /** The five requests the loop makes for one repository, in the order it makes them. */
  method FetchMetrics(remote: RemoteData) returns (m: Metrics)
    ensures m == MetricsOf(remote)
  {
    var commits := FetchCommitCount(remote.commitSearch, remote.commitPages, remote.commitProbe);
    var issues := FetchIssueCount(remote.issues);
    var closed := FetchClosedIssueCount(remote.issues);
    var prs := FetchPRCount(remote.pulls);
    var merged := FetchMergedPRCount(remote.pulls);
    m := Metrics(commits, issues, closed, prs, merged);
  }

  /** `start` with the tally's figures added into its six summed counters. */
  function Grown(start: GitHubStats, t: Tally): GitHubStats {
    start.(stars := start.stars + t.stars, forked := start.forked + t.forks, watchedBy := start.watchedBy + t.watchers,
           commits := start.commits + t.commits, issues := start.issues + t.issues,
           pullRequests := start.pullRequests + t.prs)
  }

  /** The totals over one more repository. */
  lemma TotalStep(rs: seq<Repo>, i: nat)
    requires i < |rs|
    ensures Total(rs[..i + 1]) == Add(Total(rs[..i]), Contribution(rs[i]))
  {
    assert rs[..i + 1][..i] == rs[..i];
  }

  /** The oldest date over one more repository. */
  lemma OldestStep(rs: seq<Repo>, i: nat)
    requires i < |rs|
    ensures Oldest(rs[..i + 1]) == (if rs[i].remote.None? then Oldest(rs[..i])
                                   else if Oldest(rs[..i]).None? || rs[i].createdAt < Oldest(rs[..i]).value then Some(rs[i].createdAt)
                                   else Oldest(rs[..i]))
  {
    assert rs[..i + 1][..i] == rs[..i];
  }

  /** The language dictionary over one more repository. */
  lemma LanguageCountsStep(rs: seq<Repo>, i: nat)
    requires i < |rs|
    ensures LanguageCounts(rs[..i + 1]) ==
              (if rs[i].remote.Some? && rs[i].language.Some? && rs[i].language.value != ""
               then Bump(LanguageCounts(rs[..i]), rs[i].language.value) else LanguageCounts(rs[..i]))
  {
    assert rs[..i + 1][..i] == rs[..i];
  }

  /** A successful repository contributes its own figures and the counters fetched for it. */
  lemma ContributionOf(r: Repo, m: Metrics)
    requires r.remote.Some? && m == MetricsOf(r.remote.value)
    ensures Contribution(r) == Tally(r.stars, r.forks, r.watchers, m.commits, m.issues, m.closedIssues, m.prs, m.mergedPRs)
  {
  }

  /**
   * The `try` block for one repository whose processing succeeds: its five
   * counters are fetched, then the record, the oldest date, the language
   * dictionary and the closed/merged running totals take its figures.
   */
  method ProcessRepository(repo: Repo, remote: RemoteData, stats: GitHubStats, languageCounts: seq<LangEntry>,
                           oldestRepoDate: Option<int>, closedIssues: nat, totalIssues: nat, mergedPRs: nat, totalPRs: nat)
    returns (stats': GitHubStats, languageCounts': seq<LangEntry>, oldestRepoDate': Option<int>,
             closedIssues': nat, totalIssues': nat, mergedPRs': nat, totalPRs': nat)
    requires repo.remote == Some(remote)
    ensures var c := Contribution(repo);
      && stats' == Grown(stats, c)
      && closedIssues' == closedIssues + c.closedIssues && totalIssues' == totalIssues + c.issues
      && mergedPRs' == mergedPRs + c.mergedPRs && totalPRs' == totalPRs + c.prs
    ensures oldestRepoDate' == if oldestRepoDate.None? || repo.createdAt < oldestRepoDate.value
                               then Some(repo.createdAt) else oldestRepoDate
    ensures languageCounts' == if repo.language.Some? && repo.language.value != ""
                               then Bump(languageCounts, repo.language.value) else languageCounts
  {
    var m := FetchMetrics(remote);
    ContributionOf(repo, m);
    stats' := stats.(stars := stats.stars + repo.stars, forked := stats.forked + repo.forks,
                     watchedBy := stats.watchedBy + repo.watchers);
    oldestRepoDate' := oldestRepoDate;
    if oldestRepoDate.None? || repo.createdAt < oldestRepoDate.value {
      oldestRepoDate' := Some(repo.createdAt);
    }
    languageCounts' := languageCounts;
    if repo.language.Some? && repo.language.value != "" {
      languageCounts' := Bump(languageCounts, repo.language.value);
    }
    stats' := stats'.(commits := stats'.commits + m.commits, issues := stats'.issues + m.issues,
                      pullRequests := stats'.pullRequests + m.prs);
    closedIssues' := closedIssues + m.closedIssues;
    totalIssues' := totalIssues + m.issues;
    mergedPRs' := mergedPRs + m.mergedPRs;
    totalPRs' := totalPRs + m.prs;
  }

  /** Growing by a sum is growing twice. */
  lemma GrownAdd(start: GitHubStats, t: Tally, c: Tally)
    ensures Grown(start, Add(t, c)) == Grown(Grown(start, t), c)
  {
  }

  /**
   * The `for ... of` loop over the repositories. Every repository is counted
   * as processed; only those whose processing succeeds add to the record,
   * the dictionary, the oldest date and the closed/merged running totals.
   */
  method AccumulateRepositories(start: GitHubStats, repos: seq<Repo>)
    returns (stats: GitHubStats, languageCounts: seq<LangEntry>, oldestRepoDate: Option<int>,
             closedIssues: nat, totalIssues: nat, mergedPRs: nat, totalPRs: nat, processedCount: nat)
    ensures stats == Grown(start, Total(repos))
    ensures closedIssues == Total(repos).closedIssues && totalIssues == Total(repos).issues
    ensures mergedPRs == Total(repos).mergedPRs && totalPRs == Total(repos).prs
    ensures languageCounts == LanguageCounts(repos)
    ensures oldestRepoDate == Oldest(repos)
    ensures processedCount == |repos|
  {
    stats := start;
    languageCounts := [];
    closedIssues, totalIssues, mergedPRs, totalPRs := 0, 0, 0, 0;
    oldestRepoDate := None;
    processedCount := 0;
    for i := 0 to |repos|
      invariant processedCount == i
      invariant stats == Grown(start, Total(repos[..i]))
      invariant closedIssues == Total(repos[..i]).closedIssues && totalIssues == Total(repos[..i]).issues
      invariant mergedPRs == Total(repos[..i]).mergedPRs && totalPRs == Total(repos[..i]).prs
      invariant oldestRepoDate == Oldest(repos[..i])
      invariant languageCounts == LanguageCounts(repos[..i])
    {
      var repo := repos[i];
      TotalStep(repos, i);
      OldestStep(repos, i);
      LanguageCountsStep(repos, i);
      GrownAdd(start, Total(repos[..i]), Contribution(repo));
      match repo.remote {
        case None =>
          // Processing this repository threw before it added anything.
          processedCount := processedCount + 1;
          AddZero(Total(repos[..i]));
        case Some(remote) =>
          stats, languageCounts, oldestRepoDate, closedIssues, totalIssues, mergedPRs, totalPRs :=
            ProcessRepository(repo, remote, stats, languageCounts, oldestRepoDate, closedIssues, totalIssues, mergedPRs, totalPRs);
          processedCount := processedCount + 1;
      }
    }
    assert repos[..|repos|] == repos;
  }

  /**
   * The whole statistics run over the listed repositories, given the
   * profile figures and the current time in milliseconds. `processedCount`
   * counts every repository, failed or not.
   */
  method GetGitHubStats(profile: Profile, repos: seq<Repo>, now: int) returns (stats: GitHubStats, processedCount: nat)
    ensures processedCount == |repos|
    ensures stats.repositories == |repos|
    ensures stats.followers == profile.followers && stats.following == profile.following
    ensures stats.contributedTo == profile.contributedTo && stats.contributions == profile.contributions
    ensures var t := Total(repos);
      && stats.stars == t.stars && stats.forked == t.forks && stats.watchedBy == t.watchers
      && stats.commits == t.commits && stats.issues == t.issues && stats.pullRequests == t.prs
      && stats.averageCommitsPerRepo == Ratio(t.commits, |repos|)
      && stats.starsPerRepo == Ratio(t.stars, |repos|)
      && stats.issueCloseRate == Percent(t.closedIssues, t.issues)
      && stats.prMergeRate == Percent(t.mergedPRs, t.prs)
    ensures stats.languages == LanguageCounts(repos)
    ensures IsTopLanguage(stats.languages, stats.topLanguage)
    ensures stats.oldestRepo == Oldest(repos)
    ensures stats.daysActive == match stats.oldestRepo
                                case None => 0
                                case Some(oldest) => CeilDays(now, oldest)
    ensures stats.score == ScoreOf(stats) && stats.grade == GradeOf(stats)
  {
    stats := StartRecord(profile, |repos|);
    processedCount := 0;
    if |repos| == 0 {
      // No repositories: rate the record as it stands.
      stats := CalculateRating(stats);
      return;
    }
    var languageCounts, oldestRepoDate, closedIssues, totalIssues, mergedPRs, totalPRs;
    stats, languageCounts, oldestRepoDate, closedIssues, totalIssues, mergedPRs, totalPRs, processedCount :=
      AccumulateRepositories(stats, repos);
    stats := stats.(languages := languageCounts);
    var top := TopLanguage(languageCounts);
    stats := stats.(topLanguage := top);
    stats := stats.(oldestRepo := oldestRepoDate);
    if oldestRepoDate.Some? {
      stats := stats.(daysActive := CeilDays(now, oldestRepoDate.value));
    }
    stats := stats.(averageCommitsPerRepo := Ratio(stats.commits, stats.repositories));
    stats := stats.(starsPerRepo := Ratio(stats.stars, stats.repositories));
    stats := stats.(issueCloseRate := Percent(closedIssues, totalIssues));
    stats := stats.(prMergeRate := Percent(mergedPRs, totalPRs));
    stats := CalculateRating(stats);
  }
}
