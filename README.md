# star-track-action, modelled in Dafny

The model covers the core of the GitHub Action in `src/main.ts`. The action
collects an account's repository statistics, scores them, grades the score
and writes a statistics card into the README between two HTML comment
markers. The model covers:

- **Grades** (`grades.dfy`): the eighteen-tier `GRADE_RANGES` table. It
  holds the descending scan that turns a score into a grade and the
  first-match colour lookup of the card's badge.
- **Stats** (`stats.dfy`): the statistics record, the zero-guarded ratios
  and percentages, and the rounded-up day count since the oldest
  repository.
- **Scoring** (`scoring.dfy`): `calculateRating`. It is a weighted sum
  with capped terms and two step-function bonuses. The sum is rounded
  half up and mapped onto a grade, using exact reals.
- **Fetchers** (`fetchers.dfy`): the five paginated counters, each a
  `while (hasMorePages)` loop over the pages a listing returns, and the
  commit-count fallback chain. A listing is given as its sequence of
  pages. `None` is a page whose request fails, and a request past the last
  page returns an empty page.
- **Aggregation** (`aggregation.dfy`): the body of `getGitHubStats`. It
  contains the `for ... of` loop over the repositories, with its running
  totals, the language dictionary (kept as an insertion-ordered list of
  entries) and the oldest creation date. After the loop it computes the
  top language and the derived metrics, then rates the record. A
  repository whose processing is skipped by the `catch` is a `Repo` with
  `remote == None` (see "Left out" for when the source takes that path).
- **Readme** (`readme.dfy`): the marker splice of `updateReadme`. The
  greedy pattern `BEGIN[\s\S]*END` matches from the first begin marker to
  the last end marker after it. The card replaces that span, or is
  appended after a blank line, or becomes the whole file.

Inputs that come from outside the program are passed in as parameters:

- the profile figures;
- the repository list;
- every listing's pages;
- the commit search result;
- the single-commit probe;
- the current time in milliseconds;
- the README's text (`None` when the file does not exist).

## Model

| member | source | states |
|---|---|---|
| Grades.TableShape | src/main.ts:48-67 | the table has 18 tiers; the lowest threshold is 0; thresholds strictly ascend; labels are non-empty and pairwise distinct |
| Grades.TierIndex | src/main.ts:574-579 | the tier selected is the highest whose `minScore` is at most the score; every higher tier's threshold is above the score, so the score lies in the tier's half-open band |
| Grades.ThresholdSelectsItsTier | src/main.ts:574-579 | a score equal to a tier's `minScore` selects exactly that tier |
| Grades.TierMonotone | src/main.ts:574-579 | a larger score never selects a lower tier |
| Grades.SelectGrade | src/main.ts:573-584 | for a score of at least 0 the descending scan yields the label of tier `TierIndex(score)`, which is a table label and non-empty; for a negative score the prior grade stays, except that an empty one becomes `D-` |
| Grades.GradeColor | src/main.ts:848-854 | the colour is the colour of a tier with the grade as its label; a grade no tier carries gets `999` |
| Stats.Ratio | src/main.ts:314-317 | a zero divisor gives 0; otherwise the result times the divisor is the dividend; a dividend at most the divisor gives at most 1 |
| Stats.Percent | src/main.ts:320-323 | a zero total gives 0; otherwise the result times the total is 100 times the part; a part at most the total gives at most 100 |
| Stats.CeilDays | src/main.ts:307-311 | the least whole number of days covering the absolute distance between the two timestamps |
| Scoring.CommitTerm | src/main.ts:530 | the commit term lies in [0, 300] |
| Scoring.IssueTerm | src/main.ts:533 | the issue term lies in [0, 50] |
| Scoring.PullRequestTerm | src/main.ts:534 | the pull-request term lies in [0, 50] |
| Scoring.AverageCommitsTerm | src/main.ts:556 | the average-commits term lies in [0, 50] |
| Scoring.StarsPerRepoTerm | src/main.ts:557 | the stars-per-repository term lies in [0, 100] |
| Scoring.RateTerm | src/main.ts:560-561 | each rate term lies in [0, 10] |
| Scoring.ActivityTerm | src/main.ts:564-567 | the activity term lies in [0, 25] and is 0 for zero days |
| Scoring.StarsPerRepoBonus | src/main.ts:541-546 | the bonus is one of 0, 20, 50, 100, 200 and is the bonus of the highest tier reached alone |
| Scoring.TotalStarsBonus | src/main.ts:549-553 | the bonus is one of 0, 50, 200, 500, 1000, 2000 and is the bonus of the highest tier reached alone |
| Scoring.Round | src/main.ts:570 | the result is the integer within half a unit of the argument, halves going up; it is non-negative for a non-negative argument |
| Scoring.ScoreOf | src/main.ts:525-570 | the score is a non-negative integer within half a point of the weighted sum |
| Scoring.GradeOf | src/main.ts:573-584 | the grade is a table label, non-empty, and the label of the tier the score selects |
| Scoring.CalculateRating | src/main.ts:523-589 | the rated record is the input with `score` and `grade` set to `ScoreOf` and `GradeOf`; rating it again gives back the same score and grade |
| Scoring.RawScoreMonotone | src/main.ts:525-567 | raising any field that the sum reads never lowers the sum |
| Scoring.ScoreMonotone | src/main.ts:525-579 | raising any field the score reads never lowers the score or the selected tier |
| Scoring.CapBoundaries | src/main.ts:530-567 | each capped input (commits, issues, pull requests, average commits, stars per repository, the two rates and days active) at its cap and one unit above it gives the same score |
| Scoring.TermsSaturate | src/main.ts:530-567 | past its cap each term equals its cap |
| Scoring.InitialRecordScore | src/main.ts:153-175 | the record a run starts from scores 0 and is graded D- |
| Aggregation.NoRepositoriesScore | src/main.ts:187-190 | a run with no repositories scores the rounded followers and contributed-to terms alone |
| Scoring.ExampleScore | src/main.ts:528-570 | a worked record earns bonuses 200 and 500, a commit term of 200 (below its cap), 1789 points and grade S+ |
| Fetchers.Filter | src/main.ts:433 | every kept item appears in the result as many times as in the page, and no other item appears, so the count of the result is the count of kept items |
| Fetchers.PagedCountUpToStop | src/main.ts:418-451 | the count is the sum of the kept items of the pages up to and including the first page that stops the loop; a failed page adds nothing |
| Fetchers.PagedCountWithoutStop | src/main.ts:418-451 | when no listed page stops the loop, every page is counted |
| Fetchers.LaterPagesIgnored | src/main.ts:418-451 | pages after the one that stops the loop do not change the count |
| Fetchers.FilteredAtMostAll | src/main.ts:812-813 | a filtered count never exceeds the unfiltered count of the same pages |
| Fetchers.FetchIssueCount | src/main.ts:789-835 | the loop returns the paged count of non-pull-request entries of the all-states listing |
| Fetchers.FetchClosedIssueCount | src/main.ts:410-456 | the loop returns the paged count of non-pull-request entries of the closed listing |
| Fetchers.FetchPRCount | src/main.ts:739-784 | the loop returns the paged count of every entry of the all-states pull listing |
| Fetchers.CountMerged | src/main.ts:484-488 | the inner loop over one page counts exactly the pull requests of that page that carry a merge timestamp |
| Fetchers.FetchMergedPRCount | src/main.ts:461-503 | the loop with its inner item loop returns the paged count of the closed pulls that have a merge timestamp |
| Fetchers.CountCommitsWithREST | src/main.ts:694-734 | the loop goes on only after a page of exactly 100 and returns the count of every commit fetched |
| Fetchers.FirstSuccess | src/main.ts:642-689 | the value of the first strategy that succeeds, or the fallback when all fail |
| Fetchers.ProbeResult | src/main.ts:669-682 | the probe succeeds exactly when its request does, and gives 1 exactly when a commit is listed |
| Fetchers.FetchCommitCount | src/main.ts:642-689 | the count is the first success in the order search, REST count, probe, then 0; the search total when the search succeeds, otherwise the REST count |
| Fetchers.ProbeUnreachable | src/main.ts:664-682 | neither the probe's answer nor the final default can change the commit count |
| Aggregation.TotalConcat | src/main.ts:209-289 | the totals over a concatenation are the sum of the totals of its parts |
| Aggregation.TotalOrderIndependent | src/main.ts:209-289 | any permutation of the repositories gives the same totals |
| Aggregation.Successful | src/main.ts:209-289 | every repository whose processing succeeds appears as many times as in the input, and no other appears |
| Aggregation.FailuresAddNothing | src/main.ts:284-287 | the totals equal the totals over the successful repositories alone |
| Aggregation.FirstUse | src/main.ts:262-268 | the index of the first repository counted towards a language, with no earlier one counted towards it |
| Aggregation.IndexOf | src/main.ts:264-267 | the position of a language's entry, with no earlier entry of that name, or none when no entry has it |
| Aggregation.Bump | src/main.ts:264-267 | a missing language is appended with count 1; an existing one keeps every name in place |
| Aggregation.BumpCounts | src/main.ts:264-267 | bumping adds one to that language's count, leaves every other count alone, and keeps names distinct and counts positive |
| Aggregation.LanguageCountsExact | src/main.ts:262-268 | the dictionary has distinct names, a positive count per entry, and the count of every language equals the number of successful repositories with that language |
| Aggregation.LanguageCountsOrdered | src/main.ts:262-268 | the entries stand in the order in which their languages were first met |
| Aggregation.TopLanguage | src/main.ts:294-301 | the top language is the first entry with the largest count, or the empty string when no count is positive |
| Aggregation.Oldest | src/main.ts:258-260 | the oldest date is the least creation date of a successful repository, and is none exactly when no repository succeeded |
| Aggregation.FetchMetrics | src/main.ts:226-247 | the five fetched counters are the counters the page model assigns to the repository |
| Aggregation.ProcessRepository | src/main.ts:210-278 | one successful repository adds its contribution to the record and the running totals, updates the oldest date and bumps its language |
| Aggregation.AccumulateRepositories | src/main.ts:209-289 | after the loop the six summed counters and the four running totals are the totals over the repositories; the dictionary is `LanguageCounts`; the oldest date is `Oldest`; every repository counts as processed |
| Aggregation.GetGitHubStats | src/main.ts:148-331 | the record holds the profile figures, the repository count, the totals, the dictionary and its top language, the oldest date and the days since it, the zero-guarded ratios and rates, and the score and grade of the result |
| Readme.MarkerSpan | src/main.ts:953 | the span starts at the first begin marker and ends after the last end marker that starts after that marker ends |
| Readme.MarkerSpanExists | src/main.ts:953-958 | a span exists exactly when some begin marker is followed by an end marker |
| Readme.Splice | src/main.ts:958-962 | the text before the span and after it is kept, and the card stands in place of the span |
| Readme.UpdateReadme | src/main.ts:941-979 | a missing file becomes the card; a README with a span gets the card spliced in; one without a span gets a blank line and the card appended; the result is reported changed exactly when the text differs |
| Readme.UpdateIdempotent | src/main.ts:941-979 | a second update with the same well-formed card changes nothing, provided an appended-to README held no stray begin marker |
| Readme.UpdateShowsCard | src/main.ts:941-979 | after the update the README contains the card |
| Readme.StrayBeginBreaksIdempotence | src/main.ts:953-967 | for example, a README that is exactly a begin marker gets the card appended; the next update then replaces everything from that stray marker up to the card's end and reports a change |

## Left out

- Octokit REST and GraphQL calls, `octokit.paginate`, `fetchAllRepositories`, and `encodeURIComponent` are not modelled. They are network and library calls, so their results enter the model as inputs (a listing's pages, the search total, the probe, the repository list).
- `fetchUserInfo` is not modelled; its figures enter as a `Profile`. Its fallback estimates at src/main.ts:392-393 read `stats.repositories` and `stats.commits`. Nothing has set those yet at the call at src/main.ts:181, which precedes src/main.ts:185, so the estimates are always 0.
- The `setTimeout` delays, the `async`/`await` sequencing and the `core.*` logging are not modelled. They affect timing and output only.
- Floating point is not modelled. The score, the ratios and the rates are exact reals. `Math.round` is floor of x + 0.5, and `toFixed` and the card's number formatting are out.
- Wall-clock time is not modelled. `new Date()` is the parameter `now`, in milliseconds; an invalid `created_at` date is not modelled.
- The HTML card template (src/main.ts:856-935) and the date it prints are not modelled. The card enters `UpdateReadme` as a string. `WellFormedCard` captures only that it starts and ends with the markers.
- File-system reads and writes, and the git commit and push, are not modelled. The README's text and the written text are values.
- Readme.Splice: `String.prototype.replace` expands `$$`, `$&`, `` $` `` and `$'` in the replacement. The model inserts the card literally, which agrees with the source at least for cards in which no `$` is followed by `$`, `&`, `` ` `` or `'`.
- The `Math.round(prCount * 0.7)` estimate in `fetchMergedPRCount` (src/main.ts:506-516) is not modelled. Every page error is caught inside the loop, and the statements around it cannot throw, so that catch is never entered.
- The outer `catch` blocks returning 0 in the four issue and PR counters are not modelled, for the same reason.
- Aggregation.LanguageCountsExact: the model uses an association list, which matches a `Record<string, number>` except for two cases. A language named like an inherited object property (`constructor`, `toString`) reads the inherited function on its first bump, which is truthy, so `++` stores `NaN`; every later bump finds `NaN`, resets it to 0 and increments, so k such repositories record `NaN` for k = 1 and k - 1 for k >= 2. `__proto__` is never stored, since its setter ignores `NaN`. `Object.entries` lists integer-like keys first.
- Aggregation.GetGitHubStats: closed issues and merged pull requests come from listings separate from the all-states ones. Nothing ties the two listings together, so the model does not promise that `issueCloseRate` or `prMergeRate` stays at most 100. `Stats.Percent` gives that bound only when the part is at most the total.
- Aggregation.GetGitHubStats: a repository's `owner` is always present in the model. In the source, the only expression in the per-repository `try` that can throw is `repo.owner.login` (src/main.ts:223), since the five fetchers catch everything. The `catch` reads `repo.owner.login` again in its warning (src/main.ts:286), so a repository without an owner throws there too, leaves the loop, and aborts the whole run through the rethrow at src/main.ts:327-330. A `Repo` with `remote == None` stands for a throw the source gives no cause for, so the skip-and-count path at src/main.ts:285-288 is effectively unreachable, and the aborting path is not modelled.
- `generateStatsCard`'s `yearsActive` and percentage formatting are not modelled. They are display only; the grade-colour lookup is `Grades.GradeColor`.
