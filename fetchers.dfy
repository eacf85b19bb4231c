/**
 * The per-repository metric fetchers. Each counter pages through a listing,
 * counts (a filtered part of) every page, and stops after the first page
 * that is shorter than a full page or that fails; a failed page keeps the
 * count gathered so far. The commit counter is a chain of strategies tried
 * in order.
 *
 * A listing is given as the sequence of its pages as the service would
 * return them, `None` standing for a request that fails. A request past
 * the last page returns an empty page.
 */
module Fetchers {
  import opened Wrappers

  /** Items requested per page. */
  const PER_PAGE: nat := 100

  /** An entry of the issue listing, which also lists pull requests: `pullRequest` marks those. */
  datatype ListedIssue = ListedIssue(number: nat, pullRequest: bool)

  /** An entry of the pull-request listing with its merge timestamp, absent when not merged. */
  datatype ListedPull = ListedPull(number: nat, mergedAt: Option<string>)

  /** An entry of the commit listing. */
  datatype ListedCommit = ListedCommit(sha: string)

  /** The pages of one listing, in page order; `None` is a page whose request fails. */
  type Pages<T> = seq<Option<seq<T>>>

  /** What a listing endpoint returns when asked for items of every state and for closed items only. */
  datatype Listing<T> = Listing(all: Pages<T>, closed: Pages<T>)

  /**
   * When a loop asks for the next page: the issue and pull-request loops
   * stop on a page shorter than `PER_PAGE`; the commit loop goes on only
   * after a page of exactly `PER_PAGE` items.
   */
  datatype StopRule = StopOnShortPage | ContinueOnFullPage

  predicate Continues(rule: StopRule, pageLength: nat) {
    match rule
    case StopOnShortPage => !(pageLength < PER_PAGE)
    case ContinueOnFullPage => pageLength == PER_PAGE
  }

  /** A response ends the loop when it failed or when the rule does not ask for more. */
  predicate Stops<T>(response: Option<seq<T>>, rule: StopRule) {
    response.None? || !Continues(rule, |response.value|)
  }

  /** The response to a request for page number `page` (numbered from 1). */
  function PageAt<T>(pages: Pages<T>, page: nat): (r: Option<seq<T>>)
    requires page >= 1
    ensures page > |pages| ==> r == Some([])
  {
    if page <= |pages| then pages[page - 1] else Some([])
  }

  /** The items of `items` that satisfy `keep`, in order. */
  function Filter<T>(items: seq<T>, keep: T -> bool): (r: seq<T>)
    ensures |r| <= |items|
    ensures forall x :: x in r ==> x in items && keep(x)
    ensures forall x :: x in items && keep(x) ==> x in r
    ensures forall x :: x in items ==> multiset(r)[x] == (if keep(x) then multiset(items)[x] else 0)
  {
    if |items| == 0 then []
    else
      var last := items[|items| - 1];
      assert items == items[..|items| - 1] + [last];
      Filter(items[..|items| - 1], keep) + (if keep(last) then [last] else [])
  }

  /** Filtering one more item adds it exactly when it is kept. */
  lemma FilterStep<T>(items: seq<T>, j: nat, keep: T -> bool)
    requires j < |items|
    ensures |Filter(items[..j + 1], keep)| == |Filter(items[..j], keep)| + (if keep(items[j]) then 1 else 0)
  {
    assert items[..j + 1][..j] == items[..j];
  }

  /** Every item. */
  predicate Every<T>(x: T) { true }

  /** An issue-listing entry that is a real issue, not a pull request. */
  predicate IsIssue(i: ListedIssue) { !i.pullRequest }

  /** A pull request with a (non-empty) merge timestamp. */
  predicate IsMerged(p: ListedPull) { p.mergedAt.Some? && p.mergedAt.value != "" }

  lemma {:induction false} FilterEvery<T>(items: seq<T>)
    ensures |Filter(items, Every)| == |items|
  {
    if |items| > 0 {
      FilterEvery(items[..|items| - 1]);
    }
  }

  /**
   * What a paging loop counts: the kept items of each page it fetches,
   * from the first page up to and including the first page that stops it.
   */
  function PagedCount<T>(pages: Pages<T>, keep: T -> bool, rule: StopRule): nat
  {
    if |pages| == 0 then 0
    else match pages[0]
      case None => 0
      case Some(data) =>
        |Filter(data, keep)| + (if Continues(rule, |data|) then PagedCount(pages[1..], keep, rule) else 0)
  }

  /** The kept items of every page that was fetched successfully. */
  function SumKept<T>(pages: Pages<T>, keep: T -> bool): nat
  {
    if |pages| == 0 then 0
    else (if pages[0].Some? then |Filter(pages[0].value, keep)| else 0) + SumKept(pages[1..], keep)
  }

  /**
   * The count is the sum of the kept items of the pages up to the first
   * page that stops the loop; a failed page adds nothing and ends it.
   */
  lemma {:induction false} PagedCountUpToStop<T>(pages: Pages<T>, keep: T -> bool, rule: StopRule, i: nat)
    requires i < |pages| && Stops(pages[i], rule)
    requires forall j :: 0 <= j < i ==> !Stops(pages[j], rule)
    ensures PagedCount(pages, keep, rule) == SumKept(pages[..i + 1], keep)
  {
    if i > 0 {
      PagedCountUpToStop(pages[1..], keep, rule, i - 1);
      assert pages[..i + 1][1..] == pages[1..][..i];
    }
  }

  /**
   * When no listed page stops the loop, every page is counted; the loop
   * then ends on the empty page past the last one.
   */
  lemma {:induction false} PagedCountWithoutStop<T>(pages: Pages<T>, keep: T -> bool, rule: StopRule)
    requires forall j :: 0 <= j < |pages| ==> !Stops(pages[j], rule)
    ensures PagedCount(pages, keep, rule) == SumKept(pages, keep)
  {
    if |pages| > 0 {
      PagedCountWithoutStop(pages[1..], keep, rule);
    }
  }

  /** Nothing after the page that stops the loop can change the count. */
  lemma {:induction false} LaterPagesIgnored<T>(pages: Pages<T>, rest: Pages<T>, keep: T -> bool, rule: StopRule)
    requires |pages| > 0 && Stops(pages[|pages| - 1], rule)
    ensures PagedCount(pages + rest, keep, rule) == PagedCount(pages, keep, rule)
  {
    if |pages| > 1 && pages[0].Some? && Continues(rule, |pages[0].value|) {
      assert (pages + rest)[1..] == pages[1..] + rest;
      LaterPagesIgnored(pages[1..], rest, keep, rule);
    }
  }

  /** A filtered count never exceeds the count of all items fetched. */
  lemma {:induction false} FilteredAtMostAll<T>(pages: Pages<T>, keep: T -> bool, rule: StopRule)
    ensures PagedCount(pages, keep, rule) <= PagedCount(pages, Every, rule)
  {
    if |pages| > 0 && pages[0].Some? {
      FilterEvery(pages[0].value);
      FilteredAtMostAll(pages[1..], keep, rule);
    }
  }

  /** Issues of all states, pull requests filtered out. */
  method FetchIssueCount(listing: Listing<ListedIssue>) returns (count: nat)
    ensures count == PagedCount(listing.all, IsIssue, StopOnShortPage)
  {
    var pages := listing.all;
    count := 0;
    var page := 1;
    var hasMorePages := true;
    while hasMorePages
      invariant 1 <= page <= |pages| + 1
      invariant hasMorePages ==> count + PagedCount(pages[page - 1..], IsIssue, StopOnShortPage) == PagedCount(pages, IsIssue, StopOnShortPage)
      invariant !hasMorePages ==> count == PagedCount(pages, IsIssue, StopOnShortPage)
      decreases |pages| + 1 - page, hasMorePages
    {
      match PageAt(pages, page)
      case None =>
        hasMorePages := false;
      case Some(data) =>
        var actualIssues := Filter(data, IsIssue);
        count := count + |actualIssues|;
        if |data| < PER_PAGE {
          hasMorePages := false;
        } else {
          assert pages[page - 1..][1..] == pages[page..];
          page := page + 1;
        }
    }
  }

  /** Closed issues, pull requests filtered out. */
  method FetchClosedIssueCount(listing: Listing<ListedIssue>) returns (count: nat)
    ensures count == PagedCount(listing.closed, IsIssue, StopOnShortPage)
  {
    var pages := listing.closed;
    count := 0;
    var page := 1;
    var hasMorePages := true;
    while hasMorePages
      invariant 1 <= page <= |pages| + 1
      invariant hasMorePages ==> count + PagedCount(pages[page - 1..], IsIssue, StopOnShortPage) == PagedCount(pages, IsIssue, StopOnShortPage)
      invariant !hasMorePages ==> count == PagedCount(pages, IsIssue, StopOnShortPage)
      decreases |pages| + 1 - page, hasMorePages
    {
      match PageAt(pages, page)
      case None =>
        hasMorePages := false;
      case Some(data) =>
        var actualIssues := Filter(data, IsIssue);
        count := count + |actualIssues|;
        if |data| < PER_PAGE {
          hasMorePages := false;
        } else {
          assert pages[page - 1..][1..] == pages[page..];
          page := page + 1;
        }
    }
  }

  /** Pull requests of all states. */
  method FetchPRCount(listing: Listing<ListedPull>) returns (count: nat)
    ensures count == PagedCount(listing.all, Every, StopOnShortPage)
  {
    var pages := listing.all;
    count := 0;
    var page := 1;
    var hasMorePages := true;
    while hasMorePages
      invariant 1 <= page <= |pages| + 1
      invariant hasMorePages ==> count + PagedCount(pages[page - 1..], Every, StopOnShortPage) == PagedCount(pages, Every, StopOnShortPage)
      invariant !hasMorePages ==> count == PagedCount(pages, Every, StopOnShortPage)
      decreases |pages| + 1 - page, hasMorePages
    {
      match PageAt(pages, page)
      case None =>
        hasMorePages := false;
      case Some(data) =>
        FilterEvery(data);
        count := count + |data|;
        if |data| < PER_PAGE {
          hasMorePages := false;
        } else {
          assert pages[page - 1..][1..] == pages[page..];
          page := page + 1;
        }
    }
  }

  /** The inner loop over one page of closed pull requests: those with a merge timestamp. */
  method CountMerged(data: seq<ListedPull>) returns (merged: nat)
    ensures merged == |Filter(data, IsMerged)|
  {
    merged := 0;
    for j := 0 to |data|
      invariant merged == |Filter(data[..j], IsMerged)|
    {
      FilterStep(data, j, IsMerged);
      if IsMerged(data[j]) {
        merged := merged + 1;
      }
    }
    assert data[..|data|] == data;
  }

  /** Closed pull requests that carry a merge timestamp, counted page by page. */
  method FetchMergedPRCount(listing: Listing<ListedPull>) returns (count: nat)
    ensures count == PagedCount(listing.closed, IsMerged, StopOnShortPage)
  {
    var pages := listing.closed;
    count := 0;
    var page := 1;
    var hasMorePages := true;
    while hasMorePages
      invariant 1 <= page <= |pages| + 1
      invariant hasMorePages ==> count + PagedCount(pages[page - 1..], IsMerged, StopOnShortPage) == PagedCount(pages, IsMerged, StopOnShortPage)
      invariant !hasMorePages ==> count == PagedCount(pages, IsMerged, StopOnShortPage)
      decreases |pages| + 1 - page, hasMorePages
    {
      match PageAt(pages, page)
      case None =>
        hasMorePages := false;
      case Some(data) =>
        var merged := CountMerged(data);
        count := count + merged;
        if |data| < PER_PAGE {
          hasMorePages := false;
        } else {
          assert pages[page - 1..][1..] == pages[page..];
          page := page + 1;
        }
    }
  }

  /** Commits by the account, paged until a page is not exactly full; a failed page keeps the partial count. */
  method CountCommitsWithREST(pages: Pages<ListedCommit>) returns (count: nat)
    ensures count == PagedCount(pages, Every, ContinueOnFullPage)
  {
    count := 0;
    var page := 1;
    var hasMorePages := true;
    while hasMorePages
      invariant 1 <= page <= |pages| + 1
      invariant hasMorePages ==> count + PagedCount(pages[page - 1..], Every, ContinueOnFullPage) == PagedCount(pages, Every, ContinueOnFullPage)
      invariant !hasMorePages ==> count == PagedCount(pages, Every, ContinueOnFullPage)
      decreases |pages| + 1 - page, hasMorePages
    {
      match PageAt(pages, page)
      case None =>
        hasMorePages := false;
      case Some(data) =>
        FilterEvery(data);
        count := count + |data|;
        if |data| == PER_PAGE {
          assert pages[page - 1..][1..] == pages[page..];
          page := page + 1;
        } else {
          hasMorePages := false;
        }
    }
  }

  /**
   * An ordered list of strategies: the value of the first that succeeds,
   * or `fallback` when all fail.
   */
  function FirstSuccess(strategies: seq<Option<nat>>, fallback: nat): (r: nat)
    ensures (forall i :: 0 <= i < |strategies| ==> strategies[i].None?) ==> r == fallback
    ensures forall i :: 0 <= i < |strategies| && strategies[i].Some? && (forall j :: 0 <= j < i ==> strategies[j].None?)
              ==> r == strategies[i].value
  {
    if |strategies| == 0 then fallback
    else match strategies[0]
      case Some(v) => v
      case None =>
        var r := FirstSuccess(strategies[1..], fallback);
        assert forall i :: 1 <= i < |strategies| ==> strategies[1..][i - 1] == strategies[i];
        r
  }

  /** The single-commit probe: 1 when the account has any commit, 0 otherwise; `None` when it fails. */
  function ProbeResult(probe: Option<seq<ListedCommit>>): (r: Option<nat>)
    ensures r.Some? <==> probe.Some?
    ensures r.Some? ==> (r.value == 1 <==> |probe.value| > 0) && r.value <= 1
  {
    match probe
    case None => None
    case Some(data) => Some(if |data| > 0 then 1 else 0)
  }

  /**
   * The commit strategies in the order they are tried: the search total,
   * then the REST count, then the probe, with 0 when all fail.
   */
  function CommitStrategies(search: Option<nat>, pages: Pages<ListedCommit>, probe: Option<seq<ListedCommit>>): seq<Option<nat>> {
    [search, Some(PagedCount(pages, Every, ContinueOnFullPage)), ProbeResult(probe)]
  }

  /**
   * Commits by the account in one repository: the search total when the
   * search succeeds, otherwise the REST count. The REST count never fails,
   * so the probe and the final default are never consulted.
   */
  method FetchCommitCount(search: Option<nat>, pages: Pages<ListedCommit>, probe: Option<seq<ListedCommit>>)
    returns (count: nat)
    ensures count == FirstSuccess(CommitStrategies(search, pages, probe), 0)
    ensures search.Some? ==> count == search.value
    ensures search.None? ==> count == PagedCount(pages, Every, ContinueOnFullPage)
  {
    match search
    case Some(totalCount) =>
      count := totalCount;
    case None =>
      count := CountCommitsWithREST(pages);
  }

  /** The probe and the final default never decide the commit count. */
  lemma ProbeUnreachable(search: Option<nat>, pages: Pages<ListedCommit>, p: Option<seq<ListedCommit>>, q: Option<seq<ListedCommit>>,
                         d: nat, e: nat)
    ensures FirstSuccess(CommitStrategies(search, pages, p), d) == FirstSuccess(CommitStrategies(search, pages, q), e)
  {
  }
}
