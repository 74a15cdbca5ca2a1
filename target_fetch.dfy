/** `fetch_nearby` of the target-capped crawler: the shared page loop with
    the Nearby Search as first request and the one INVALID_REQUEST repeat
    while a page token is in use. */
module TargetFetch {
  import opened Places
  import opened Paging

  function Fetch(stream: seq<Attempt<Reply>>, from: nat, location: Location, radius: nat, keyword: string, maxPages: nat): PagedRun {
    Paged(stream, true, from, maxPages, NearbySearch(location, radius, keyword))
  }

  /** At most `max_pages` page iterations, chained by page tokens, whose
      results are concatenated in page order; an unacceptable status after
      the one INVALID_REQUEST repeat is an error; each page iteration makes
      one or two requests. */
  lemma FetchSpec(stream: seq<Attempt<Reply>>, from: nat, location: Location, radius: nat, keyword: string, maxPages: nat)
    ensures var run := Fetch(stream, from, location, radius, keyword, maxPages);
      && PagedPromise(run, NearbySearch(location, radius, keyword), maxPages)
      && from + |run.requests| <= run.next <= from + 2 * |run.requests|
  {
    PagedSpec(stream, true, from, maxPages, NearbySearch(location, radius, keyword));
  }

  /** The fetch as the source writes it: `for _ in range(max_pages)`, one
      request, its repeat on INVALID_REQUEST while paging, the status check,
      and the token test that ends paging. */
  method FetchNearby(stream: seq<Attempt<Reply>>, from: nat, location: Location, radius: nat, keyword: string, maxPages: nat)
    returns (outcome: PagedEnd, next: nat, requests: seq<Params>)
    ensures var run := Fetch(stream, from, location, radius, keyword, maxPages);
      outcome == run.outcome && next == run.next && requests == run.requests
  {
    var first := NearbySearch(location, radius, keyword);
    var params := first;
    var allResults: seq<Place> := [];
    var nextToken: Option<string> := None;
    ghost var pages: seq<Reply> := [];
    ghost var whole := Fetch(stream, from, location, radius, keyword, maxPages);
    next := from;
    requests := [];
    for round := 0 to maxPages
      invariant Truthy(nextToken) <==> round > 0
      invariant round == 0 ==> params == first
      invariant var rest := PagedLoop(stream, true, next, round, maxPages, nextToken, first, allResults, requests, pages);
        whole.outcome == rest.outcome && whole.next == rest.next && whole.requests == rest.requests
    {
      if Truthy(nextToken) {
        params := PageToken(nextToken.value);
      }
      ghost var step := PageStep(stream, next, Truthy(nextToken));
      var attempt := At(stream, next);
      next := next + 1;
      if attempt.Answered? && IsStatus(attempt.reply, INVALID_REQUEST) && Truthy(nextToken) {
        attempt := At(stream, next);
        next := next + 1;
      }
      assert step == Step(attempt, next);
      requests := requests + [params];
      if attempt.Failed? {
        return NetworkError, next, requests;
      }
      var data := attempt.reply;
      if !Acceptable(data) {
        return StatusError(data.status), next, requests;
      }
      allResults := allResults + data.results;
      pages := pages + [data];
      nextToken := data.nextPageToken;
      if !Truthy(nextToken) {
        return Results(allResults), next, requests;
      }
    }
    outcome := Results(allResults);
  }
}
