/** The text-search exporter: for each city, `fetch_text_search` pages through
    the Text Search results with no retry at all, and `upsert_restaurants`
    writes them keyed by (city, place_id). Any exception ends the run. */
module TextSearch {
  import opened Places
  import opened Table
  import opened Paging

  const MAX_PAGES := 3

  function Search(stream: seq<Attempt<Reply>>, from: nat, query: string, maxPages: nat): PagedRun {
    Paged(stream, false, from, maxPages, TextSearch(query))
  }

  /** At most `max_pages` requests, one attempt each; the first is the Text
      Search and each later one carries only the previous page's token; the
      results are the pages' results in page order; paging stops at the
      first page without a token; any status other than OK or ZERO_RESULTS
      raises. */
  lemma SearchSpec(stream: seq<Attempt<Reply>>, from: nat, query: string, maxPages: nat)
    ensures var run := Search(stream, from, query, maxPages);
      && PagedPromise(run, TextSearch(query), maxPages)
      && run.next == from + |run.requests|
  {
    PagedSpec(stream, false, from, maxPages, TextSearch(query));
  }

  /** `fetch_text_search` as the source writes it. */
  method FetchTextSearch(stream: seq<Attempt<Reply>>, from: nat, query: string, maxPages: nat)
    returns (outcome: PagedEnd, next: nat, requests: seq<Params>)
    ensures var run := Search(stream, from, query, maxPages);
      outcome == run.outcome && next == run.next && requests == run.requests
  {
    var first := TextSearch(query);
    var params := first;
    var allResults: seq<Place> := [];
    var nextPageToken: Option<string> := None;
    ghost var pages: seq<Reply> := [];
    ghost var whole := Search(stream, from, query, maxPages);
    next := from;
    requests := [];
    for page := 0 to maxPages
      invariant Truthy(nextPageToken) <==> page > 0
      invariant page == 0 ==> params == first
      invariant var rest := PagedLoop(stream, false, next, page, maxPages, nextPageToken, first, allResults, requests, pages);
        whole.outcome == rest.outcome && whole.next == rest.next && whole.requests == rest.requests
    {
      if Truthy(nextPageToken) {
        params := PageToken(nextPageToken.value);
      }
      var attempt := At(stream, next);
      next := next + 1;
      requests := requests + [params];
      if attempt.Failed? {
        return NetworkError, next, requests;
      }
      var data := attempt.reply;
      if !Acceptable(data) {
        return StatusError(data.status), next, requests;
      }
      allResults := allResults + data.results;
      pages := pages + [data];
      nextPageToken := data.nextPageToken;
      if !Truthy(nextPageToken) {
        return Results(allResults), next, requests;
      }
    }
    outcome := Results(allResults);
  }

  /** The query `main` sends for a city. */
  function Query(cityQuery: string): string {
    "restaurants in " + cityQuery
  }

  /** One city of `main`: fetch, then upsert everything fetched. A fetch that
      raises writes nothing; `stored` is false when it raised or when a
      result without a place_id made the upsert fail. */
  method ExportCity(table: RestaurantTable, stream: seq<Attempt<Reply>>, from: nat, city: string, cityQuery: string, stamp: nat)
    returns (stored: bool, next: nat)
    modifies table
    ensures var run := Search(stream, from, Query(cityQuery), MAX_PAGES);
      && next == run.next
      && (stored <==> run.outcome.Results? && AllKeyed(run.outcome.places))
      && (stored ==> table.rows == UpsertAll(old(table.rows), city, run.outcome.places, FormattedFirst, stamp))
    ensures !stored ==> table.rows == old(table.rows)
    ensures old(table.rows).Keys <= table.rows.Keys
    ensures table.unkeyed == old(table.unkeyed)
  {
    var outcome, requests;
    outcome, next, requests := FetchTextSearch(stream, from, Query(cityQuery), MAX_PAGES);
    if !outcome.Results? {
      return false, next;
    }
    UpsertAllKeys(table.rows, city, outcome.places, FormattedFirst, stamp);
    stored := table.UpsertRestaurants(city, outcome.places, stamp);
  }

  /** The logical time at which city `i` of a run that started at `clock`
      is stored: one tick per city. */
  function CityStamp(clock: nat, i: nat): nat { clock + i }

  /** How the run over the cities ends: the cities attempted, whether one of
      them raised, the stream cursor and the keyed rows. */
  datatype Export = Export(done: nat, failed: bool, next: nat, rows: map<Key, Row>)

  /** Reference definition of the loop of `main` from city `done` on: each
      city's Text Search continues from the cursor the previous one left;
      results that all carry a place_id are upserted, and any other outcome
      (a raised fetch, or an upsert that violates the key constraint) ends
      the run with that city counted and nothing written for it. */
  function ExportFrom(stream: seq<Attempt<Reply>>, cur: nat, cities: seq<(string, string)>, clock: nat,
                      rows: map<Key, Row>, done: nat): Export
    requires done <= |cities|
    decreases |cities| - done
  {
    if done == |cities| then Export(done, false, cur, rows)
    else
      var run := Search(stream, cur, Query(cities[done].1), MAX_PAGES);
      if run.outcome.Results? && AllKeyed(run.outcome.places) then
        ExportFrom(stream, run.next, cities, clock,
                   UpsertAll(rows, cities[done].0, run.outcome.places, FormattedFirst, CityStamp(clock, done)), done + 1)
      else Export(done + 1, true, run.next, rows)
  }

  /** What the run promises: it attempts at most every city, a run without a
      failure attempted all of them, a failure is charged to a city it
      attempted, and no stored key is ever removed. */
  lemma {:induction false} ExportFromFacts(stream: seq<Attempt<Reply>>, cur: nat, cities: seq<(string, string)>, clock: nat,
                                           rows: map<Key, Row>, done: nat)
    requires done <= |cities|
    ensures var r := ExportFrom(stream, cur, cities, clock, rows, done);
      && done <= r.done <= |cities|
      && (!r.failed ==> r.done == |cities|)
      && (r.failed ==> r.done > done)
      && rows.Keys <= r.rows.Keys
    decreases |cities| - done
  {
    if done < |cities| {
      var run := Search(stream, cur, Query(cities[done].1), MAX_PAGES);
      if run.outcome.Results? && AllKeyed(run.outcome.places) {
        var rows' := UpsertAll(rows, cities[done].0, run.outcome.places, FormattedFirst, CityStamp(clock, done));
        UpsertAllKeys(rows, cities[done].0, run.outcome.places, FormattedFirst, CityStamp(clock, done));
        ExportFromFacts(stream, run.next, cities, clock, rows', done + 1);
      }
    }
  }

  /** The loop of `main` over the configured (city, query) pairs; city i is
      stored at logical time `clock + i`. The run ends at the first city whose
      fetch or upsert raised; `done` counts the cities attempted. */
  method ExportAll(table: RestaurantTable, stream: seq<Attempt<Reply>>, from: nat, cities: seq<(string, string)>, clock: nat)
    returns (done: nat, failed: bool, next: nat)
    modifies table
    ensures Export(done, failed, next, table.rows) == ExportFrom(stream, from, cities, clock, old(table.rows), 0)
    ensures done <= |cities|
    ensures !failed ==> done == |cities|
    ensures failed ==> done > 0
    ensures old(table.rows).Keys <= table.rows.Keys
    ensures table.unkeyed == old(table.unkeyed)
  {
    ghost var whole := ExportFrom(stream, from, cities, clock, table.rows, 0);
    next, done, failed := from, 0, false;
    while done < |cities|
      invariant done <= |cities|
      invariant ExportFrom(stream, next, cities, clock, table.rows, done) == whole
      invariant old(table.rows).Keys <= table.rows.Keys
      invariant table.unkeyed == old(table.unkeyed)
    {
      var (city, cityQuery) := cities[done];
      var stored;
      stored, next := ExportCity(table, stream, next, city, cityQuery, CityStamp(clock, done));
      done := done + 1;
      if !stored {
        return done, true, next;
      }
    }
  }
}
