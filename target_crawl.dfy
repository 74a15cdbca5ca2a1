/** The per-city crawl of the target-capped crawler: the seen-set is seeded
    with the city's stored ids, grid points are visited until it reaches the
    target, a point whose fetch reports a bad status is skipped, and the new
    places of each point are upserted. */
module TargetCrawl {
  import opened Places
  import opened Table
  import Dedup
  import TargetFetch

  const TARGET_PER_CITY := 1000
  const MAX_PAGES := 3
  const KEYWORD := "restaurant"

  /** What one grid point did. `Aborted` is an exception the loop does not
      catch, which ends the run. */
  datatype PointEnd = Stored(newPlaces: seq<Place>) | Skipped | Aborted

  /** How the loop over a city's grid points ended. */
  datatype CityEnd = TargetReached | GridExhausted | NetworkAborted

  // ------------------------------------------------------- specification

  /** What one grid point leaves: how it ended, the stream cursor after its
      requests, and the seen-set afterwards. */
  datatype Visit = Visit(end: PointEnd, next: nat, seen: set<string>)

  /** Reference definition of one grid point, fetched from stream position
      `cur`: the capped new places against the seen-set join it; a status
      error or a network failure leaves it as it was. */
  function VisitAt(stream: seq<Attempt<Reply>>, radius: nat, cur: nat, location: Location, target: nat, seen: set<string>): Visit
  {
    var run := TargetFetch.Fetch(stream, cur, location, radius, KEYWORD, MAX_PAGES);
    match run.outcome
    case NetworkError => Visit(Aborted, run.next, seen)
    case StatusError(_) => Visit(Skipped, run.next, seen)
    case Results(results) =>
      var newPlaces := Dedup.Capped(seen, results, target);
      Visit(Stored(newPlaces), run.next, seen + Ids(newPlaces))
  }

  /** The upsert calls after a point: one more, stamped `stamp`, when the
      point stored new places. */
  function NextBatches(batches: seq<Batch>, v: Visit, stamp: nat): (bs: seq<Batch>)
    ensures v.end.Stored? && v.end.newPlaces != [] ==> bs == batches + [Batch(stamp, v.end.newPlaces)]
    ensures !(v.end.Stored? && v.end.newPlaces != []) ==> bs == batches
  {
    if v.end.Stored? && v.end.newPlaces != [] then batches + [Batch(stamp, v.end.newPlaces)] else batches
  }

  /** The loop's state after point `visited`, whose visit was `v`: the
      stream cursor and the seen-set it left, one more upsert call, stamped
      `stamp`, if it stored new places, and the point counted as visited (and
      as skipped on a status error). `outcome` says whether the point gave up
      on the network. */
  function AfterVisit(v: Visit, batches: seq<Batch>, stamp: nat, visited: nat, skipped: nat): CityRun
  {
    CityRun(if v.end.Aborted? then NetworkAborted else GridExhausted, v.next, v.seen,
            NextBatches(batches, v, stamp), visited + 1, if v.end.Skipped? then skipped + 1 else skipped)
  }

  /** How a city's crawl ends: the outcome, the stream cursor, the seen-set,
      the upsert calls made, in order, the points whose fetch was started and
      those of them that were skipped. */
  datatype CityRun = CityRun(outcome: CityEnd, next: nat, seen: set<string>, batches: seq<Batch>, visited: nat, skipped: nat)

  /** Reference definition of the loop over a city's grid points, from point
      `visited` on, after the upsert calls `batches`: the target is tested
      against the seen-set before each point, a point with new places makes
      an upsert call stamped `clock` plus its index, a skipped point is
      counted and the loop goes on, a network failure ends it. */
  function CrawlFrom(stream: seq<Attempt<Reply>>, radius: nat, cur: nat, points: seq<Location>, clock: nat, target: nat,
                     seen: set<string>, batches: seq<Batch>, visited: nat, skipped: nat): CityRun
    requires visited <= |points|
    decreases |points| - visited
  {
    if visited == |points| then CityRun(GridExhausted, cur, seen, batches, visited, skipped)
    else if |seen| >= target then CityRun(TargetReached, cur, seen, batches, visited, skipped)
    else
      var r := AfterVisit(VisitAt(stream, radius, cur, points[visited], target, seen), batches, PointStamp(clock, visited), visited, skipped);
      if r.outcome == NetworkAborted then r
      else CrawlFrom(stream, radius, r.next, points, clock, target, r.seen, r.batches, r.visited, r.skipped)
  }

  /** The whole crawl of one city, from stream position `from`, with the
      seen-set seeded with `seen`. */
  function Crawl(stream: seq<Attempt<Reply>>, radius: nat, from: nat, points: seq<Location>, clock: nat, target: nat,
                 seen: set<string>): CityRun
  {
    CrawlFrom(stream, radius, from, points, clock, target, seen, [], 0, 0)
  }

  /** The size of the seen-set when each point that the crawl from point
      `visited` on fetches is reached, in order. */
  function SeenSizesFrom(stream: seq<Attempt<Reply>>, radius: nat, cur: nat, points: seq<Location>, clock: nat, target: nat,
                         seen: set<string>, batches: seq<Batch>, visited: nat, skipped: nat): seq<nat>
    requires visited <= |points|
    decreases |points| - visited
  {
    if visited == |points| || |seen| >= target then []
    else
      var r := AfterVisit(VisitAt(stream, radius, cur, points[visited], target, seen), batches, PointStamp(clock, visited), visited, skipped);
      [|seen|] + if r.outcome == NetworkAborted then []
                 else SeenSizesFrom(stream, radius, r.next, points, clock, target, r.seen, r.batches, r.visited, r.skipped)
  }

  /** How the whole run ends: the cities reached, whether a network failure
      ended it, the stream cursor and the keyed rows. */
  datatype Run = Run(reached: nat, aborted: bool, next: nat, rows: map<Key, Row>)

  /** Reference definition of the loop over the cities, from city `reached`
      on: each is crawled with its seen-set seeded from the rows the
      previous ones left, and its upsert calls are applied to them; the
      stamps run on across cities. */
  function RunFrom(stream: seq<Attempt<Reply>>, cur: nat, cities: seq<City>, stamp: nat, rows: map<Key, Row>, reached: nat): Run
    requires reached <= |cities|
    decreases |cities| - reached
  {
    if reached == |cities| then Run(reached, false, cur, rows)
    else
      var c := cities[reached];
      var r := Crawl(stream, c.radius, cur, c.points, stamp, TARGET_PER_CITY, StoredIds(rows, c.name));
      var after := ApplyBatches(rows, c.name, r.batches, VicinityFirst);
      if r.outcome == NetworkAborted then Run(reached + 1, true, r.next, after)
      else RunFrom(stream, r.next, cities, ClockAfter(stamp, c), after, reached + 1)
  }

  // ------------------------------------------------------- properties

  /** A point that only adds new ids: when it stores, the new places carry
      accepted ids outside the seen-set, which grows by exactly them (no more
      than to the target when it was below it); otherwise it is unchanged. */
  predicate FreshVisit(seen: set<string>, target: nat, v: Visit) {
    && (!v.end.Stored? ==> v.seen == seen)
    && (v.end.Stored? ==>
          && (forall j :: 0 <= j < |v.end.newPlaces| ==>
                HasId(v.end.newPlaces[j]) && v.end.newPlaces[j].placeId.value !in seen)
          && Ids(v.end.newPlaces) !! seen
          && v.seen == seen + Ids(v.end.newPlaces)
          && |v.seen| == |seen| + |v.end.newPlaces|
          && (|seen| < target ==> |v.seen| <= target))
  }

  /** Every grid point only adds new ids. */
  lemma VisitSpec(stream: seq<Attempt<Reply>>, radius: nat, cur: nat, location: Location, target: nat, seen: set<string>)
    ensures FreshVisit(seen, target, VisitAt(stream, radius, cur, location, target, seen))
  {
    var run := TargetFetch.Fetch(stream, cur, location, radius, KEYWORD, MAX_PAGES);
    if run.outcome.Results? {
      Dedup.CappedFacts(seen, run.outcome.places, target);
    }
  }

  /** How a city's crawl from point `visited` on ends: the counters only
      grow and the newly skipped points are among the newly visited ones; a
      grid exhausted means every point was visited, the target reached means
      a point was left and the seen-set is at the target; the seen-set only
      grows, and does not pass the target when it started at most at it. */
  lemma {:induction false} CrawlFromCounts(stream: seq<Attempt<Reply>>, radius: nat, cur: nat, points: seq<Location>, clock: nat, target: nat,
                                           seen: set<string>, batches: seq<Batch>, visited: nat, skipped: nat)
    requires skipped <= visited <= |points|
    ensures var r := CrawlFrom(stream, radius, cur, points, clock, target, seen, batches, visited, skipped);
      && visited <= r.visited <= |points|
      && skipped <= r.skipped && r.skipped - skipped <= r.visited - visited
      && (r.outcome == GridExhausted ==> r.visited == |points|)
      && (r.outcome == TargetReached ==> r.visited < |points| && |r.seen| >= target)
      && (r.outcome == NetworkAborted ==> r.visited > visited)
      && seen <= r.seen
      && (|seen| <= target ==> |r.seen| <= target)
    decreases |points| - visited
  {
    if visited < |points| && |seen| < target {
      var r := AfterVisit(VisitAt(stream, radius, cur, points[visited], target, seen), batches, PointStamp(clock, visited), visited, skipped);
      VisitSpec(stream, radius, cur, points[visited], target, seen);
      if r.outcome != NetworkAborted {
        CrawlFromCounts(stream, radius, r.next, points, clock, target, r.seen, r.batches, r.visited, r.skipped);
      }
    }
  }

  /** Every point the crawl fetches is reached with the seen-set below the
      target: one size per visited point, none below the starting size, and
      the sizes never shrink from one point to the next. */
  lemma {:induction false} SeenSizesBelowTarget(stream: seq<Attempt<Reply>>, radius: nat, cur: nat, points: seq<Location>, clock: nat,
                                                target: nat, seen: set<string>, batches: seq<Batch>, visited: nat, skipped: nat)
    requires visited <= |points|
    ensures var r := CrawlFrom(stream, radius, cur, points, clock, target, seen, batches, visited, skipped);
      var sizes := SeenSizesFrom(stream, radius, cur, points, clock, target, seen, batches, visited, skipped);
      && visited + |sizes| == r.visited
      && (forall i :: 0 <= i < |sizes| ==> |seen| <= sizes[i] < target)
      && (forall i, j :: 0 <= i <= j < |sizes| ==> sizes[i] <= sizes[j])
    decreases |points| - visited
  {
    if visited < |points| && |seen| < target {
      var v := VisitAt(stream, radius, cur, points[visited], target, seen);
      var r := AfterVisit(v, batches, PointStamp(clock, visited), visited, skipped);
      VisitSpec(stream, radius, cur, points[visited], target, seen);
      assert seen <= r.seen;
      if r.outcome != NetworkAborted {
        SeenSizesBelowTarget(stream, radius, r.next, points, clock, target, r.seen, r.batches, r.visited, r.skipped);
        var rest := SeenSizesFrom(stream, radius, r.next, points, clock, target, r.seen, r.batches, r.visited, r.skipped);
        var sizes := [|seen|] + rest;
        assert sizes == SeenSizesFrom(stream, radius, cur, points, clock, target, seen, batches, visited, skipped);
        forall i | 0 < i < |sizes|
          ensures |seen| <= sizes[i] < target && sizes[0] <= sizes[i]
        {
          assert sizes[i] == rest[i - 1];
        }
        forall i, j | 0 < i <= j < |sizes|
          ensures sizes[i] <= sizes[j]
        {
          assert sizes[i] == rest[i - 1] && sizes[j] == rest[j - 1];
        }
      }
    }
  }

  /** A point that only adds new ids keeps a crawl's invariant. */
  lemma VisitTracks(rows: map<Key, Row>, city: string, batches: seq<Batch>, seen: set<string>, target: nat, v: Visit, stamp: nat)
    requires Tracks(rows, city, batches, seen)
    requires FreshVisit(seen, target, v)
    ensures Tracks(rows, city, NextBatches(batches, v, stamp), v.seen)
  {
    if v.end.Stored? && v.end.newPlaces != [] {
      FreshBatchTracks(rows, city, batches, seen, Batch(stamp, v.end.newPlaces));
    }
  }

  // ------------------------------------------------------- the crawler

  /** `if new_places: upsert_places(...)` for places that all carry an
      accepted id: those ids join the city's stored ids. */
  method StoreNew(table: RestaurantTable, city: string, newPlaces: seq<Place>, stamp: nat)
    requires forall j :: 0 <= j < |newPlaces| ==> HasId(newPlaces[j])
    modifies table
    ensures table.rows == UpsertAll(old(table.rows), city, newPlaces, VicinityFirst, stamp)
    ensures table.ExistingIds(city) == old(table.ExistingIds(city)) + Ids(newPlaces)
    ensures old(table.rows).Keys <= table.rows.Keys
    ensures table.unkeyed == old(table.unkeyed)
    ensures forall k: Key :: k.city != city ==> Lookup(table.rows, k) == Lookup(old(table.rows), k)
  {
    if newPlaces != [] {
      UpsertAllCityKeys(table.rows, city, newPlaces, VicinityFirst, stamp);
      var ok := table.UpsertPlaces(city, newPlaces, stamp);
    }
  }

  /** One grid point of the city loop (its body after the target test): the
      fetch, the capped filter against the seen-set, and the upsert. A status
      error is caught and leaves the seen-set and the table as they were. */
  method VisitPoint(table: RestaurantTable, stream: seq<Attempt<Reply>>, from: nat, city: string, seen: set<string>,
                    location: Location, radius: nat, stamp: nat, target: nat)
    returns (end: PointEnd, next: nat, seenAfter: set<string>)
    requires seen == table.ExistingIds(city)
    modifies table
    ensures Visit(end, next, seenAfter) == VisitAt(stream, radius, from, location, target, seen)
    ensures end.Stored? ==> table.rows == UpsertAll(old(table.rows), city, end.newPlaces, VicinityFirst, stamp)
    ensures var run := TargetFetch.Fetch(stream, from, location, radius, KEYWORD, MAX_PAGES);
      && next == run.next
      && (end.Skipped? <==> run.outcome.StatusError?)
      && (end.Aborted? <==> run.outcome.NetworkError?)
      && (end.Stored? <==> run.outcome.Results?)
      && (end.Stored? ==> end.newPlaces == Dedup.Capped(seen, run.outcome.places, target))
    ensures !end.Stored? ==> seenAfter == seen && table.rows == old(table.rows)
    ensures end.Stored? ==>
      && (forall j :: 0 <= j < |end.newPlaces| ==> HasId(end.newPlaces[j]) && end.newPlaces[j].placeId.value !in seen)
      && |seenAfter| == |seen| + |end.newPlaces|
      && (|seen| < target ==> |seenAfter| <= target)
    ensures seenAfter == seen + (if end.Stored? then Ids(end.newPlaces) else {})
    ensures seenAfter == table.ExistingIds(city)
    ensures forall k :: k in old(table.rows) ==> k in table.rows && table.rows[k] == old(table.rows)[k]
    ensures table.unkeyed == old(table.unkeyed)
    ensures forall k: Key :: k.city != city ==> Lookup(table.rows, k) == Lookup(old(table.rows), k)
  {
    var fetched, requests;
    fetched, next, requests := TargetFetch.FetchNearby(stream, from, location, radius, KEYWORD, MAX_PAGES);
    match fetched
    case NetworkError =>
      return Aborted, next, seen;
    case StatusError(_) =>
      return Skipped, next, seen;
    case Results(results) =>
      var newPlaces;
      newPlaces, seenAfter := StorePoint(table, city, seen, results, stamp, target);
      end := Stored(newPlaces);
  }

  /** A point's results: the capped filter against the seen-set, then the
      upsert of the new places. */
  method StorePoint(table: RestaurantTable, city: string, seen: set<string>, results: seq<Place>, stamp: nat, target: nat)
    returns (newPlaces: seq<Place>, seenAfter: set<string>)
    requires seen == table.ExistingIds(city)
    modifies table
    ensures newPlaces == Dedup.Capped(seen, results, target)
    ensures table.rows == UpsertAll(old(table.rows), city, newPlaces, VicinityFirst, stamp)
    ensures forall j :: 0 <= j < |newPlaces| ==> HasId(newPlaces[j]) && newPlaces[j].placeId.value !in seen
    ensures |seenAfter| == |seen| + |newPlaces|
    ensures |seen| < target ==> |seenAfter| <= target
    ensures seenAfter == seen + Ids(newPlaces)
    ensures seenAfter == table.ExistingIds(city)
    ensures forall k :: k in old(table.rows) ==> k in table.rows && table.rows[k] == old(table.rows)[k]
    ensures table.unkeyed == old(table.unkeyed)
    ensures forall k: Key :: k.city != city ==> Lookup(table.rows, k) == Lookup(old(table.rows), k)
  {
    newPlaces, seenAfter := Dedup.FilterNewCapped(seen, results, target);
    Dedup.CappedFacts(seen, results, target);
    UpsertAllFresh(table.rows, city, newPlaces, VicinityFirst, stamp);
    StoreNew(table, city, newPlaces, stamp);
  }

  /** A point's visit together with the upsert call it makes, as one more
      entry of the city's list of upsert calls. */
  method VisitAndRecord(table: RestaurantTable, stream: seq<Attempt<Reply>>, from: nat, city: string, seen: set<string>,
                        location: Location, radius: nat, stamp: nat, target: nat, ghost rows0: map<Key, Row>, ghost done: seq<Batch>)
    returns (end: PointEnd, next: nat, seenAfter: set<string>, ghost doneAfter: seq<Batch>)
    requires seen == table.ExistingIds(city)
    requires table.rows == ApplyBatches(rows0, city, done, VicinityFirst)
    modifies table
    ensures Visit(end, next, seenAfter) == VisitAt(stream, radius, from, location, target, seen)
    ensures doneAfter == NextBatches(done, Visit(end, next, seenAfter), stamp)
    ensures table.rows == ApplyBatches(rows0, city, doneAfter, VicinityFirst)
    ensures seenAfter == table.ExistingIds(city)
    ensures table.unkeyed == old(table.unkeyed)
    ensures forall k :: k in old(table.rows) ==> k in table.rows && table.rows[k] == old(table.rows)[k]
    ensures forall k: Key :: k.city != city ==> Lookup(table.rows, k) == Lookup(old(table.rows), k)
  {
    end, next, seenAfter := VisitPoint(table, stream, from, city, seen, location, radius, stamp, target);
    if end.Stored? && end.newPlaces != [] {
      ApplyBatchesSnoc(rows0, city, done, Batch(stamp, end.newPlaces), VicinityFirst);
    }
    doneAfter := NextBatches(done, Visit(end, next, seenAfter), stamp);
  }

  /** One pass of the loop of `main` for one city: the target test, then the
      visit of point `visited`. `stop` says that the loop ends here, with
      `outcome`; otherwise the rest of the crawl is unchanged. */
  method CityStep(table: RestaurantTable, stream: seq<Attempt<Reply>>, city: string, points: seq<Location>, radius: nat,
                  clock: nat, target: nat, next: nat, seen: set<string>, visited: nat, skipped: nat,
                  ghost rows0: map<Key, Row>, ghost done: seq<Batch>)
    returns (stop: bool, outcome: CityEnd, next': nat, seen': set<string>, visited': nat, skipped': nat,
             ghost done': seq<Batch>, ghost v: Visit)
    requires skipped <= visited < |points|
    requires seen == table.ExistingIds(city)
    requires table.rows == ApplyBatches(rows0, city, done, VicinityFirst)
    modifies table
    ensures visited <= visited' <= visited + 1
    ensures !stop ==> visited' == visited + 1 && skipped' <= visited'
    ensures |seen| >= target ==> stop && CityRun(outcome, next', seen', done', visited', skipped')
                                         == CityRun(TargetReached, next, seen, done, visited, skipped)
    ensures |seen| < target ==>
      && v == VisitAt(stream, radius, next, points[visited], target, seen)
      && (stop <==> outcome == NetworkAborted)
      && CityRun(outcome, next', seen', done', visited', skipped') == AfterVisit(v, done, PointStamp(clock, visited), visited, skipped)
    ensures seen' == table.ExistingIds(city)
    ensures table.rows == ApplyBatches(rows0, city, done', VicinityFirst)
    ensures table.unkeyed == old(table.unkeyed)
    ensures forall k :: k in old(table.rows) ==> k in table.rows && table.rows[k] == old(table.rows)[k]
    ensures forall k: Key :: k.city != city ==> Lookup(table.rows, k) == Lookup(old(table.rows), k)
  {
    if |seen| >= target {
      v := Visit(Skipped, next, seen);
      return true, TargetReached, next, seen, visited, skipped, done, v;
    }
    var end;
    end, next', seen', done' := VisitAndRecord(table, stream, next, city, seen, points[visited], radius, PointStamp(clock, visited), target, rows0, done);
    v := Visit(end, next', seen');
    visited' := visited + 1;
    stop := end.Aborted?;
    outcome := if stop then NetworkAborted else GridExhausted;
    skipped' := if end.Skipped? then skipped + 1 else skipped;
  }

  /** The loop of `main` for one city: the seen-set starts as the city's stored
      ids, the target is tested before each point, and point i's new places
      are stored at logical time `clock + i`. `visited` counts the points
      whose fetch was started and `skipped` those that reported a bad
      status. */
  method CrawlCity(table: RestaurantTable, stream: seq<Attempt<Reply>>, from: nat, city: string,
                   points: seq<Location>, radius: nat, clock: nat, target: nat)
    returns (outcome: CityEnd, next: nat, seen: set<string>, visited: nat, skipped: nat)
    modifies table
    ensures var r := Crawl(stream, radius, from, points, clock, target, old(table.ExistingIds(city)));
      && outcome == r.outcome && next == r.next && seen == r.seen && visited == r.visited && skipped == r.skipped
      && table.rows == ApplyBatches(old(table.rows), city, r.batches, VicinityFirst)
    ensures skipped <= visited <= |points|
    ensures outcome == GridExhausted ==> visited == |points|
    ensures outcome == TargetReached ==> visited < |points| && |seen| >= target
    ensures outcome == NetworkAborted ==> visited > 0
    // every point fetched was reached with fewer than `target` ids seen
    ensures var sizes := SeenSizesFrom(stream, radius, from, points, clock, target, old(table.ExistingIds(city)), [], 0, 0);
      |sizes| == visited && forall i :: 0 <= i < |sizes| ==> sizes[i] < target
    ensures |old(table.ExistingIds(city))| >= target && |points| > 0 ==>
      outcome == TargetReached && visited == 0 && next == from && table.rows == old(table.rows)
    ensures seen == table.ExistingIds(city)
    ensures old(table.ExistingIds(city)) <= seen
    ensures |old(table.ExistingIds(city))| <= target ==> |seen| <= target
    ensures forall k :: k in old(table.rows) ==> k in table.rows && table.rows[k] == old(table.rows)[k]
    ensures table.unkeyed == old(table.unkeyed)
    ensures forall k: Key :: k.city != city ==> Lookup(table.rows, k) == Lookup(old(table.rows), k)
  {
    seen := table.ExistingIds(city);
    ghost var whole := Crawl(stream, radius, from, points, clock, target, seen);
    ghost var done: seq<Batch> := [];
    outcome, next, visited, skipped := GridExhausted, from, 0, 0;
    while visited < |points|
      invariant skipped <= visited <= |points|
      invariant outcome == GridExhausted
      invariant seen == table.ExistingIds(city)
      invariant CrawlFrom(stream, radius, next, points, clock, target, seen, done, visited, skipped) == whole
      invariant table.rows == ApplyBatches(old(table.rows), city, done, VicinityFirst)
      invariant table.unkeyed == old(table.unkeyed)
      invariant forall k :: k in old(table.rows) ==> k in table.rows && table.rows[k] == old(table.rows)[k]
      invariant forall k: Key :: k.city != city ==> Lookup(table.rows, k) == Lookup(old(table.rows), k)
    {
      var stop, end;
      ghost var v;
      stop, end, next, seen, visited, skipped, done, v :=
        CityStep(table, stream, city, points, radius, clock, target, next, seen, visited, skipped, old(table.rows), done);
      if stop {
        outcome := end;
        break;
      }
    }
    CrawlFromCounts(stream, radius, from, points, clock, target, old(table.ExistingIds(city)), [], 0, 0);
    SeenSizesBelowTarget(stream, radius, from, points, clock, target, old(table.ExistingIds(city)), [], 0, 0);
  }

  /** The loop of `main` over the cities, in order, each crawled from the
      store's current state; a network failure ends the whole run. `reached`
      counts the cities whose crawl started, and point stamps run on across
      cities. */
  method CrawlAll(table: RestaurantTable, stream: seq<Attempt<Reply>>, from: nat, cities: seq<City>, clock: nat)
    returns (reached: nat, aborted: bool, next: nat)
    modifies table
    ensures Run(reached, aborted, next, table.rows) == RunFrom(stream, from, cities, clock, old(table.rows), 0)
    ensures reached <= |cities|
    ensures !aborted ==> reached == |cities|
    ensures aborted ==> reached > 0
    ensures forall k :: k in old(table.rows) ==> k in table.rows
    ensures table.unkeyed == old(table.unkeyed)
    // the rows of a city the run did not reach are untouched
    ensures forall k: Key :: (forall c :: 0 <= c < reached ==> cities[c].name != k.city) ==>
      Lookup(table.rows, k) == Lookup(old(table.rows), k)
  {
    ghost var whole := RunFrom(stream, from, cities, clock, table.rows, 0);
    reached, aborted, next := 0, false, from;
    var stamp: nat := clock;
    while reached < |cities|
      invariant reached <= |cities|
      invariant RunFrom(stream, next, cities, stamp, table.rows, reached) == whole
      invariant forall k :: k in old(table.rows) ==> k in table.rows
      invariant table.unkeyed == old(table.unkeyed)
      invariant forall k: Key :: (forall c :: 0 <= c < reached ==> cities[c].name != k.city) ==>
        Lookup(table.rows, k) == Lookup(old(table.rows), k)
    {
      var city := cities[reached];
      ghost var r := Crawl(stream, city.radius, next, city.points, stamp, TARGET_PER_CITY, StoredIds(table.rows, city.name));
      var outcome, n, seen, visited, skipped := CrawlCity(table, stream, next, city.name, city.points, city.radius, stamp, TARGET_PER_CITY);
      next := n;
      reached := reached + 1;
      stamp := ClockAfter(stamp, city);
      if outcome == NetworkAborted {
        aborted := true;
        return;
      }
    }
  }
}
