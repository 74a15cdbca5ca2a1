/** The per-city crawl of the plateau crawler: each grid point's Nearby Search
    results are filtered against the city's seen-set, the new places are
    stored, and the plateau detector decides when the city is done. */
module PlateauCrawl {
  import opened Places
  import opened Table
  import opened Plateau
  import Dedup
  import PlateauFetch

  const KEYWORD := "restaurant"

  /** How the loop over a city's grid points ended. `NetworkAborted` is a
      `safe_get` that gave up: its RuntimeError is not caught and ends the run. */
  datatype CityEnd = GridExhausted | PlateauReached | NetworkAborted

  // ------------------------------------------------------- specification

  /** Where the loop stood when it reached a grid point: the stream position
      its fetch starts from and the seen-set its results are filtered
      against. */
  datatype Probe = Probe(start: nat, seen: set<string>)

  /** A grid point at `location`, reached at `at`, was fully processed: its
      fetch did not give up, its new places are the results whose ids are
      not seen yet (first occurrence only), `count` counts them, `batch` is
      their upsert, stamped `stamp`, and the loop then stands at `after`,
      past the fetch's requests and with those ids seen. */
  predicate PointTraced(stream: seq<Attempt<Reply>>, radius: nat, location: Location, stamp: nat,
                        at: Probe, count: nat, batch: Batch, after: Probe)
  {
    var run := PlateauFetch.Nearby(stream, at.start, location, radius, KEYWORD);
    && run.outcome.Fetched?
    && var newPlaces := Dedup.Fresh(at.seen, run.outcome.results);
       && count == |newPlaces|
       && batch == Batch(stamp, newPlaces)
       && after == Probe(run.next, at.seen + Ids(newPlaces))
  }

  /** The record of a city's crawl over the points that `counts` covers:
      point i was reached at `probes[i]` and processed from there to
      `probes[i + 1]`, with new-place count `counts[i]` and upsert
      `batches[i]`, stamped for point i. */
  predicate Traced(stream: seq<Attempt<Reply>>, radius: nat, clock: nat, points: seq<Location>,
                   probes: seq<Probe>, counts: seq<nat>, batches: seq<Batch>)
  {
    && |probes| == |counts| + 1 && |batches| == |counts| && |counts| <= |points|
    && forall i :: 0 <= i < |counts| ==>
         PointTraced(stream, radius, points[i], PointStamp(clock, i), probes[i], counts[i], batches[i], probes[i + 1])
  }

  /** The record of one city's crawl within the run: the stream position and
      logical time it started at, the keyed rows it started from, how its
      loop ended, the stream position it left, and its per-point record. */
  datatype CityVisit = CityVisit(start: nat, clock: nat, rows: map<Key, Row>, outcome: CityEnd, next: nat,
                                 probes: seq<Probe>, counts: seq<nat>, batches: seq<Batch>)

  /** City `c` was crawled as `v` records: every counted point is traced from
      the stream position and the ids stored for the city when it started,
      the loop ended on a fetch that gave up, on the first plateau stop or at
      the end of the grid, and `v.next` is where it left the stream. */
  predicate CityCrawled(stream: seq<Attempt<Reply>>, c: City, v: CityVisit) {
    && Traced(stream, c.radius, v.clock, c.points, v.probes, v.counts, v.batches)
    && v.probes[0] == Probe(v.start, StoredIds(v.rows, c.name))
    && (v.outcome == NetworkAborted ==>
          && |v.counts| < |c.points|
          && var run := PlateauFetch.Nearby(stream, v.probes[|v.counts|].start, c.points[|v.counts|], c.radius, KEYWORD);
             run.outcome.NetworkGaveUp? && v.next == run.next)
    && (v.outcome != NetworkAborted ==> v.probes[|v.counts|].start == v.next)
    && (v.outcome == GridExhausted ==> |v.counts| == |c.points|)
    && (v.outcome == PlateauReached ==> |v.counts| >= EARLIEST_STOP && StopsFirst(v.counts))
    && (v.outcome != PlateauReached ==> NeverStopped(v.counts))
  }

  /** The keyed rows city `c`'s crawl `v` leaves: its upserts applied in
      order to the rows it started from. */
  function RowsAfter(c: City, v: CityVisit): map<Key, Row> {
    ApplyBatches(v.rows, c.name, v.batches, VicinityFirst)
  }

  /** City `c`'s crawl `v` left the stream at `next`, the clock at `clock`
      and the keyed rows as `rows`. */
  predicate LeftAt(c: City, v: CityVisit, next: nat, clock: nat, rows: map<Key, Row>) {
    next == v.next && clock == ClockAfter(v.clock, c) && rows == RowsAfter(c, v)
  }

  /** The next city starts where city `c`'s crawl `v` left off, and `v` did
      not end the run. */
  predicate HandsOver(c: City, v: CityVisit, w: CityVisit) {
    v.outcome != NetworkAborted && LeftAt(c, v, w.start, w.clock, w.rows)
  }

  /** The first `|visits|` cities were crawled in order as `visits` records,
      the first from stream position `from`, time `clock` and rows `rows`,
      each later one from where the one before left off. */
  predicate RunTraced(stream: seq<Attempt<Reply>>, from: nat, clock: nat, rows: map<Key, Row>,
                      cities: seq<City>, visits: seq<CityVisit>)
  {
    && |visits| <= |cities|
    && (|visits| > 0 ==> visits[0].start == from && visits[0].clock == clock && visits[0].rows == rows)
    && (forall i :: 0 <= i < |visits| ==> CityCrawled(stream, cities[i], visits[i]))
    && (forall i :: 0 <= i < |visits| - 1 ==> HandsOver(cities[i], visits[i], visits[i + 1]))
  }

  // ------------------------------------------------------- properties

  /** A record grows by one fully processed point. */
  lemma TracedStep(stream: seq<Attempt<Reply>>, radius: nat, clock: nat, points: seq<Location>,
                   probes: seq<Probe>, counts: seq<nat>, batches: seq<Batch>, count: nat, batch: Batch, after: Probe)
    requires Traced(stream, radius, clock, points, probes, counts, batches)
    requires |counts| < |points|
    requires PointTraced(stream, radius, points[|counts|], PointStamp(clock, |counts|), probes[|counts|], count, batch, after)
    ensures Traced(stream, radius, clock, points, probes + [after], counts + [count], batches + [batch])
  {
    var probes', counts', batches' := probes + [after], counts + [count], batches + [batch];
    forall i | 0 <= i < |counts'|
      ensures PointTraced(stream, radius, points[i], PointStamp(clock, i), probes'[i], counts'[i], batches'[i], probes'[i + 1])
    {
      if i < |counts| {
        assert probes'[i] == probes[i] && probes'[i + 1] == probes[i + 1];
        assert counts'[i] == counts[i] && batches'[i] == batches[i];
      }
    }
  }

  /** One point's processing is determined by where the loop reached it. */
  lemma PointDetermined(stream: seq<Attempt<Reply>>, radius: nat, location: Location, stamp: nat, at: Probe,
                        count: nat, batch: Batch, after: Probe, count': nat, batch': Batch, after': Probe)
    requires PointTraced(stream, radius, location, stamp, at, count, batch, after)
    requires PointTraced(stream, radius, location, stamp, at, count', batch', after')
    ensures count == count' && batch == batch' && after == after'
  {
  }

  /** The record is determined by the stream: two records of a crawl that
      started at the same place agree on every point both cover. */
  lemma TracedDetermined(stream: seq<Attempt<Reply>>, radius: nat, clock: nat, points: seq<Location>,
                         probes: seq<Probe>, counts: seq<nat>, batches: seq<Batch>,
                         probes': seq<Probe>, counts': seq<nat>, batches': seq<Batch>)
    requires Traced(stream, radius, clock, points, probes, counts, batches)
    requires Traced(stream, radius, clock, points, probes', counts', batches')
    requires probes[0] == probes'[0]
    requires |counts| <= |counts'|
    ensures forall i :: 0 <= i < |probes| ==> probes[i] == probes'[i]
    ensures forall i :: 0 <= i < |counts| ==> counts[i] == counts'[i] && batches[i] == batches'[i]
  {
    forall i | 0 <= i < |probes|
      ensures probes[i] == probes'[i]
    {
      ProbesAgree(stream, radius, clock, points, probes, counts, batches, probes', counts', batches', i);
    }
    forall i | 0 <= i < |counts|
      ensures counts[i] == counts'[i] && batches[i] == batches'[i]
    {
      ProbesAgree(stream, radius, clock, points, probes, counts, batches, probes', counts', batches', i);
      PointDetermined(stream, radius, points[i], PointStamp(clock, i), probes[i],
                      counts[i], batches[i], probes[i + 1], counts'[i], batches'[i], probes'[i + 1]);
    }
  }

  lemma {:induction false} ProbesAgree(stream: seq<Attempt<Reply>>, radius: nat, clock: nat, points: seq<Location>,
                                       probes: seq<Probe>, counts: seq<nat>, batches: seq<Batch>,
                                       probes': seq<Probe>, counts': seq<nat>, batches': seq<Batch>, n: nat)
    requires Traced(stream, radius, clock, points, probes, counts, batches)
    requires Traced(stream, radius, clock, points, probes', counts', batches')
    requires probes[0] == probes'[0]
    requires n <= |counts| <= |counts'|
    ensures probes[n] == probes'[n]
  {
    if n > 0 {
      ProbesAgree(stream, radius, clock, points, probes, counts, batches, probes', counts', batches', n - 1);
      PointDetermined(stream, radius, points[n - 1], PointStamp(clock, n - 1), probes[n - 1],
                      counts[n - 1], batches[n - 1], probes[n], counts'[n - 1], batches'[n - 1], probes'[n]);
    }
  }

  /** What the record says about the store: when the crawl started with the
      city's stored ids as its seen-set, applying the first `n` upserts in
      order keeps every stored row and leaves other cities alone, the stored
      ids are then the seen-set at point `n`, and that set grew by exactly
      the counted new places. */
  lemma {:induction false} TracedTracks(stream: seq<Attempt<Reply>>, radius: nat, clock: nat, points: seq<Location>,
                                        probes: seq<Probe>, counts: seq<nat>, batches: seq<Batch>,
                                        rows: map<Key, Row>, city: string, n: nat)
    requires Traced(stream, radius, clock, points, probes, counts, batches)
    requires probes[0].seen == StoredIds(rows, city)
    requires n <= |counts|
    ensures Tracks(rows, city, batches[..n], probes[n].seen)
    ensures |probes[n].seen| == |probes[0].seen| + Sum(counts[..n])
  {
    if n == 0 {
      assert batches[..0] == [] && counts[..0] == [];
    } else {
      assert batches[..n] == batches[..n - 1] + [batches[n - 1]];
      assert counts[..n] == counts[..n - 1] + [counts[n - 1]];
      TracedTracks(stream, radius, clock, points, probes, counts, batches, rows, city, n - 1);
      var at := probes[n - 1];
      assert PointTraced(stream, radius, points[n - 1], PointStamp(clock, n - 1), at, counts[n - 1], batches[n - 1], probes[n]);
      var run := PlateauFetch.Nearby(stream, at.start, points[n - 1], radius, KEYWORD);
      Dedup.FreshFacts(at.seen, run.outcome.results);
      Dedup.SeenSize(at.seen, run.outcome.results);
      FreshBatchTracks(rows, city, batches[..n - 1], at.seen, batches[n - 1]);
      SumStep(counts[..n - 1], counts[n - 1]);
    }
  }

  /** A run record grows by one more city crawled from where the last one
      left off. */
  lemma RunTracedStep(stream: seq<Attempt<Reply>>, from: nat, clock: nat, rows: map<Key, Row>,
                      cities: seq<City>, visits: seq<CityVisit>, v: CityVisit)
    requires RunTraced(stream, from, clock, rows, cities, visits)
    requires |visits| < |cities|
    requires CityCrawled(stream, cities[|visits|], v)
    requires |visits| == 0 ==> v.start == from && v.clock == clock && v.rows == rows
    requires |visits| > 0 ==> HandsOver(cities[|visits| - 1], visits[|visits| - 1], v)
    ensures RunTraced(stream, from, clock, rows, cities, visits + [v])
  {
    var visits' := visits + [v];
    forall i | 0 <= i < |visits'|
      ensures CityCrawled(stream, cities[i], visits'[i])
    {
      if i < |visits| {
        assert visits'[i] == visits[i];
      }
    }
    forall i | 0 <= i < |visits'| - 1
      ensures HandsOver(cities[i], visits'[i], visits'[i + 1])
    {
      assert visits'[i] == visits[i];
      if i + 1 < |visits| {
        assert visits'[i + 1] == visits[i + 1];
      }
    }
  }

  // ------------------------------------------------------- the crawler

  /** The loop of `main` for one city over its grid points, recorded in
      `probes` and `batches` (see `Traced`). `counts` are the per-point
      new-place counts, in order, for the points fully processed; `seen` is
      the seen-set at the end. A fetch that gives up ends the loop with the
      point uncounted. */
  method CrawlCity(table: RestaurantTable, stream: seq<Attempt<Reply>>, from: nat, city: string,
                   points: seq<Location>, radius: nat, clock: nat)
    returns (outcome: CityEnd, next: nat, counts: seq<nat>, seen: set<string>, ghost probes: seq<Probe>, ghost batches: seq<Batch>)
    modifies table
    // each counted point was fetched where the previous one left the stream,
    // and counts the ids its results added to the seen-set
    ensures Traced(stream, radius, clock, points, probes, counts, batches)
    ensures probes[0] == Probe(from, old(table.ExistingIds(city)))
    // the loop stops on a fetch that gave up, on the plateau, or at the grid's end
    ensures outcome == NetworkAborted ==>
      && |counts| < |points|
      && var run := PlateauFetch.Nearby(stream, probes[|counts|].start, points[|counts|], radius, KEYWORD);
         run.outcome.NetworkGaveUp? && next == run.next && seen == probes[|counts|].seen
    ensures outcome != NetworkAborted ==> probes[|counts|] == Probe(next, seen)
    ensures outcome == GridExhausted ==> |counts| == |points|
    // the detector is exactly the replay of the counts, and the loop ends at
    // the first point where it stops
    ensures outcome == PlateauReached ==>
      |counts| >= EARLIEST_STOP && StopsFirst(counts)
    ensures outcome != PlateauReached ==> NeverStopped(counts)
    // what is written: the upserts of the new places, in order
    ensures table.rows == ApplyBatches(old(table.rows), city, batches, VicinityFirst)
    // the seen-set is always exactly the place_ids stored for the city
    ensures seen == table.ExistingIds(city)
    ensures old(table.ExistingIds(city)) <= seen
    ensures |seen| == |old(table.ExistingIds(city))| + Sum(counts)
    // storing never overwrites a stored row, never writes a keyless row,
    // and leaves other cities alone
    ensures forall k :: k in old(table.rows) ==> k in table.rows && table.rows[k] == old(table.rows)[k]
    ensures table.unkeyed == old(table.unkeyed)
    ensures forall k: Key :: k.city != city ==> Lookup(table.rows, k) == Lookup(old(table.rows), k)
  {
    seen := table.ExistingIds(city);
    ghost var seed := seen;
    var recent: seq<nat> := [];
    var stableHits: nat := 0;
    var pointsDone: nat := 0;
    counts := [];
    next := from;
    probes, batches := [Probe(from, seen)], [];
    outcome := GridExhausted;
    var i := 0;
    while i < |points|
      invariant i == |counts| <= |points|
      invariant outcome == GridExhausted
      invariant Traced(stream, radius, clock, points, probes, counts, batches)
      invariant probes[0] == Probe(from, seed) && probes[i] == Probe(next, seen)
      invariant seen == table.ExistingIds(city)
      invariant seed <= seen && |seen| == |seed| + Sum(counts)
      invariant Detector(recent, stableHits, pointsDone) == Replay(counts)
      invariant NeverStopped(counts)
      invariant table.rows == ApplyBatches(old(table.rows), city, batches, VicinityFirst)
      invariant table.unkeyed == old(table.unkeyed)
      invariant forall k :: k in old(table.rows) ==> k in table.rows && table.rows[k] == old(table.rows)[k]
      invariant forall k: Key :: k.city != city ==> Lookup(table.rows, k) == Lookup(old(table.rows), k)
    {
      var stop, end;
      stop, end, next, seen, counts, recent, stableHits, pointsDone, probes, batches :=
        CityStep(table, stream, city, points, radius, clock, next, seen, counts, recent, stableHits, pointsDone,
                 old(table.rows), seed, probes, batches);
      if stop {
        outcome := end;
        return;
      }
      i := i + 1;
    }
  }

  /** One pass of the loop of `main` for one city: the fetch of point
      `|counts|`, the filter against the seen-set, the insert and the
      detector update. `stop` says that the loop ends here, with `outcome`. */
  method CityStep(table: RestaurantTable, stream: seq<Attempt<Reply>>, city: string, points: seq<Location>, radius: nat,
                  clock: nat, next: nat, seen: set<string>, counts: seq<nat>, recent: seq<nat>, stableHits: nat, pointsDone: nat,
                  ghost rows0: map<Key, Row>, ghost seed: set<string>, ghost probes: seq<Probe>, ghost batches: seq<Batch>)
    returns (stop: bool, outcome: CityEnd, next': nat, seen': set<string>, counts': seq<nat>,
             recent': seq<nat>, stableHits': nat, pointsDone': nat, ghost probes': seq<Probe>, ghost batches': seq<Batch>)
    requires |counts| < |points|
    requires Traced(stream, radius, clock, points, probes, counts, batches)
    requires probes[|counts|] == Probe(next, seen)
    requires seen == table.ExistingIds(city)
    requires seed <= seen && |seen| == |seed| + Sum(counts)
    requires Detector(recent, stableHits, pointsDone) == Replay(counts)
    requires NeverStopped(counts)
    requires table.rows == ApplyBatches(rows0, city, batches, VicinityFirst)
    modifies table
    ensures stop <==> outcome != GridExhausted
    ensures outcome == NetworkAborted ==>
      && counts' == counts && probes' == probes && batches' == batches && seen' == seen
      && var run := PlateauFetch.Nearby(stream, next, points[|counts|], radius, KEYWORD);
         run.outcome.NetworkGaveUp? && next' == run.next
    ensures outcome != NetworkAborted ==>
      && |counts'| == |counts| + 1 && counts'[..|counts|] == counts
      && Traced(stream, radius, clock, points, probes', counts', batches')
      && probes'[|counts'|] == Probe(next', seen')
    ensures outcome == PlateauReached ==>
      |counts'| >= EARLIEST_STOP && StopsFirst(counts')
    ensures outcome != PlateauReached ==> NeverStopped(counts')
    ensures |probes'| > 0 && probes'[0] == probes[0]
    ensures Detector(recent', stableHits', pointsDone') == Replay(counts')
    ensures seen' == table.ExistingIds(city)
    ensures seed <= seen' && |seen'| == |seed| + Sum(counts')
    ensures table.rows == ApplyBatches(rows0, city, batches', VicinityFirst)
    ensures table.unkeyed == old(table.unkeyed)
    ensures forall k :: k in old(table.rows) ==> k in table.rows && table.rows[k] == old(table.rows)[k]
    ensures forall k: Key :: k.city != city ==> Lookup(table.rows, k) == Lookup(old(table.rows), k)
  {
    var i := |counts|;
    var fetched, requests;
    fetched, next', requests := PlateauFetch.FetchNearby(stream, next, points[i], radius, KEYWORD);
    if fetched.NetworkGaveUp? {
      return true, NetworkAborted, next', seen, counts, recent, stableHits, pointsDone, probes, batches;
    }
    var newCount;
    ghost var batch;
    seen', newCount, batch := StorePoint(table, city, seen, fetched.results, PointStamp(clock, i));
    ApplyBatchesSnoc(rows0, city, batches, batch, VicinityFirst);
    TracedStep(stream, radius, clock, points, probes, counts, batches, newCount, batch, Probe(next', seen'));
    probes', batches' := probes + [Probe(next', seen')], batches + [batch];
    SumStep(counts, newCount);
    counts', recent', stableHits', pointsDone', stop := CountPoint(counts, recent, stableHits, pointsDone, newCount);
    outcome := if stop then PlateauReached else GridExhausted;
  }

  /** The detector's view of one more point with `newCount` new places: the
      counts grow by it, the detector stays the replay of the counts, and
      when it stops this is the first point where it does. */
  method CountPoint(counts: seq<nat>, recent: seq<nat>, stableHits: nat, pointsDone: nat, newCount: nat)
    returns (counts': seq<nat>, recent': seq<nat>, stableHits': nat, pointsDone': nat, stop: bool)
    requires Detector(recent, stableHits, pointsDone) == Replay(counts)
    requires NeverStopped(counts)
    ensures counts' == counts + [newCount]
    ensures Detector(recent', stableHits', pointsDone') == Replay(counts')
    ensures stop ==> |counts'| >= EARLIEST_STOP && StopsFirst(counts')
    ensures !stop ==> NeverStopped(counts')
  {
    counts' := counts + [newCount];
    ReplayStep(counts, newCount);
    recent', stableHits', pointsDone', stop := ObservePoint(recent, stableHits, pointsDone, newCount);
    assert counts'[..|counts'| - 1] == counts;
    if stop {
      NoEarlyStop(counts');
    }
  }

  /** The detector update of `main` after one point with `newCount` new
      places, on the integer form of the average test; `stop` is the
      plateau `break`. */
  method ObservePoint(recent: seq<nat>, stableHits: nat, pointsDone: nat, newCount: nat)
    returns (recent': seq<nat>, stableHits': nat, pointsDone': nat, stop: bool)
    ensures Detector(recent', stableHits', pointsDone') == Observe(Detector(recent, stableHits, pointsDone), newCount)
    ensures stop == Stops(Detector(recent', stableHits', pointsDone'))
  {
    recent', stableHits', pointsDone' := recent, stableHits, pointsDone + 1;
    stop := false;
    if pointsDone' == MIN_POINTS_BEFORE_PLATEAU {
      recent' := [];
      stableHits' := 0;
    }
    recent' := Push(recent', newCount);
    if |recent'| == WINDOW {
      if pointsDone' < MIN_POINTS_BEFORE_PLATEAU {
        stableHits' := 0;
      } else {
        if LowYield(recent') {
          stableHits' := stableHits' + 1;
        } else {
          stableHits' := 0;
        }
        if stableHits' >= STABLE_WINDOWS {
          stop := true;
        }
      }
    }
  }

  lemma ReplayStep(counts: seq<nat>, x: nat)
    ensures Replay(counts + [x]) == Observe(Replay(counts), x)
  {
    assert (counts + [x])[..|counts|] == counts;
  }

  lemma SumStep(counts: seq<nat>, x: nat)
    ensures Sum(counts + [x]) == Sum(counts) + x
  {
    assert (counts + [x])[..|counts|] == counts;
  }

  /** One grid point's results: the new places are split off against the
      seen-set and, if there are any, stored in one upsert, `batch`. The
      seen-set stays exactly the city's stored ids and grows by the number
      of new places. */
  method StorePoint(table: RestaurantTable, city: string, seen: set<string>, results: seq<Place>, stamp: nat)
    returns (seenAfter: set<string>, newCount: nat, ghost batch: Batch)
    requires seen == table.ExistingIds(city)
    modifies table
    ensures batch == Batch(stamp, Dedup.Fresh(seen, results))
    ensures newCount == |batch.places| == |Ids(results) - seen|
    ensures seenAfter == seen + Ids(batch.places) == seen + Ids(results)
    ensures |seenAfter| == |seen| + newCount
    ensures table.rows == UpsertAll(old(table.rows), city, batch.places, VicinityFirst, stamp)
    ensures seenAfter == table.ExistingIds(city)
    ensures forall k :: k in old(table.rows) ==> k in table.rows && table.rows[k] == old(table.rows)[k]
    ensures table.unkeyed == old(table.unkeyed)
    ensures forall k: Key :: k.city != city ==> Lookup(table.rows, k) == Lookup(old(table.rows), k)
  {
    var newPlaces;
    newPlaces, seenAfter := Dedup.FilterNew(seen, results);
    Dedup.SeenSize(seen, results);
    newCount := |newPlaces|;
    batch := Batch(stamp, newPlaces);
    UpsertAllFresh(table.rows, city, newPlaces, VicinityFirst, stamp);
    StoreNew(table, city, newPlaces, stamp);
  }

  /** `if new_places: insert_places(...)` for places that all carry an
      accepted id: the rows become the upsert of the batch, and those ids
      join the city's stored ids. */
  method StoreNew(table: RestaurantTable, city: string, newPlaces: seq<Place>, stamp: nat)
    requires forall j :: 0 <= j < |newPlaces| ==> HasId(newPlaces[j])
    modifies table
    ensures table.rows == UpsertAll(old(table.rows), city, newPlaces, VicinityFirst, stamp)
    ensures table.ExistingIds(city) == old(table.ExistingIds(city)) + Ids(newPlaces)
    ensures old(table.rows).Keys <= table.rows.Keys
    ensures table.unkeyed == old(table.unkeyed)
    ensures forall k: Key :: k.city != city ==> Lookup(table.rows, k) == Lookup(old(table.rows), k)
  {
    if newPlaces != [] {
      UpsertAllCityKeys(table.rows, city, newPlaces, VicinityFirst, stamp);
      NoNullKeys(newPlaces, VicinityFirst, stamp);
      var written := table.InsertPlaces(city, newPlaces, stamp);
    }
  }

  /** Every row of a city none of the first `n` cities names is the same in
      both. */
  ghost predicate UntouchedBeyond(before: map<Key, Row>, after: map<Key, Row>, cities: seq<City>, n: nat) {
    forall k: Key :: (forall c :: 0 <= c < n && c < |cities| ==> cities[c].name != k.city) ==>
      Lookup(after, k) == Lookup(before, k)
  }

  /** Crawling city `n`, which leaves other cities alone, keeps the rows of
      every city beyond the first `n + 1`. */
  lemma UntouchedStep(before: map<Key, Row>, mid: map<Key, Row>, after: map<Key, Row>, cities: seq<City>, n: nat)
    requires n < |cities|
    requires UntouchedBeyond(before, mid, cities, n)
    requires OthersUntouched(mid, after, cities[n].name)
    ensures UntouchedBeyond(before, after, cities, n + 1)
  {
    forall k: Key | forall c :: 0 <= c < n + 1 && c < |cities| ==> cities[c].name != k.city
      ensures Lookup(after, k) == Lookup(before, k)
    {
      assert cities[n].name != k.city;
    }
  }

  /** The loop of `main` over the cities, in order, each crawled from the
      store's current state; a network failure ends the whole run. `reached`
      counts the cities whose crawl started, `visits` records their crawls,
      and point stamps run on across cities. */
  method CrawlAll(table: RestaurantTable, stream: seq<Attempt<Reply>>, from: nat, cities: seq<City>, clock: nat)
    returns (reached: nat, aborted: bool, next: nat, ghost visits: seq<CityVisit>)
    modifies table
    ensures RunTraced(stream, from, clock, old(table.rows), cities, visits) && |visits| == reached
    ensures reached == 0 ==> next == from && table.rows == old(table.rows)
    ensures reached > 0 ==>
      next == visits[reached - 1].next && table.rows == RowsAfter(cities[reached - 1], visits[reached - 1])
    // the run ends early exactly when the last city reached gave up on the network
    ensures aborted <==> reached > 0 && visits[reached - 1].outcome == NetworkAborted
    ensures !aborted ==> reached == |cities|
    ensures old(table.rows).Keys <= table.rows.Keys
    ensures table.unkeyed == old(table.unkeyed)
    // the rows of a city the run did not reach are untouched
    ensures UntouchedBeyond(old(table.rows), table.rows, cities, reached)
  {
    reached, aborted, next := 0, false, from;
    visits := [];
    var stamp: nat := clock;
    while reached < |cities|
      invariant reached <= |cities| && |visits| == reached
      invariant RunTraced(stream, from, clock, old(table.rows), cities, visits)
      invariant reached == 0 ==> next == from && stamp == clock && table.rows == old(table.rows)
      invariant reached > 0 ==> visits[reached - 1].outcome != NetworkAborted
      invariant reached > 0 ==> LeftAt(cities[reached - 1], visits[reached - 1], next, stamp, table.rows)
      invariant old(table.rows).Keys <= table.rows.Keys
      invariant table.unkeyed == old(table.unkeyed)
      invariant UntouchedBeyond(old(table.rows), table.rows, cities, reached)
    {
      ghost var v;
      ghost var mid := table.rows;
      aborted, next, stamp, v := CityTurn(table, stream, cities[reached], next, stamp);
      UntouchedStep(old(table.rows), mid, table.rows, cities, reached);
      RunTracedStep(stream, from, clock, old(table.rows), cities, visits, v);
      visits := visits + [v];
      reached := reached + 1;
      if aborted {
        return;
      }
    }
  }

  /** One city of the loop of `main`: its crawl from stream position `from`
      and logical time `clock`, recorded as `v`; `aborted` says that it gave
      up on the network, which ends the run. */
  method CityTurn(table: RestaurantTable, stream: seq<Attempt<Reply>>, city: City, from: nat, clock: nat)
    returns (aborted: bool, next: nat, clockAfter: nat, ghost v: CityVisit)
    modifies table
    ensures CityCrawled(stream, city, v)
    ensures v.start == from && v.clock == clock && v.rows == old(table.rows)
    ensures LeftAt(city, v, next, clockAfter, table.rows)
    ensures aborted <==> v.outcome == NetworkAborted
    ensures old(table.rows).Keys <= table.rows.Keys
    ensures table.unkeyed == old(table.unkeyed)
    ensures OthersUntouched(old(table.rows), table.rows, city.name)
  {
    var outcome, counts, seen;
    ghost var probes, batches;
    outcome, next, counts, seen, probes, batches := CrawlCity(table, stream, from, city.name, city.points, city.radius, clock);
    v := CityVisit(from, clock, old(table.rows), outcome, next, probes, counts, batches);
    clockAfter := ClockAfter(clock, city);
    aborted := outcome == NetworkAborted;
  }
}
