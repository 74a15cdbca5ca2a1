# Google Places restaurant crawlers, modelled in Dafny

The repository gathers restaurants per city from the Google Places web
service into one SQLite table, `restaurants`, keyed by `(city, place_id)`.
Four scripts make up its core:

- **the plateau crawler** (`export_google_places_plateau.py`) walks a grid of
  points over each city. At each point it runs a Nearby Search of up to three
  pages. Every HTTP request goes through `safe_get`, which retries network
  errors with a capped exponential backoff. The crawler keeps the places
  whose `place_id` the city has not stored yet and inserts them. It stops a
  city once the number of new places per point has plateaued: a sliding
  window of 50 per-point counts, a warm-up reset at point 80, and 5
  consecutive low-yield windows.
- **the target-capped crawler** (`export_google_places_1000_per_city.py`)
  walks the same kind of grid. It uses a plainer Nearby Search (one request
  per page, one repeat of an INVALID_REQUEST page-token request) and stops a
  city once 1000 place ids are known for it. A bad status skips the point; a
  network error ends the run.
- **the text-search exporter** (`export_google_places_to_sqlite.py`) fetches up
  to three pages of a Text Search per city and upserts them.
- **the postal-code filler** (`fill_zip_from_place_details.py`) runs a Place
  Details request for every stored row that still lacks a postal code. Its
  retry loop handles rate limiting (OVER_QUERY_LIMIT) and network errors. It
  updates the row and commits every 200 rows. Too many rate-limit hits stop
  the run, and everything since the last commit is lost.

## How the model is built

- **The table** is the class `Table.RestaurantTable`. Its keyed rows are a
  `map<Key, Row>`. A second field holds the rows with a NULL `place_id`,
  which the plateau crawler's nullable key columns allow.
- **The three upserts** are specified by `Table.UpsertAll`. It applies
  `INSERT ... ON CONFLICT DO UPDATE` row by row, in batch order.
- **The web service** is an oracle: a sequence of attempts, each a decoded
  reply or a failure (`Places.Attempt`). Every operation reads it from a
  cursor and returns the cursor's new position. Attempts past the end fail,
  which models the network going away.
- **Timestamps** are logical clock values passed in as parameters.
- **Each looping operation is a method proved against a function.**
  `SafeGet` is proved against `SafeGetSpec`, `FetchNearby` against
  `Nearby`/`Paged`, `FillRow` against `Row`, `ObservePoint` against
  `Observe`/`Replay`, `FilterNew` against `Fresh` and `FillAll` against `Row` (one run per row,
  chained through the stream) and
  `Applied`. The source's promises are then proved about each function as
  lemmas.

## Model

| member | source | states |
|---|---|---|
| `Places.IdsMember` | src/export_google_places_plateau.py:266-271 | An id is among the accepted ids of a result list exactly when some result carries it as a non-empty place_id. |
| `Dedup.FreshFacts` | src/export_google_places_plateau.py:266-271 | Every new place carries an accepted id that was not seen before. No two new places share an id. Their ids are exactly the result ids that were not seen. |
| `Dedup.FreshCount` | src/export_google_places_plateau.py:266-271 | The number of new places is the number of distinct unseen ids in the results. |
| `Dedup.SeenSize` | src/export_google_places_plateau.py:266-271 | The seen-set grows by exactly the number of new places. |
| `Dedup.FreshPrefix` | src/export_google_places_1000_per_city.py:205-216 | The new places of a prefix of the results are a prefix of the new places of the whole list, so stopping the scan early only truncates. |
| `Dedup.FilterNew` | src/export_google_places_plateau.py:266-271 | The filtering loop yields the reference list of new places, in result order. Each has an unseen id and they are pairwise distinct. The seen-set afterwards is the old one plus every accepted id of the results. The count of new places is the number of distinct unseen ids. |
| `Dedup.FilterNewCapped` | src/export_google_places_1000_per_city.py:205-216 | The capped loop takes a prefix of the reference new places. Its length is min(available, max(1, target - seen)). The seen-set grows by exactly that many. It never passes the target when it started below it. |
| `Table.SetDetails` | src/fill_zip_from_place_details.py:102-108 | The UPDATE keeps the key set and changes only the matching row: its postal code, its `formatted_address` column (the Details address) and its details timestamp. The crawler's own `address` is left as it was. A missing key changes nothing. |
| `Table.UpsertAllKeys` | src/export_google_places_plateau.py:105-122 | After the upsert the keys are the old keys plus the batch's keys. Nothing is removed. |
| `Table.UpsertAllUntouched` | src/export_google_places_1000_per_city.py:77-96 | A key the batch does not name keeps its row. |
| `Table.UpsertAllKeepsDetails` | src/export_google_places_1000_per_city.py:84-95 | The upsert never sets the postal code, the Details address or the details timestamp. An existing row keeps them and a new row gets them empty. |
| `Table.UpsertAllLastWins` | src/export_google_places_plateau.py:147-149 | When a batch names a key twice, the last candidate with that key decides the stored descriptive columns. |
| `Table.UpsertAllIdempotent` | src/export_google_places_to_sqlite.py:98-117 | Upserting the same batch again gives the same table as upserting it once at the later time. |
| `Table.UpsertAllCityKeys` | src/export_google_places_1000_per_city.py:57-98 | A batch of candidates that all carry an id adds exactly those ids to the city's keys, removes none and leaves other cities' rows alone. |
| `Table.NoNullKeys` | src/export_google_places_plateau.py:124-151 | Such a batch adds no keyless row. |
| `Table.RestaurantTable.ExistingIds` | src/export_google_places_plateau.py:100-103 | The result holds exactly the place_ids stored for the city. |
| `Table.RestaurantTable.InsertPlaces` | src/export_google_places_plateau.py:124-151 | An empty batch writes nothing and reports 0. Otherwise the keyed rows become the row-by-row upsert of the batch (vicinity before formatted_address), keyless candidates are appended as new rows, and one change per candidate is reported. |
| `Table.RestaurantTable.UpsertPlaces` | src/export_google_places_1000_per_city.py:57-98 | A batch whose candidates all have a place_id is upserted (vicinity before formatted_address). Otherwise the NOT NULL constraint fails and the table is left unchanged. |
| `Table.RestaurantTable.UpsertRestaurants` | src/export_google_places_to_sqlite.py:77-119 | As `UpsertPlaces`, with formatted_address before vicinity. |
| `Plateau.LowYieldIsLowAverage` | src/export_google_places_plateau.py:283-297 | The integer test `2 * sum < len` is the source's real-valued test `avg_new < 0.5`. |
| `Plateau.ReplayWindow` | src/export_google_places_plateau.py:277-284 | After n points the detector has counted n points. Its window is exactly the last 50 counts, never reaching back before point 80 once point 80 is past. |
| `Plateau.WindowBounds` | src/export_google_places_plateau.py:283-284 | The window holds at most 50 counts and is never empty after the first point, so the average is always defined. |
| `Plateau.WindowAfterWarmUp` | src/export_google_places_plateau.py:279-284 | From point 80 on, the window holds only counts of point 80 onwards. |
| `Plateau.StableHitsIsLowRun` | src/export_google_places_plateau.py:293-301 | The stable-window counter equals an independently defined run length: the consecutive low-yield full windows after the warm-up that end at the current point. It is 0 throughout the warm-up. |
| `Plateau.LowRunBound` | src/export_google_places_plateau.py:293-301 | The run of low-yield windows cannot be longer than the number of full post-warm-up windows seen. |
| `Plateau.StopsIffLowRun` | src/export_google_places_plateau.py:293-304 | The detector stops exactly when five consecutive full post-warm-up windows were low-yield. Both directions are proved. |
| `Plateau.NoEarlyStop` | src/export_google_places_plateau.py:277-304 | No city stops on a plateau before point 133 (80 + 50 - 1 + 5 - 1). |
| `Plateau.ZeroYieldStopsAt133` | src/export_google_places_plateau.py:277-304 | A city that yields nothing new is stopped from point 133 on, and not before. |
| `Plateau.HighYieldNeverStops` | src/export_google_places_plateau.py:293-304 | If no full post-warm-up window averages below 0.5, the detector never stops. |
| `Plateau.AlternatingNeverStops` | src/export_google_places_plateau.py:297 | Counts alternating 0, 1 average exactly 0.5 and never stop the city, because the test is strict. |
| `Plateau.NeverStoppedPrefixes` | src/export_google_places_plateau.py:263-304 | "Never stopped" holds of a count sequence exactly when no non-empty prefix of it leaves the detector stopped. |
| `PlateauCrawl.TracedStep` | src/export_google_places_plateau.py:263-275 | A record of processed points grows by one point whose fetch did not give up, whose new places are the unseen first occurrences of its results and whose upsert is stamped for its index. |
| `PlateauCrawl.TracedDetermined` | src/export_google_places_plateau.py:263-275 | The per-point record is a function of the stream. Two records of a city crawl that started at the same stream position and seen-set agree on every point both cover: the same stream positions, seen-sets, counts and upserts. |
| `PlateauCrawl.TracedTracks` | src/export_google_places_plateau.py:252-275 | When the seen-set started as the city's stored ids, applying the first n recorded upserts keeps every stored row, leaves other cities alone and makes the stored ids exactly the seen-set at point n. That set grew by exactly the sum of the first n counts. |
| `PlateauCrawl.ObservePoint` | src/export_google_places_plateau.py:277-304 | The in-place detector update is one step of `Observe`, and `stop` is exactly the plateau condition of the new state. |
| `PlateauCrawl.CountPoint` | src/export_google_places_plateau.py:277-304 | One more point keeps the detector equal to the replay of all counts so far. A stop happens at point 133 at the earliest and is the first stop of the city; otherwise the detector has never stopped. |
| `PlateauCrawl.StoreNew` | src/export_google_places_plateau.py:273-275 | Storing new places that all carry ids makes the rows the upsert of that batch (vicinity first) and adds exactly their ids to the city's stored ids. It adds no keyless row and leaves other cities alone. |
| `PlateauCrawl.StorePoint` | src/export_google_places_plateau.py:266-275 | The upsert batch is the unseen first occurrences of the results, in order, and the rows become its upsert. The new-place count is the number of distinct unseen ids. The seen-set becomes the old one plus the result ids and stays equal to the city's stored ids. Stored rows are kept. |
| `PlateauCrawl.CityStep` | src/export_google_places_plateau.py:263-304 | One point: a fetch that gives up stops the city and changes nothing. Otherwise the record grows by exactly this point (its count, upsert and new stream position), the rows are the recorded upserts applied in order, and the step stops exactly when the detector stops for the first time. |
| `PlateauCrawl.CrawlCity` | src/export_google_places_plateau.py:252-306 | Point i's results are the `fetch_nearby` run at the stream position point i-1 left, and `counts[i]` is its number of ids not seen before. The rows are the recorded upserts applied in order, and stored rows are kept. A network abort happens exactly when the fetch of point `|counts|` gave up. A plateau stop comes at the first point where the replayed detector stops, never before point 133; otherwise it never stopped, and a normal end processed every point. The seen-set stays exactly the city's stored ids and grows by the sum of the counts. Other cities are untouched. |
| `PlateauCrawl.CityTurn` | src/export_google_places_plateau.py:251-306 | One city's turn: its record is a full city crawl that started at the given stream position and clock, seeded from the rows as found. It leaves the stream where that crawl ended, the clock advanced by the city's point count and the rows equal to the crawl's upserts applied in order. It aborts exactly when that crawl gave up on the network. No key is removed and other cities are untouched. |
| `PlateauCrawl.RunTracedStep` | src/export_google_places_plateau.py:251-306 | A run record of the first cities grows by one city crawl that starts where the last recorded city left the stream, clock and rows, provided the last city did not abort. |
| `PlateauCrawl.CrawlAll` | src/export_google_places_plateau.py:251-306 | Every city reached has a record, in the order of the cities. The first starts at the given stream position, clock and rows; each next one starts exactly where the previous one left the stream, clock and rows. The final rows are those the last city left. The run aborts exactly when the last city reached gave up on the network, and no earlier city did; otherwise every city is reached. No key is removed, no keyless row is added, and cities not reached are untouched. |
| `PlateauFetch.SafeGetGivesUpIff` | src/export_google_places_plateau.py:53-68 | `safe_get` raises exactly when all of its attempts fail, and then it has made all of them. |
| `PlateauFetch.SafeGetFirstAnswer` | src/export_google_places_plateau.py:53-68 | `safe_get` makes at most max_tries attempts. A response is the first answered attempt, and every attempt before it failed. |
| `PlateauFetch.SafeGet` | src/export_google_places_plateau.py:53-68 | The retry loop computes `SafeGetSpec`. It sleeps after every failed attempt i, the last included, for min(2^i, 30) seconds without the jitter. |
| `PlateauFetch.PageNoRetryWhenAcceptable` | src/export_google_places_plateau.py:190-213 | A page whose first reply is OK or ZERO_RESULTS is not requested again. |
| `PlateauFetch.PageAttempts` | src/export_google_places_plateau.py:190-230 | One page iteration makes at most three `safe_get` calls, so at most 18 attempts. |
| `PlateauFetch.FetchPage` | src/export_google_places_plateau.py:186-221 | The page iteration's requests (the INVALID_REQUEST repeat while paging and the UNKNOWN_ERROR repeat) compute `PageSpec`. |
| `PlateauFetch.NearbyLoopCounts` | src/export_google_places_plateau.py:185-238 | There are at most three page iterations. Every page but the last was OK with a token, and a give-up comes on a request that got no page. |
| `PlateauFetch.NearbyLoopResults` | src/export_google_places_plateau.py:203-238 | A last OK page yields all OK pages' results in order. A last ZERO_RESULTS keeps what was gathered. Any other final status yields the empty list. |
| `PlateauFetch.NearbyLoopChained` | src/export_google_places_plateau.py:185-208 | The first request is the Nearby Search, and each later one carries only the previous page's next_page_token. |
| `PlateauFetch.NearbySpec` | src/export_google_places_plateau.py:175-240 | `fetch_nearby` keeps all of the above promises on every stream. |
| `PlateauFetch.FetchNearby` | src/export_google_places_plateau.py:175-240 | The paging loop as written computes `Nearby`: the same result, cursor and requests. |
| `Paging.PagedLoopAttempts` | src/export_google_places_1000_per_city.py:136-157 | Each page iteration makes one request, plus at most one repeat when the INVALID_REQUEST repeat is in use. |
| `Paging.PagedSpec` | src/export_google_places_1000_per_city.py:136-157 | There are at most max_pages iterations, chained by page tokens. The results are the concatenation of the acceptable pages' results. Fewer pages than allowed means the last page had no token. A status error reports the status of an unacceptable last page. A network error gets no page. |
| `TargetFetch.FetchSpec` | src/export_google_places_1000_per_city.py:123-159 | The target-capped fetch keeps the paging promise with the Nearby Search as first request. It makes between one and two attempts per page iteration. |
| `TargetFetch.FetchNearby` | src/export_google_places_1000_per_city.py:135-159 | The fetch loop as written computes `Paged` with the INVALID_REQUEST repeat. |
| `TargetCrawl.VisitSpec` | src/export_google_places_1000_per_city.py:196-216 | A grid point only adds new ids: a skipped or aborted point leaves the seen-set as it was. A point that stores adds places with accepted, unseen ids, and the seen-set grows by exactly their number, but not past the target when it started below it. |
| `TargetCrawl.CrawlFromCounts` | src/export_google_places_1000_per_city.py:191-222 | At the end of a city's loop, the skipped points are among the visited ones. A normal end visited every point. Reaching the target leaves a point unvisited with the seen-set at the target. The seen-set only grows and does not pass the target when it started at most at it. |
| `TargetCrawl.SeenSizesBelowTarget` | src/export_google_places_1000_per_city.py:191-193 | Every point whose fetch is started is reached with fewer ids seen than the target. There is one such size per visited point, and the sizes never shrink. |
| `TargetCrawl.VisitTracks` | src/export_google_places_1000_per_city.py:203-219 | A point that only adds new ids keeps the invariant linking the recorded upserts, the stored rows and the seen-set. |
| `TargetCrawl.StoreNew` | src/export_google_places_1000_per_city.py:218-219 | Upserting new places that all carry ids makes the rows the upsert of that batch and adds exactly their ids to the city's stored ids. It leaves other cities alone. |
| `TargetCrawl.StorePoint` | src/export_google_places_1000_per_city.py:203-219 | The new places are the capped prefix of the unseen first occurrences of the results, and the rows become their upsert. They have unseen ids, and the seen-set grows by exactly their number. It stays equal to the city's stored ids and does not pass the target when it started below. Stored rows are kept. |
| `TargetCrawl.VisitPoint` | src/export_google_places_1000_per_city.py:196-219 | The point computes `VisitAt`. It stores exactly when the fetch returned results, skips exactly on a status error (table and seen-set unchanged), and aborts exactly on a network error. Stored places are the capped new places and the rows become their upsert. |
| `TargetCrawl.VisitAndRecord` | src/export_google_places_1000_per_city.py:196-219 | A point's visit appends its upsert, when it stores new places, to the recorded upserts. The rows stay those upserts applied in order. |
| `TargetCrawl.CityStep` | src/export_google_places_1000_per_city.py:191-219 | One pass of the city loop: a seen-set at the target stops it with nothing changed. Otherwise the point is visited as `VisitAt` says, and the step stops exactly on a network abort. |
| `TargetCrawl.CrawlCity` | src/export_google_places_1000_per_city.py:185-222 | The crawl computes `Crawl` from the city's stored ids: outcome, cursor, seen-set, counters, and rows equal to the recorded upserts applied in order. Every point fetched was reached with fewer ids seen than the target. A city already at the target (with points) stops at once with nothing changed. A city that started below the target ends at most at it. Skipped points are counted, stored rows are kept, and other cities are untouched. |
| `TargetCrawl.CrawlAll` | src/export_google_places_1000_per_city.py:176-222 | The loop over the cities computes `RunFrom`: each city is crawled in order, seeded from the rows the previous ones left, until a network error. A network error ends the run with at least one city reached; otherwise every city is reached. No key is removed, and the rows of cities not reached are untouched. |
| `TextSearch.SearchSpec` | src/export_google_places_to_sqlite.py:19-48 | There are at most max_pages requests, one attempt each, the first the Text Search and each later one the previous page's token. The results are the pages' results in order. Any status other than OK or ZERO_RESULTS raises. |
| `TextSearch.FetchTextSearch` | src/export_google_places_to_sqlite.py:28-48 | The loop as written computes `Paged` without the repeat. |
| `TextSearch.ExportCity` | src/export_google_places_to_sqlite.py:130-135 | The city's rows are written exactly when the fetch returned results that all have a place_id, and then they are the upsert of those results. A fetch that raised or a failed upsert writes nothing. |
| `TextSearch.ExportAll` | src/export_google_places_to_sqlite.py:129-141 | The loop computes `ExportFrom`: each city's query is searched at the stream position the previous city left, and its places are upserted at its own time stamp onto the rows the previous cities left. The run stops at the first city whose fetch raised or whose results hold a place without an id, and that city counts as done. No key is ever removed. |
| `TextSearch.ExportFromFacts` | src/export_google_places_to_sqlite.py:129-141 | The run never goes back: it ends having done every city, unless it failed, and a failure comes after at least one more city. No key is removed. |
| `FillZip.FirstPostalCode` | src/fill_zip_from_place_details.py:28-32 | The result is the long name of the first component typed `postal_code`, or none when no component is one. |
| `FillZip.ExtractPostalCode` | src/fill_zip_from_place_details.py:25-32 | A missing or empty component list gives none. Otherwise the first postal-code component decides. |
| `FillZip.FetchDetails` | src/fill_zip_from_place_details.py:34-55 | A missing status reads as UNKNOWN. A non-OK status carries no postal code and no address. An OK reply carries the result's formatted address and extracted postal code. |
| `FillZip.RowSpec` | src/fill_zip_from_place_details.py:95-138 | One row makes between 1 and 7 attempts, all but the last of them retried (network error or OVER_QUERY_LIMIT). Giving up or exiting takes all 7. The last attempt decides the end. There is one wait per retried attempt: min(30, 2^retry) after a network error and min(60, 2^rate-limits-so-far) after a rate limit, each between 1 and 60 seconds. |
| `FillZip.FillRow` | src/fill_zip_from_place_details.py:95-138 | The `while True` retry loop as written computes `Row`. |
| `FillZip.AppliedKeys` | src/fill_zip_from_place_details.py:102-108 | Filling never adds or removes a row. Rows not yet visited are unchanged. |
| `FillZip.AppliedPostalCode` | src/fill_zip_from_place_details.py:92-109 | An updated row not visited again later keeps the postal code, Details address and timestamp its own reply gave. |
| `FillZip.FilledRows` | src/fill_zip_from_place_details.py:75-109 | For the distinct stored keys the SELECT yields, every row whose loop ended OK carries its postal code, Details address and stamp, and the key set is untouched. |
| `FillZip.ApplyEnd` | src/fill_zip_from_place_details.py:101-109 | One row's end applied to the uncommitted state. An OK end sets that row's postal code and Details address; other ends and other rows are unchanged. |
| `FillZip.FillStep` | src/fill_zip_from_place_details.py:95-141 | One row, its retry loop run from where the previous row's stopped: the exit happens exactly when that loop ended in the rate-limit exit, and then nothing is recorded. Otherwise its end is recorded as that loop decided, the record of stream positions grows by where it stopped, and the end is applied to the uncommitted state and counted as updated or skipped. |
| `FillZip.RowsFromStep` | src/fill_zip_from_place_details.py:91-141 | The record of processed rows grows by one row whose retry loop ran from where the last recorded row stopped. |
| `FillZip.FillAll` | src/fill_zip_from_place_details.py:91-149 | Row i's end is the one its retry loop decided when run from the stream position row i-1's loop stopped at, starting from the given position. The run stops at the first row whose loop hit the rate-limit exit, at the position that loop stopped at. Without the exit, every row is processed and everything is committed. With it, the run stops at that row and the table keeps only the updates up to the last multiple of 200 rows. Counters: updated is the number of OK ends, and updated + skipped is the number of rows processed. |

## Left out

- Grid generation (`grid_points` and `generate_grid_points`, floating-point degrees per metre) is not modelled. Each city's grid points are an input.
- HTTP, JSON decoding, `.env` loading, `print`, the sleeps' jitter, the fixed sleeps between requests and points, PRAGMAs, index creation and the throughput report are left out. Each attempt is either a decoded reply or a failure.
- An undecodable response body is not modelled separately. In the plateau crawler, `r.json()` runs outside `safe_get` (src/export_google_places_plateau.py:191, 199, 220), so such a body raises and ends the whole run at once; the model instead counts it as a failed attempt, which `safe_get` retries.
- Wall-clock timestamps (`CURRENT_TIMESTAMP`, `datetime('now')`, `utcnow()`) are logical clock values passed in: point i of a city is stamped `clock + i`, and row i of the filler likewise.
- The postal-code filler's OVER_QUERY_LIMIT hit counter only feeds a message and is not modelled.
- The rows the filler's SELECT returns are an input. Its `ORDER BY city` is not modelled.
- The filler opens the plateau crawler's database and presumes the `postal_code`, `formatted_address` and `details_fetched_at` columns exist there, though the plateau crawler creates none of them. The model gives every row those three fields (`postalCode`, `detailsAddress`, `detailsFetchedAt`). The filler writes them and no crawler upsert does. A `detailsAddress` also exists on the rows of the other two tables, where no code writes it.
- The target-capped crawler keeps no count of the points whose status made `fetch_nearby` raise. It just moves on to the next point. The model's `skipped` counts those points for the crawl's own lemmas; the source has no such value.
- The address a crawler writes is one field, `address`. The plateau table names that column `address`, and the other two tables name it `formatted_address`.
- `Table.RestaurantTable.InsertPlaces`: the `total_changes` difference is modelled as one change per candidate written, which is what SQLite counts for an insert or for a conflict update.
- `PlateauFetch.NearbySpec`: it bounds the attempts of each page iteration (`PageAttempts`) but does not state one bound for the whole fetch.
- The target-capped crawler's `fetch_nearby` extends the results and reads the page token on ZERO_RESULTS too, as the code does.
- When a crawler's upsert raises (a candidate without `place_id` against a NOT NULL key), the model returns the unchanged table instead of ending the process. Only the text-search exporter can reach this, since both crawlers upsert only places that carry an id.
