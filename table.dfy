/** The `restaurants` table, keyed by (city, place_id), and the three keyed
    upserts the crawler scripts write it with. */
module Table {
  import opened Places

  datatype Key = Key(city: string, placeId: string)

  /** One stored row. `address` is the address column a crawler writes: named
      `address` in the plateau crawler's table and `formatted_address` in the
      others. `types` and `rawJson` stand for the JSON text stored in those
      columns; `fetchedAt` and `detailsFetchedAt` are logical timestamps.
      `postalCode`, `detailsAddress` and `detailsFetchedAt` are the columns
      only the postal-code filler writes; it opens the plateau crawler's
      database, where `detailsAddress` is its `formatted_address` column,
      distinct from the crawler's `address`. */
  datatype Row = Row(
    name: Option<string>,
    address: Option<string>,
    lat: Option<real>,
    lng: Option<real>,
    rating: Option<real>,
    userRatingsTotal: Option<int>,
    priceLevel: Option<int>,
    businessStatus: Option<string>,
    types: seq<string>,
    rawJson: string,
    fetchedAt: nat,
    postalCode: Option<string>,
    detailsAddress: Option<string>,
    detailsFetchedAt: Option<nat>)

  /** Which candidate field an upsert variant stores as the address. */
  datatype AddressOrder = VicinityFirst | FormattedFirst

  function AddressOf(p: Place, order: AddressOrder): Option<string> {
    match order
    case VicinityFirst => Or(p.vicinity, p.formattedAddress)
    case FormattedFirst => Or(p.formattedAddress, p.vicinity)
  }

  /** The row that `INSERT ... ON CONFLICT DO UPDATE` leaves for candidate `p`:
      the descriptive columns and `fetched_at` come from `p`; every other column
      keeps the value of the row already stored (`prev`), or its default. */
  function Written(prev: Option<Row>, p: Place, order: AddressOrder, stamp: nat): Row {
    Row(p.name, AddressOf(p, order), p.lat, p.lng, p.rating, p.userRatingsTotal,
        p.priceLevel, p.businessStatus, p.types, p.raw, stamp,
        if prev.Some? then prev.value.postalCode else None,
        if prev.Some? then prev.value.detailsAddress else None,
        if prev.Some? then prev.value.detailsFetchedAt else None)
  }

  function Lookup(rows: map<Key, Row>, k: Key): Option<Row> {
    if k in rows then Some(rows[k]) else None
  }

  function Upsert(rows: map<Key, Row>, k: Key, p: Place, order: AddressOrder, stamp: nat): map<Key, Row> {
    rows[k := Written(Lookup(rows, k), p, order, stamp)]
  }

  /** The keyed effect of applying the batch row by row, in order (`executemany`).
      A candidate without a place_id has no key and leaves the keyed rows alone. */
  function UpsertAll(rows: map<Key, Row>, city: string, ps: seq<Place>, order: AddressOrder, stamp: nat): map<Key, Row>
    decreases |ps|
  {
    if ps == [] then rows
    else
      var before := UpsertAll(rows, city, ps[..|ps| - 1], order, stamp);
      var p := ps[|ps| - 1];
      if p.placeId.Some? then Upsert(before, Key(city, p.placeId.value), p, order, stamp) else before
  }

  /** The keys a batch names. */
  function BatchKeys(city: string, ps: seq<Place>): set<Key> {
    set i | 0 <= i < |ps| && ps[i].placeId.Some? :: Key(city, ps[i].placeId.value)
  }

  /** Rows for the candidates that have no place_id, in batch order: the plateau
      table's key columns are nullable, and a NULL key never conflicts. */
  function NullKeyRows(ps: seq<Place>, order: AddressOrder, stamp: nat): seq<Row>
    decreases |ps|
  {
    if ps == [] then []
    else
      var p := ps[|ps| - 1];
      NullKeyRows(ps[..|ps| - 1], order, stamp) + (if p.placeId.None? then [Written(None, p, order, stamp)] else [])
  }

  predicate AllKeyed(ps: seq<Place>) {
    forall i :: 0 <= i < |ps| ==> ps[i].placeId.Some?
  }

  /** `idx` is the last position of the batch carrying place_id `id`. */
  predicate LastWith(ps: seq<Place>, id: string, idx: nat) {
    idx < |ps| && ps[idx].placeId == Some(id) &&
    forall j :: idx < j < |ps| ==> ps[j].placeId != Some(id)
  }

  /** The postal-code filler's `UPDATE ... WHERE place_id = ? AND city = ?`:
      sets the postal code, the Details formatted address and the details
      stamp of the row with key `k`, if there is one. The crawler's own
      `address` is left as it was. */
  function SetDetails(rows: map<Key, Row>, k: Key, postalCode: Option<string>, formattedAddress: Option<string>, stamp: nat): (after: map<Key, Row>)
    ensures after.Keys == rows.Keys
    ensures forall k' :: k' in rows && k' != k ==> after[k'] == rows[k']
    ensures k in rows ==> after[k] == rows[k].(postalCode := postalCode, detailsAddress := formattedAddress, detailsFetchedAt := Some(stamp))
  {
    if k in rows then rows[k := rows[k].(postalCode := postalCode, detailsAddress := formattedAddress, detailsFetchedAt := Some(stamp))] else rows
  }

  /** The place_ids stored for `city`. */
  function StoredIds(rows: map<Key, Row>, city: string): (ids: set<string>)
    ensures forall id :: id in ids <==> Key(city, id) in rows
  {
    set k | k in rows && k.city == city :: k.placeId
  }

  /** No row of `before` is removed or overwritten in `after`. */
  predicate KeepsRows(before: map<Key, Row>, after: map<Key, Row>) {
    forall k :: k in before ==> k in after && after[k] == before[k]
  }

  /** The rows of every city other than `city` are the same in both. */
  ghost predicate OthersUntouched(before: map<Key, Row>, after: map<Key, Row>, city: string) {
    forall k: Key :: k.city != city ==> Lookup(after, k) == Lookup(before, k)
  }

  /** One upsert call of a crawl: its batch and its timestamp. */
  datatype Batch = Batch(stamp: nat, places: seq<Place>)

  /** The logical time at which a crawl of a city that started at `clock`
      stores the new places of its grid point `i`: one tick per point. */
  function PointStamp(clock: nat, i: nat): nat { clock + i }

  /** The logical time after city `c`'s grid points, which started at
      `stamp`: one tick per point. */
  function ClockAfter(stamp: nat, c: City): nat { stamp + |c.points| }

  /** The keyed rows after a crawl's upsert calls for `city`, applied in
      order. */
  function ApplyBatches(rows: map<Key, Row>, city: string, bs: seq<Batch>, order: AddressOrder): map<Key, Row>
    decreases |bs|
  {
    if bs == [] then rows
    else
      var last := bs[|bs| - 1];
      UpsertAll(ApplyBatches(rows, city, bs[..|bs| - 1], order), city, last.places, order, last.stamp)
  }

  /** The invariant of a crawl over `city` that seeds its seen-set with the
      city's stored ids: after its upsert calls `bs`, the stored ids are the
      seen-set, no row of `rows` was overwritten and no other city changed. */
  ghost predicate Tracks(rows: map<Key, Row>, city: string, bs: seq<Batch>, seen: set<string>) {
    var now := ApplyBatches(rows, city, bs, VicinityFirst);
    seen == StoredIds(now, city) && KeepsRows(rows, now) && OthersUntouched(rows, now, city)
  }

  // ---------------------------------------------------------------- lemmas

  lemma KeepsRowsTrans(a: map<Key, Row>, b: map<Key, Row>, c: map<Key, Row>)
    requires KeepsRows(a, b) && KeepsRows(b, c)
    ensures KeepsRows(a, c)
  {
  }

  lemma OthersUntouchedTrans(a: map<Key, Row>, b: map<Key, Row>, c: map<Key, Row>, city: string)
    requires OthersUntouched(a, b, city) && OthersUntouched(b, c, city)
    ensures OthersUntouched(a, c, city)
  {
  }

  /** One more upsert call applies after the earlier ones. */
  lemma ApplyBatchesSnoc(rows: map<Key, Row>, city: string, bs: seq<Batch>, b: Batch, order: AddressOrder)
    ensures ApplyBatches(rows, city, bs + [b], order) == UpsertAll(ApplyBatches(rows, city, bs, order), city, b.places, order, b.stamp)
  {
    assert (bs + [b])[..|bs|] == bs;
  }

  /** Keys afterwards are the old keys together with the batch's keys: nothing
      is removed and nothing else is added. */
  lemma {:induction false} UpsertAllKeys(rows: map<Key, Row>, city: string, ps: seq<Place>, order: AddressOrder, stamp: nat)
    ensures UpsertAll(rows, city, ps, order, stamp).Keys == rows.Keys + BatchKeys(city, ps)
    decreases |ps|
  {
    if ps != [] {
      var init := ps[..|ps| - 1];
      UpsertAllKeys(rows, city, init, order, stamp);
      var p := ps[|ps| - 1];
      assert forall i :: 0 <= i < |init| ==> init[i] == ps[i];
      if p.placeId.Some? {
        assert BatchKeys(city, ps) == BatchKeys(city, init) + {Key(city, p.placeId.value)};
      } else {
        assert BatchKeys(city, ps) == BatchKeys(city, init);
      }
    }
  }

  /** A key the batch does not name keeps its row. */
  lemma {:induction false} UpsertAllUntouched(rows: map<Key, Row>, city: string, ps: seq<Place>, order: AddressOrder, stamp: nat, k: Key)
    requires k !in BatchKeys(city, ps)
    ensures Lookup(UpsertAll(rows, city, ps, order, stamp), k) == Lookup(rows, k)
    decreases |ps|
  {
    if ps != [] {
      var init := ps[..|ps| - 1];
      assert BatchKeys(city, init) <= BatchKeys(city, ps) by {
        assert forall i :: 0 <= i < |init| ==> init[i] == ps[i];
      }
      UpsertAllUntouched(rows, city, init, order, stamp, k);
    }
  }

  /** The columns an upsert never sets keep their stored value (or stay NULL on a
      key that is new). */
  lemma {:induction false} UpsertAllKeepsDetails(rows: map<Key, Row>, city: string, ps: seq<Place>, order: AddressOrder, stamp: nat, k: Key)
    requires k in UpsertAll(rows, city, ps, order, stamp)
    ensures var r := UpsertAll(rows, city, ps, order, stamp)[k];
      && r.postalCode == (if k in rows then rows[k].postalCode else None)
      && r.detailsAddress == (if k in rows then rows[k].detailsAddress else None)
      && r.detailsFetchedAt == (if k in rows then rows[k].detailsFetchedAt else None)
    decreases |ps|
  {
    if ps != [] {
      var init := ps[..|ps| - 1];
      var before := UpsertAll(rows, city, init, order, stamp);
      var p := ps[|ps| - 1];
      if k in before {
        UpsertAllKeepsDetails(rows, city, init, order, stamp, k);
      } else {
        UpsertAllKeys(rows, city, init, order, stamp);
      }
    }
  }

  /** For a batch whose candidates all carry an accepted id, the keys it names
      for `city` are exactly its accepted ids. */
  lemma BatchKeysAreIds(city: string, ps: seq<Place>)
    requires forall i :: 0 <= i < |ps| ==> HasId(ps[i])
    ensures forall id :: Key(city, id) in BatchKeys(city, ps) <==> id in Ids(ps)
  {
    forall id
      ensures Key(city, id) in BatchKeys(city, ps) <==> id in Ids(ps)
    {
      IdsMember(ps, id);
    }
  }

  /** A batch whose candidates all carry an accepted id adds exactly its ids
      to the keys of `city`, removes no key, and leaves other cities' rows
      alone. */
  lemma UpsertAllCityKeys(rows: map<Key, Row>, city: string, ps: seq<Place>, order: AddressOrder, stamp: nat)
    requires forall i :: 0 <= i < |ps| ==> HasId(ps[i])
    ensures var after := UpsertAll(rows, city, ps, order, stamp);
      && (forall id :: Key(city, id) in after <==> Key(city, id) in rows || id in Ids(ps))
      && rows.Keys <= after.Keys
      && (forall k: Key :: k.city != city ==> Lookup(after, k) == Lookup(rows, k))
  {
    UpsertAllKeys(rows, city, ps, order, stamp);
    BatchKeysAreIds(city, ps);
    forall k: Key | k.city != city
      ensures Lookup(UpsertAll(rows, city, ps, order, stamp), k) == Lookup(rows, k)
    {
      UpsertAllUntouched(rows, city, ps, order, stamp, k);
    }
  }

  /** A batch of candidates whose ids are all new to `city` overwrites no
      stored row: the upsert only ever takes its insert branch. */
  lemma UpsertAllNewKeys(rows: map<Key, Row>, city: string, ps: seq<Place>, order: AddressOrder, stamp: nat)
    requires forall i :: 0 <= i < |ps| ==> HasId(ps[i])
    requires Ids(ps) !! StoredIds(rows, city)
    ensures var after := UpsertAll(rows, city, ps, order, stamp);
      forall k :: k in rows ==> k in after && after[k] == rows[k]
  {
    BatchKeysAreIds(city, ps);
    forall k | k in rows
      ensures Lookup(UpsertAll(rows, city, ps, order, stamp), k) == Lookup(rows, k)
    {
      UpsertAllUntouched(rows, city, ps, order, stamp, k);
    }
  }

  /** A batch of new ids for `city`: the city's stored ids grow by exactly
      those ids, every stored row is kept as it was, and other cities' rows
      are untouched. */
  lemma UpsertAllFresh(rows: map<Key, Row>, city: string, ps: seq<Place>, order: AddressOrder, stamp: nat)
    requires forall i :: 0 <= i < |ps| ==> HasId(ps[i])
    requires Ids(ps) !! StoredIds(rows, city)
    ensures var after := UpsertAll(rows, city, ps, order, stamp);
      && StoredIds(after, city) == StoredIds(rows, city) + Ids(ps)
      && (forall k :: k in rows ==> k in after && after[k] == rows[k])
      && (forall k: Key :: k.city != city ==> Lookup(after, k) == Lookup(rows, k))
  {
    UpsertAllCityKeys(rows, city, ps, order, stamp);
    UpsertAllNewKeys(rows, city, ps, order, stamp);
  }

  /** An upsert call whose places all carry ids outside the seen-set keeps a
      crawl's invariant, with those ids added to the seen-set. */
  lemma FreshBatchTracks(rows: map<Key, Row>, city: string, bs: seq<Batch>, seen: set<string>, b: Batch)
    requires Tracks(rows, city, bs, seen)
    requires forall i :: 0 <= i < |b.places| ==> HasId(b.places[i])
    requires Ids(b.places) !! seen
    ensures Tracks(rows, city, bs + [b], seen + Ids(b.places))
  {
    var now := ApplyBatches(rows, city, bs, VicinityFirst);
    var after := UpsertAll(now, city, b.places, VicinityFirst, b.stamp);
    ApplyBatchesSnoc(rows, city, bs, b, VicinityFirst);
    UpsertAllFresh(now, city, b.places, VicinityFirst, b.stamp);
    KeepsRowsTrans(rows, now, after);
    OthersUntouchedTrans(rows, now, after, city);
  }

  /** Such a batch writes no keyless row. */
  lemma {:induction false} NoNullKeys(ps: seq<Place>, order: AddressOrder, stamp: nat)
    requires forall i :: 0 <= i < |ps| ==> HasId(ps[i])
    ensures NullKeyRows(ps, order, stamp) == []
    decreases |ps|
  {
    if ps != [] {
      NoNullKeys(ps[..|ps| - 1], order, stamp);
    }
  }

  /** Within one batch the last row carrying a key wins: its descriptive fields
      and the stamp are what is stored for that key. */
  lemma {:induction false} UpsertAllLastWins(rows: map<Key, Row>, city: string, ps: seq<Place>, order: AddressOrder, stamp: nat, id: string, idx: nat)
    requires LastWith(ps, id, idx)
    ensures var k := Key(city, id);
      var after := UpsertAll(rows, city, ps, order, stamp);
      k in after && after[k] == Written(Lookup(rows, k), ps[idx], order, stamp)
    decreases |ps|
  {
    var k := Key(city, id);
    var init := ps[..|ps| - 1];
    var before := UpsertAll(rows, city, init, order, stamp);
    if idx == |ps| - 1 {
      if k in before {
        UpsertAllKeepsDetails(rows, city, init, order, stamp, k);
      } else {
        UpsertAllKeys(rows, city, init, order, stamp);
      }
    } else {
      assert LastWith(init, id, idx);
      UpsertAllLastWins(rows, city, init, order, stamp, id, idx);
    }
  }

  /** Every key the batch names has a last occurrence. */
  lemma LastOccurrence(ps: seq<Place>, city: string, k: Key) returns (idx: nat)
    requires k in BatchKeys(city, ps)
    ensures k.city == city && LastWith(ps, k.placeId, idx)
  {
    var i :| 0 <= i < |ps| && ps[i].placeId.Some? && Key(city, ps[i].placeId.value) == k;
    idx := i;
    while idx + 1 < |ps| && exists j :: idx < j < |ps| && ps[j].placeId == Some(k.placeId)
      invariant i <= idx < |ps| && ps[idx].placeId == Some(k.placeId)
      decreases |ps| - idx
    {
      var j :| idx < j < |ps| && ps[j].placeId == Some(k.placeId);
      idx := j;
    }
  }

  /** Upserting the same batch again at a later time is the same as having
      upserted it once at that time: repeated crawls do not change the stored
      state beyond the timestamp. */
  lemma UpsertAllIdempotent(rows: map<Key, Row>, city: string, ps: seq<Place>, order: AddressOrder, s1: nat, s2: nat)
    ensures UpsertAll(UpsertAll(rows, city, ps, order, s1), city, ps, order, s2) == UpsertAll(rows, city, ps, order, s2)
  {
    var once := UpsertAll(rows, city, ps, order, s1);
    var twice := UpsertAll(once, city, ps, order, s2);
    var direct := UpsertAll(rows, city, ps, order, s2);
    UpsertAllKeys(rows, city, ps, order, s1);
    UpsertAllKeys(once, city, ps, order, s2);
    UpsertAllKeys(rows, city, ps, order, s2);
    forall k | k in twice ensures twice[k] == direct[k] {
      if k in BatchKeys(city, ps) {
        var idx := LastOccurrence(ps, city, k);
        UpsertAllLastWins(rows, city, ps, order, s1, k.placeId, idx);
        UpsertAllLastWins(once, city, ps, order, s2, k.placeId, idx);
        UpsertAllLastWins(rows, city, ps, order, s2, k.placeId, idx);
      } else {
        UpsertAllUntouched(rows, city, ps, order, s1, k);
        UpsertAllUntouched(once, city, ps, order, s2, k);
        UpsertAllUntouched(rows, city, ps, order, s2, k);
      }
    }
  }

  // ---------------------------------------------------------------- the table

  class RestaurantTable {
    var rows: map<Key, Row>
    var unkeyed: seq<Row>

    constructor ()
      ensures rows == map[] && unkeyed == []
    {
      rows := map[];
      unkeyed := [];
    }

    /** `load_existing_ids`: the place_ids stored for `city`. */
    function ExistingIds(city: string): (ids: set<string>)
      reads this
      ensures forall id :: id in ids <==> Key(city, id) in rows
    {
      StoredIds(rows, city)
    }

    /** `insert_places` of the plateau crawler: vicinity before formatted_address;
        one transaction; reports one change per candidate written. */
    method InsertPlaces(city: string, places: seq<Place>, stamp: nat) returns (written: nat)
      modifies this
      ensures places == [] ==> written == 0 && rows == old(rows) && unkeyed == old(unkeyed)
      ensures written == |places|
      ensures rows == UpsertAll(old(rows), city, places, VicinityFirst, stamp)
      ensures unkeyed == old(unkeyed) + NullKeyRows(places, VicinityFirst, stamp)
    {
      if places == [] {
        return 0;
      }
      var i := 0;
      while i < |places|
        invariant 0 <= i <= |places|
        invariant rows == UpsertAll(old(rows), city, places[..i], VicinityFirst, stamp)
        invariant unkeyed == old(unkeyed) + NullKeyRows(places[..i], VicinityFirst, stamp)
      {
        var p := places[i];
        assert places[..i + 1][..i] == places[..i];
        if p.placeId.Some? {
          rows := Upsert(rows, Key(city, p.placeId.value), p, VicinityFirst, stamp);
        } else {
          unkeyed := unkeyed + [Written(None, p, VicinityFirst, stamp)];
        }
        i := i + 1;
      }
      assert places[..i] == places;
      written := |places|;
    }

    /** Applies a batch to a staged copy and commits it only when every row
        satisfies the NOT NULL key constraint; otherwise nothing is written. */
    method UpsertKeyed(city: string, places: seq<Place>, order: AddressOrder, stamp: nat) returns (ok: bool)
      modifies this
      ensures ok == AllKeyed(places)
      ensures ok ==> rows == UpsertAll(old(rows), city, places, order, stamp)
      ensures !ok ==> rows == old(rows)
      ensures unkeyed == old(unkeyed)
    {
      var staged := rows;
      var i := 0;
      while i < |places|
        invariant 0 <= i <= |places|
        invariant AllKeyed(places[..i])
        invariant staged == UpsertAll(rows, city, places[..i], order, stamp)
      {
        var p := places[i];
        assert places[..i + 1][..i] == places[..i];
        if p.placeId.None? {
          return false;
        }
        staged := Upsert(staged, Key(city, p.placeId.value), p, order, stamp);
        i := i + 1;
      }
      assert places[..i] == places;
      rows := staged;
      ok := true;
    }

    /** `upsert_places` of the target-capped crawler: vicinity before
        formatted_address. `ok` is false when a candidate lacks a place_id (the
        NOT NULL constraint fails and the uncommitted batch is lost). */
    method UpsertPlaces(city: string, places: seq<Place>, stamp: nat) returns (ok: bool)
      modifies this
      ensures ok == AllKeyed(places)
      ensures ok ==> rows == UpsertAll(old(rows), city, places, VicinityFirst, stamp)
      ensures !ok ==> rows == old(rows)
      ensures unkeyed == old(unkeyed)
    {
      ok := UpsertKeyed(city, places, VicinityFirst, stamp);
    }

    /** `upsert_restaurants` of the text-search exporter: formatted_address
        before vicinity, otherwise as `UpsertPlaces`. */
    method UpsertRestaurants(city: string, places: seq<Place>, stamp: nat) returns (ok: bool)
      modifies this
      ensures ok == AllKeyed(places)
      ensures ok ==> rows == UpsertAll(old(rows), city, places, FormattedFirst, stamp)
      ensures !ok ==> rows == old(rows)
      ensures unkeyed == old(unkeyed)
    {
      ok := UpsertKeyed(city, places, FormattedFirst, stamp);
    }
  }
}
