/** Values shared by the crawler scripts: the provider's place candidates, its
    paged replies, and the request parameters that are sent to it. */
module Places {

  datatype Option<T> = None | Some(value: T)

  function Min(a: int, b: int): int { if a <= b then a else b }
  function Max(a: int, b: int): int { if a >= b then a else b }

  /** `2 ** i`. */
  function Pow2(i: nat): (p: nat)
    ensures p >= 1
  {
    if i == 0 then 1 else 2 * Pow2(i - 1)
  }

  /** Python truthiness of an optional string: present and non-empty. */
  predicate Truthy(s: Option<string>) {
    s.Some? && s.value != ""
  }

  /** Python's `a or b` on two optional strings. */
  function Or(a: Option<string>, b: Option<string>): Option<string> {
    if Truthy(a) then a else b
  }

  /** A grid point; coordinates are opaque values that are only passed along. */
  datatype Location = Location(lat: real, lng: real)

  /** A city of a crawl run: its name, the grid points to search (the grid
      itself is computed from the city's bounding box, outside this model)
      and the search radius in metres. */
  datatype City = City(name: string, points: seq<Location>, radius: nat)

  /** One place candidate as the provider returns it. `raw` stands for the JSON
      serialisation of the whole candidate; `geometry.location` is flattened to
      `lat`/`lng`. */
  datatype Place = Place(
    placeId: Option<string>,
    name: Option<string>,
    vicinity: Option<string>,
    formattedAddress: Option<string>,
    lat: Option<real>,
    lng: Option<real>,
    rating: Option<real>,
    userRatingsTotal: Option<int>,
    priceLevel: Option<int>,
    businessStatus: Option<string>,
    types: seq<string>,
    raw: string)

  /** The identifier of a candidate that the crawlers accept (`if pid and ...`). */
  predicate HasId(p: Place) {
    Truthy(p.placeId)
  }

  /** The accepted identifiers occurring in a result list. */
  function Ids(ps: seq<Place>): set<string>
    decreases |ps|
  {
    if ps == [] then {}
    else
      var p := ps[|ps| - 1];
      Ids(ps[..|ps| - 1]) + (if HasId(p) then {p.placeId.value} else {})
  }

  lemma {:induction false} IdsMember(ps: seq<Place>, id: string)
    ensures id in Ids(ps) <==> exists i :: 0 <= i < |ps| && HasId(ps[i]) && ps[i].placeId.value == id
    decreases |ps|
  {
    if ps != [] {
      var init := ps[..|ps| - 1];
      IdsMember(init, id);
      assert forall i :: 0 <= i < |init| ==> init[i] == ps[i];
    }
  }

  lemma {:induction false} IdsAppend(a: seq<Place>, b: seq<Place>)
    ensures Ids(a + b) == Ids(a) + Ids(b)
    decreases |b|
  {
    if b == [] {
      assert a + b == a;
    } else {
      var binit := b[..|b| - 1];
      assert (a + b)[..|a + b| - 1] == a + binit;
      IdsAppend(a, binit);
    }
  }

  /** Parameters of one provider request (the API key is attached to every
      request and left implicit). */
  datatype Params =
    | NearbySearch(location: Location, radius: nat, keyword: string)
    | TextSearch(query: string)
    | PageToken(token: string)   // only {pagetoken, key}

  /** A decoded provider reply: `status`, `results` (absent reads as []) and
      `next_page_token`. */
  datatype Reply = Reply(status: Option<string>, results: seq<Place>, nextPageToken: Option<string>)

  const OK := "OK"
  const ZERO_RESULTS := "ZERO_RESULTS"
  const INVALID_REQUEST := "INVALID_REQUEST"
  const UNKNOWN_ERROR := "UNKNOWN_ERROR"
  const OVER_QUERY_LIMIT := "OVER_QUERY_LIMIT"

  predicate IsStatus(r: Reply, s: string) {
    r.status == Some(s)
  }

  /** Statuses the paging loops accept as a normal page. */
  predicate Acceptable(r: Reply) {
    IsStatus(r, OK) || IsStatus(r, ZERO_RESULTS)
  }

  /** The results of the given replies, concatenated in order. */
  function Concat(rs: seq<Reply>): seq<Place>
    decreases |rs|
  {
    if rs == [] then [] else Concat(rs[..|rs| - 1]) + rs[|rs| - 1].results
  }

  lemma {:induction false} ConcatAppend(a: seq<Reply>, b: seq<Reply>)
    ensures Concat(a + b) == Concat(a) + Concat(b)
    decreases |b|
  {
    if b == [] {
      assert a + b == a;
    } else {
      var binit := b[..|b| - 1];
      assert (a + b)[..|a + b| - 1] == a + binit;
      ConcatAppend(a, binit);
    }
  }

  /** One HTTP attempt: a decoded reply, or a `requests` exception. */
  datatype Attempt<R> = Answered(reply: R) | Failed

  /** The provider is an oracle: the n-th attempt made gets `stream[n]`; attempts
      past the end of the stream fail (the network is gone). */
  function At<R>(stream: seq<Attempt<R>>, i: nat): Attempt<R> {
    if i < |stream| then stream[i] else Failed
  }
}
