/** Splitting one grid point's results into already-seen and new places against
    the city's seen-set, as both crawlers do. */
module Dedup {
  import opened Places

  /** Reference definition of the new places: result i is new iff it carries an
      accepted place_id that is neither in `seen` nor carried by an earlier
      result of the same list. Order is kept. */
  function Fresh(seen: set<string>, results: seq<Place>): seq<Place>
    decreases |results|
  {
    if results == [] then []
    else
      var init := results[..|results| - 1];
      var p := results[|results| - 1];
      if HasId(p) && p.placeId.value !in seen + Ids(init) then Fresh(seen, init) + [p]
      else Fresh(seen, init)
  }

  predicate DistinctIds(ps: seq<Place>) {
    forall i, j :: 0 <= i < j < |ps| ==> ps[i].placeId != ps[j].placeId
  }

  lemma {:induction false} DistinctIdsCount(ps: seq<Place>)
    requires forall i :: 0 <= i < |ps| ==> HasId(ps[i])
    requires DistinctIds(ps)
    ensures |Ids(ps)| == |ps|
    decreases |ps|
  {
    if ps != [] {
      var init := ps[..|ps| - 1];
      var p := ps[|ps| - 1];
      DistinctIdsCount(init);
      assert forall i :: 0 <= i < |init| ==> init[i].placeId != p.placeId;
      IdsMember(init, p.placeId.value);
    }
  }

  /** Every new place carries an accepted id that was not seen before. */
  lemma {:induction false} FreshUnseen(seen: set<string>, results: seq<Place>)
    ensures forall q :: q in Fresh(seen, results) ==> HasId(q) && q.placeId.value !in seen
    decreases |results|
  {
    if results != [] {
      FreshUnseen(seen, results[..|results| - 1]);
    }
  }

  /** One more result: how the new places and the accepted ids grow. */
  lemma FreshSnoc(seen: set<string>, results: seq<Place>, i: nat)
    requires i < |results|
    ensures var p := results[i];
      var keep := HasId(p) && p.placeId.value !in seen + Ids(results[..i]);
      && Fresh(seen, results[..i + 1]) == (if keep then Fresh(seen, results[..i]) + [p] else Fresh(seen, results[..i]))
      && Ids(results[..i + 1]) == Ids(results[..i]) + (if HasId(p) then {p.placeId.value} else {})
  {
    assert results[..i + 1][..i] == results[..i];
    assert results[..i + 1] == results[..i] + [results[i]];
    IdsAppend(results[..i], [results[i]]);
  }

  /** The ids of the new places are exactly the unseen accepted ids of the
      results, so seen-set plus new ids covers every accepted result id. */
  lemma {:induction false} FreshIds(seen: set<string>, results: seq<Place>)
    ensures Ids(Fresh(seen, results)) == Ids(results) - seen
    decreases |results|
  {
    if results != [] {
      var init := results[..|results| - 1];
      var p := results[|results| - 1];
      FreshIds(seen, init);
      assert results == init + [p];
      IdsAppend(init, [p]);
      if HasId(p) && p.placeId.value !in seen + Ids(init) {
        IdsAppend(Fresh(seen, init), [p]);
      }
    }
  }

  /** No two new places share an id. */
  lemma {:induction false} FreshDistinct(seen: set<string>, results: seq<Place>)
    ensures DistinctIds(Fresh(seen, results))
    decreases |results|
  {
    if results != [] {
      var init := results[..|results| - 1];
      var p := results[|results| - 1];
      FreshDistinct(seen, init);
      var f0 := Fresh(seen, init);
      if HasId(p) && p.placeId.value !in seen + Ids(init) {
        FreshIds(seen, init);
        FreshUnseen(seen, init);
        forall i | 0 <= i < |f0| ensures f0[i].placeId != p.placeId {
          IdsMember(f0, f0[i].placeId.value);
        }
      }
    }
  }

  /** What the source promises of the filter: every new place carries an
      accepted id not seen before, the new ids are pairwise distinct, and they
      are exactly the unseen accepted ids of the results. */
  lemma FreshFacts(seen: set<string>, results: seq<Place>)
    ensures var f := Fresh(seen, results);
      && (forall i :: 0 <= i < |f| ==> HasId(f[i]) && f[i].placeId.value !in seen)
      && DistinctIds(f)
      && Ids(f) == Ids(results) - seen
  {
    FreshUnseen(seen, results);
    FreshDistinct(seen, results);
    FreshIds(seen, results);
  }

  /** The number of new places is the number of distinct unseen ids in the results. */
  lemma FreshCount(seen: set<string>, results: seq<Place>)
    ensures |Fresh(seen, results)| == |Ids(results) - seen|
  {
    FreshFacts(seen, results);
    DistinctIdsCount(Fresh(seen, results));
  }

  /** The seen-set grows by exactly the number of new places. */
  lemma SeenSize(seen: set<string>, results: seq<Place>)
    ensures |seen + Ids(results)| == |seen| + |Fresh(seen, results)|
  {
    var f := Fresh(seen, results);
    FreshFacts(seen, results);
    DistinctIdsCount(f);
    assert seen + Ids(results) == seen + Ids(f);
    assert seen !! Ids(f);
  }

  /** Filtering a longer list only appends: the new places of a prefix are a
      prefix of the new places of the whole list. */
  lemma {:induction false} FreshPrefix(seen: set<string>, results: seq<Place>, n: nat)
    requires n <= |results|
    ensures var whole := Fresh(seen, results);
      |Fresh(seen, results[..n])| <= |whole| && Fresh(seen, results[..n]) == whole[..|Fresh(seen, results[..n])|]
    decreases |results|
  {
    if n < |results| {
      var init := results[..|results| - 1];
      assert init[..n] == results[..n];
      FreshPrefix(seen, init, n);
    } else {
      assert results[..n] == results;
    }
  }

  /** The state of the filtering loops after scanning `results[..i]`. */
  predicate Scanned(seen: set<string>, results: seq<Place>, i: nat, newPlaces: seq<Place>, seenAfter: set<string>) {
    && i <= |results|
    && newPlaces == Fresh(seen, results[..i])
    && seenAfter == seen + Ids(results[..i])
  }

  /** One iteration of the filtering loops: result `i` is taken when it
      carries an accepted id outside the seen-set, which then absorbs it. */
  method ScanOne(seen: set<string>, results: seq<Place>, i: nat, newPlaces: seq<Place>, seenAfter: set<string>)
    returns (newPlaces': seq<Place>, seenAfter': set<string>, took: bool)
    requires i < |results|
    requires Scanned(seen, results, i, newPlaces, seenAfter)
    ensures took == (HasId(results[i]) && results[i].placeId.value !in seenAfter)
    ensures took ==> newPlaces' == newPlaces + [results[i]]
    ensures !took ==> newPlaces' == newPlaces
    ensures Scanned(seen, results, i + 1, newPlaces', seenAfter')
    ensures |seenAfter'| == |seen| + |newPlaces'|
  {
    var p := results[i];
    FreshSnoc(seen, results, i);
    SeenSize(seen, results[..i + 1]);
    took := HasId(p) && p.placeId.value !in seenAfter;
    newPlaces', seenAfter' := newPlaces, seenAfter;
    if took {
      seenAfter' := seenAfter + {p.placeId.value};
      newPlaces' := newPlaces + [p];
    }
  }

  /** The filtering loop of the plateau crawler (`if pid and pid not in seen`). */
  method FilterNew(seen: set<string>, results: seq<Place>) returns (newPlaces: seq<Place>, seenAfter: set<string>)
    ensures newPlaces == Fresh(seen, results)
    ensures forall i :: 0 <= i < |newPlaces| ==> HasId(newPlaces[i]) && newPlaces[i].placeId.value !in seen
    ensures DistinctIds(newPlaces)
    ensures seenAfter == seen + Ids(newPlaces) == seen + Ids(results)
    ensures seen !! Ids(newPlaces)
    ensures |newPlaces| == |Ids(results) - seen|
  {
    newPlaces, seenAfter := [], seen;
    for i := 0 to |results|
      invariant Scanned(seen, results, i, newPlaces, seenAfter)
    {
      var took;
      newPlaces, seenAfter, took := ScanOne(seen, results, i, newPlaces, seenAfter);
    }
    assert results[..|results|] == results;
    FreshFacts(seen, results);
    FreshCount(seen, results);
  }

  /** How many new places the capped filter takes, given how its loop ended:
      `n` taken of `m` available, from a seen-set of size `s`. */
  lemma CappedCount(n: int, m: int, s: int, target: int, full: bool)
    requires 0 <= n <= m
    requires !full ==> n == m && (n == 0 || s + n < target)
    requires full ==> n >= 1 && s + n >= target && (n == 1 || s + n - 1 < target)
    ensures n == Min(m, Max(1, target - s))
  {
  }

  /** What the capped filter's loop leaves behind, once it ends with
      `results[..i]` scanned: the capped prefix of the new places. */
  lemma CappedExit(seen: set<string>, results: seq<Place>, target: nat, i: nat, newPlaces: seq<Place>, seenAfter: set<string>, full: bool)
    requires Scanned(seen, results, i, newPlaces, seenAfter)
    requires !full ==> i == |results|
    requires |seenAfter| == |seen| + |newPlaces|
    requires !full ==> newPlaces == [] || |seenAfter| < target
    requires full ==> |newPlaces| >= 1 && |seenAfter| >= target && (|newPlaces| == 1 || |seenAfter| - 1 < target)
    ensures newPlaces == Capped(seen, results, target)
    ensures seenAfter == seen + Ids(newPlaces)
  {
    var all := Fresh(seen, results);
    assert |newPlaces| <= |all| && newPlaces == all[..|newPlaces|] by {
      FreshPrefix(seen, results, i);
    }
    assert |newPlaces| == Min(|all|, Max(1, target - |seen|)) by {
      if !full {
        assert results[..i] == results;
      }
      CappedCount(|newPlaces|, |all|, |seen|, target, full);
    }
    assert seenAfter == seen + Ids(newPlaces) by {
      FreshIds(seen, results[..i]);
    }
  }

  /** Reference definition of what the target-capped filter takes: the new
      places, cut once the seen-set would reach `target`, but at least one
      when there is one. */
  function Capped(seen: set<string>, results: seq<Place>, target: nat): (r: seq<Place>)
    ensures var all := Fresh(seen, results);
      |r| == Min(|all|, Max(1, target - |seen|)) && r == all[..|r|]
    ensures |seen| < target ==> |seen| + |r| <= target
    ensures r == [] <==> Fresh(seen, results) == []
  {
    var all := Fresh(seen, results);
    all[..Min(|all|, Max(1, target - |seen|))]
  }

  /** The capped new places carry accepted ids, distinct and unseen, so the
      seen-set grows by exactly their number. */
  lemma CappedFacts(seen: set<string>, results: seq<Place>, target: nat)
    ensures var r := Capped(seen, results, target);
      && (forall i :: 0 <= i < |r| ==> HasId(r[i]) && r[i].placeId.value !in seen)
      && Ids(r) !! seen
      && |seen + Ids(r)| == |seen| + |r|
  {
    var f := Fresh(seen, results);
    var r := Capped(seen, results, target);
    FreshFacts(seen, results);
    assert forall i :: 0 <= i < |r| ==> r[i] == f[i];
    DistinctIdsCount(r);
    forall id | id in Ids(r)
      ensures id !in seen
    {
      IdsMember(r, id);
    }
  }

  /** The filtering loop of the target-capped crawler: like `FilterNew`, but it
      stops accepting as soon as the seen-set reaches `target` (checked after
      each acceptance, so at least one new place is taken when there is one). */
  method FilterNewCapped(seen: set<string>, results: seq<Place>, target: nat) returns (newPlaces: seq<Place>, seenAfter: set<string>)
    ensures newPlaces == Capped(seen, results, target)
    ensures seenAfter == seen + Ids(newPlaces)
    ensures |seenAfter| == |seen| + |newPlaces|
    ensures |seen| < target ==> |seenAfter| <= target
  {
    newPlaces, seenAfter := [], seen;
    var i := 0;
    var full := false;  // the `break` once the target is reached
    while i < |results| && !full
      invariant Scanned(seen, results, i, newPlaces, seenAfter)
      invariant |seenAfter| == |seen| + |newPlaces|
      invariant !full ==> newPlaces == [] || |seenAfter| < target
      invariant full ==> |newPlaces| >= 1 && |seenAfter| >= target && (|newPlaces| == 1 || |seenAfter| - 1 < target)
    {
      var took;
      newPlaces, seenAfter, took := ScanOne(seen, results, i, newPlaces, seenAfter);
      if took {
        full := |seenAfter| >= target;
      }
      i := i + 1;
    }
    CappedExit(seen, results, target, i, newPlaces, seenAfter, full);
  }
}
