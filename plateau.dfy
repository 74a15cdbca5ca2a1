/** The plateau detector of the plateau crawler: a bounded window of per-point
    new-place counts, a warm-up reset at point 80, and a counter of consecutive
    low-yield windows that stops the city at 5. */
module Plateau {
  import opened Places

  const WINDOW := 50
  const MIN_NEW_AVG := 0.5
  const STABLE_WINDOWS := 5
  const MIN_POINTS_BEFORE_PLATEAU := 80

  /** The first point count at which the window is full after the warm-up reset. */
  const FIRST_FULL_WINDOW := MIN_POINTS_BEFORE_PLATEAU + WINDOW - 1
  /** The first point count at which a plateau stop is possible. */
  const EARLIEST_STOP := FIRST_FULL_WINDOW + STABLE_WINDOWS - 1

  function Sum(s: seq<nat>): nat
    decreases |s|
  {
    if s == [] then 0 else Sum(s[..|s| - 1]) + s[|s| - 1]
  }

  /** `avg_new < MIN_NEW_AVG` for a non-empty window, on integers. */
  predicate LowYield(recent: seq<nat>) {
    2 * Sum(recent) < |recent|
  }

  lemma ScaleLess(x: real, y: real, n: real)
    requires n > 0.0
    ensures x < y ==> x * n < y * n
    ensures x <= y ==> x * n <= y * n
  {
    if x <= y {
      assert y * n - x * n == (y - x) * n;
    }
  }

  /** Twice a count below a positive length is an average below one half. */
  lemma HalfAverage(total: nat, n: nat)
    requires n > 0
    ensures 2 * total < n <==> (total as real) / (n as real) < MIN_NEW_AVG
  {
    var s, m := total as real, n as real;
    var q := s / m;
    assert q * m == s;
    if q < MIN_NEW_AVG {
      ScaleLess(q, MIN_NEW_AVG, m);
    } else {
      ScaleLess(MIN_NEW_AVG, q, m);
    }
  }

  /** The integer test is the source's floating average test. */
  lemma LowYieldIsLowAverage(recent: seq<nat>)
    requires |recent| > 0
    ensures LowYield(recent) <==> (Sum(recent) as real) / (|recent| as real) < MIN_NEW_AVG
  {
    HalfAverage(Sum(recent), |recent|);
  }

  /** `recent.append(x)` on a `deque(maxlen=WINDOW)`: a full deque drops its
      oldest entry. */
  function Push(recent: seq<nat>, x: nat): seq<nat> {
    if |recent| == WINDOW then recent[1..] + [x] else recent + [x]
  }

  /** The detector state the crawl keeps per city. */
  datatype Detector = Detector(recent: seq<nat>, stableHits: nat, pointsDone: nat)

  const Start := Detector([], 0, 0)

  /** One grid point that yielded `newCount` new places. */
  function Observe(d: Detector, newCount: nat): Detector {
    var done := d.pointsDone + 1;
    var reset := done == MIN_POINTS_BEFORE_PLATEAU;
    var recent := Push(if reset then [] else d.recent, newCount);
    var hits := if reset then 0 else d.stableHits;
    var hits' :=
      if |recent| != WINDOW then hits
      else if done < MIN_POINTS_BEFORE_PLATEAU then 0
      else if LowYield(recent) then hits + 1
      else 0;
    Detector(recent, hits', done)
  }

  /** The `break` condition, reached only inside the full-window branch. */
  predicate Stops(d: Detector) {
    |d.recent| == WINDOW && d.pointsDone >= MIN_POINTS_BEFORE_PLATEAU && d.stableHits >= STABLE_WINDOWS
  }

  /** The detector after the given per-point counts, in order. */
  function Replay(counts: seq<nat>): Detector
    decreases |counts|
  {
    if counts == [] then Start else Observe(Replay(counts[..|counts| - 1]), counts[|counts| - 1])
  }

  /** Where the window starts after `n` points: the last WINDOW counts, never
      reaching back before point 80 once it has passed. */
  function WindowStart(n: nat): nat {
    if n >= MIN_POINTS_BEFORE_PLATEAU then Max(MIN_POINTS_BEFORE_PLATEAU - 1, n - WINDOW)
    else Max(0, n - WINDOW)
  }

  /** The window of the WINDOW counts ending at point `j` is low-yield. */
  predicate LowWindowAt(counts: seq<nat>, j: nat)
    requires WINDOW <= j <= |counts|
  {
    LowYield(counts[j - WINDOW..j])
  }

  /** Independent definition of the counter: the number of consecutive points,
      ending at the last one, whose full post-warm-up window was low-yield. */
  function LowRun(counts: seq<nat>): nat
    decreases |counts|
  {
    if |counts| < FIRST_FULL_WINDOW then 0
    else if LowWindowAt(counts, |counts|) then LowRun(counts[..|counts| - 1]) + 1
    else 0
  }

  /** The detector did not stop after any of the points: the crawl of a city
      goes on for as long as this holds. */
  predicate NeverStopped(counts: seq<nat>)
    decreases |counts|
  {
    counts == [] || (NeverStopped(counts[..|counts| - 1]) && !Stops(Replay(counts)))
  }

  /** The detector stops after the last point and after none before it: how
      the crawl of a city ends when it reaches a plateau. */
  predicate StopsFirst(counts: seq<nat>)
  {
    counts != [] && Stops(Replay(counts)) && NeverStopped(counts[..|counts| - 1])
  }

  // ---------------------------------------------------------------- lemmas

  /** Appending a count to the window ending at the previous point, as the
      deque does, gives the window ending at the new point (away from the
      reset point). */
  lemma WindowSlide(counts: seq<nat>, prev: seq<nat>)
    requires 0 < |counts| != MIN_POINTS_BEFORE_PLATEAU
    requires WindowStart(|counts| - 1) <= |counts| - 1
    requires prev == counts[WindowStart(|counts| - 1)..|counts| - 1]
    ensures WindowStart(|counts|) <= |counts|
    ensures Push(prev, counts[|counts| - 1]) == counts[WindowStart(|counts|)..]
  {
    var n := |counts|;
    if |prev| == WINDOW {
      assert prev[1..] + [counts[n - 1]] == counts[WindowStart(n)..];
    } else {
      assert prev + [counts[n - 1]] == counts[WindowStart(n)..];
    }
  }

  /** One observation moves the window ending at the previous point to the
      window ending at the new point. */
  lemma ObserveWindow(counts: seq<nat>, d: Detector)
    requires counts != [] && d.pointsDone == |counts| - 1
    requires WindowStart(|counts| - 1) <= |counts| - 1
    requires d.recent == counts[WindowStart(|counts| - 1)..|counts| - 1]
    ensures Observe(d, counts[|counts| - 1]).pointsDone == |counts|
    ensures WindowStart(|counts|) <= |counts|
    ensures Observe(d, counts[|counts| - 1]).recent == counts[WindowStart(|counts|)..]
  {
    var n := |counts|;
    if n != MIN_POINTS_BEFORE_PLATEAU {
      WindowSlide(counts, d.recent);
    } else {
      assert [counts[n - 1]] == counts[WindowStart(n)..];
    }
  }

  lemma {:induction false} ReplayWindow(counts: seq<nat>)
    ensures Replay(counts).pointsDone == |counts|
    ensures WindowStart(|counts|) <= |counts|
    ensures Replay(counts).recent == counts[WindowStart(|counts|)..]
    decreases |counts|
  {
    if counts != [] {
      var init := counts[..|counts| - 1];
      ReplayWindow(init);
      assert init[WindowStart(|init|)..] == counts[WindowStart(|counts| - 1)..|counts| - 1];
      ObserveWindow(counts, Replay(init));
    }
  }

  /** The window never holds more than WINDOW counts and, after the first
      point, is never empty, so the average is always defined. */
  lemma WindowBounds(counts: seq<nat>)
    ensures |Replay(counts).recent| <= WINDOW
    ensures counts != [] ==> |Replay(counts).recent| > 0
  {
    ReplayWindow(counts);
  }

  /** From point 80 on, the window holds only counts of point 80 onwards. */
  lemma WindowAfterWarmUp(counts: seq<nat>)
    requires |counts| >= MIN_POINTS_BEFORE_PLATEAU
    ensures |Replay(counts).recent| == |counts| - WindowStart(|counts|)
    ensures forall i :: 0 <= i < |Replay(counts).recent| ==>
      Replay(counts).recent[i] == counts[WindowStart(|counts|) + i] && WindowStart(|counts|) + i >= MIN_POINTS_BEFORE_PLATEAU - 1
  {
    ReplayWindow(counts);
  }

  /** The counter is exactly the current run of low-yield full windows, and it
      is 0 throughout the warm-up. */
  lemma {:induction false} StableHitsIsLowRun(counts: seq<nat>)
    ensures Replay(counts).stableHits == LowRun(counts)
    ensures |counts| < MIN_POINTS_BEFORE_PLATEAU ==> Replay(counts).stableHits == 0
    decreases |counts|
  {
    if counts != [] {
      var init := counts[..|counts| - 1];
      StableHitsIsLowRun(init);
      ReplayWindow(counts);
      ObserveHits(counts, Replay(init));
    }
  }

  /** One observation moves the counter from the low-yield run before the
      new point to the run ending at it. */
  lemma ObserveHits(counts: seq<nat>, d: Detector)
    requires counts != [] && d.pointsDone == |counts| - 1
    requires d.stableHits == LowRun(counts[..|counts| - 1])
    requires |counts| - 1 < MIN_POINTS_BEFORE_PLATEAU ==> d.stableHits == 0
    requires WindowStart(|counts|) <= |counts|
    requires Observe(d, counts[|counts| - 1]).recent == counts[WindowStart(|counts|)..]
    ensures Observe(d, counts[|counts| - 1]).stableHits == LowRun(counts)
    ensures |counts| < MIN_POINTS_BEFORE_PLATEAU ==> Observe(d, counts[|counts| - 1]).stableHits == 0
  {
    if |counts| >= FIRST_FULL_WINDOW {
      ObserveHitsFull(counts, d);
    } else {
      assert LowRun(counts[..|counts| - 1]) == 0;
    }
  }

  /** The same for a point whose window is full and past the warm-up. */
  lemma ObserveHitsFull(counts: seq<nat>, d: Detector)
    requires |counts| >= FIRST_FULL_WINDOW && d.pointsDone == |counts| - 1
    requires d.stableHits == LowRun(counts[..|counts| - 1])
    requires Observe(d, counts[|counts| - 1]).recent == counts[WindowStart(|counts|)..]
    ensures Observe(d, counts[|counts| - 1]).stableHits == LowRun(counts)
  {
    var recent := Observe(d, counts[|counts| - 1]).recent;
    assert WindowStart(|counts|) == |counts| - WINDOW;
    assert recent == counts[|counts| - WINDOW..|counts|];
    ObserveFull(d, counts[|counts| - 1]);
  }

  /** Past the warm-up reset, an observation that fills the window counts
      one more low-yield window or resets the counter. */
  lemma ObserveFull(d: Detector, x: nat)
    requires d.pointsDone >= MIN_POINTS_BEFORE_PLATEAU && |Observe(d, x).recent| == WINDOW
    ensures Observe(d, x).stableHits == if LowYield(Observe(d, x).recent) then d.stableHits + 1 else 0
  {
  }

  lemma {:induction false} LowRunBound(counts: seq<nat>)
    ensures |counts| < FIRST_FULL_WINDOW ==> LowRun(counts) == 0
    ensures |counts| >= FIRST_FULL_WINDOW ==> LowRun(counts) <= |counts| - FIRST_FULL_WINDOW + 1
    decreases |counts|
  {
    if |counts| >= FIRST_FULL_WINDOW {
      LowRunBound(counts[..|counts| - 1]);
    }
  }

  /** The detector stops exactly when a post-warm-up full window ends a run of
      STABLE_WINDOWS consecutive low-yield windows. */
  lemma StopsIffLowRun(counts: seq<nat>)
    ensures Stops(Replay(counts)) <==> |counts| >= FIRST_FULL_WINDOW && LowRun(counts) >= STABLE_WINDOWS
  {
    ReplayWindow(counts);
    StableHitsIsLowRun(counts);
    LowRunBound(counts);
  }

  /** No plateau stop can happen before point 133 = 80 + 50 - 1 + 5 - 1. */
  lemma NoEarlyStop(counts: seq<nat>)
    requires Stops(Replay(counts))
    ensures |counts| >= EARLIEST_STOP
  {
    StopsIffLowRun(counts);
    LowRunBound(counts);
  }

  predicate AllZero(counts: seq<nat>) {
    forall i :: 0 <= i < |counts| ==> counts[i] == 0
  }

  lemma {:induction false} SumZero(s: seq<nat>)
    requires AllZero(s)
    ensures Sum(s) == 0
    decreases |s|
  {
    if s != [] {
      SumZero(s[..|s| - 1]);
    }
  }

  lemma {:induction false} LowRunOfZeros(counts: seq<nat>)
    requires AllZero(counts)
    ensures |counts| >= FIRST_FULL_WINDOW ==> LowRun(counts) == |counts| - FIRST_FULL_WINDOW + 1
    decreases |counts|
  {
    if |counts| >= FIRST_FULL_WINDOW {
      SumZero(counts[|counts| - WINDOW..|counts|]);
      LowRunOfZeros(counts[..|counts| - 1]);
    }
  }

  /** A city that stops yielding anything at all stops exactly at point 133. */
  lemma ZeroYieldStopsAt133(counts: seq<nat>)
    requires AllZero(counts)
    ensures Stops(Replay(counts)) <==> |counts| >= EARLIEST_STOP
  {
    StopsIffLowRun(counts);
    LowRunOfZeros(counts);
  }

  /** If no post-warm-up full window is low-yield, the detector never stops. */
  lemma HighYieldNeverStops(counts: seq<nat>)
    requires forall j :: FIRST_FULL_WINDOW <= j <= |counts| ==> !LowWindowAt(counts, j)
    ensures !Stops(Replay(counts))
  {
    StopsIffLowRun(counts);
  }

  predicate Alternating(counts: seq<nat>) {
    forall i :: 0 <= i < |counts| ==> counts[i] == i % 2
  }

  lemma SumSlice(counts: seq<nat>, a: nat, b: nat)
    requires a < b <= |counts|
    ensures Sum(counts[a..b]) == Sum(counts[a..b - 1]) + counts[b - 1]
  {
    assert counts[a..b][..b - a - 1] == counts[a..b - 1];
  }

  /** Two neighbouring alternating counts add up to one. */
  lemma AlternatingPair(counts: seq<nat>, b: nat)
    requires Alternating(counts) && b + 1 < |counts|
    ensures counts[b] + counts[b + 1] == 1
  {
    assert counts[b] == b % 2 && counts[b + 1] == (b + 1) % 2;
  }

  lemma {:induction false} SumAlternating(counts: seq<nat>, a: nat, k: nat)
    requires Alternating(counts)
    requires a + 2 * k <= |counts|
    ensures Sum(counts[a..a + 2 * k]) == k
    decreases k
  {
    if k > 0 {
      var b := a + 2 * (k - 1);
      SumAlternating(counts, a, k - 1);
      SumSlice(counts, a, b + 2);
      SumSlice(counts, a, b + 1);
      AlternatingPair(counts, b);
      assert b + 2 == a + 2 * k;
    }
  }

  /** Counts alternating 0, 1, 0, 1, ... average exactly 0.5 over every window,
      so the detector never stops. */
  lemma AlternatingNeverStops(counts: seq<nat>)
    requires Alternating(counts)
    ensures !Stops(Replay(counts))
  {
    forall j | FIRST_FULL_WINDOW <= j <= |counts|
      ensures !LowWindowAt(counts, j)
    {
      SumAlternating(counts, j - WINDOW, WINDOW / 2);
    }
    HighYieldNeverStops(counts);
  }

  /** `NeverStopped` says that no non-empty prefix of the counts, the whole
      included, leaves the detector stopped. */
  lemma {:induction false} NeverStoppedPrefixes(counts: seq<nat>)
    ensures NeverStopped(counts) <==> forall k :: 0 < k <= |counts| ==> !Stops(Replay(counts[..k]))
    decreases |counts|
  {
    if counts != [] {
      var init := counts[..|counts| - 1];
      NeverStoppedPrefixes(init);
      assert counts[..|counts|] == counts;
      forall k | 0 < k <= |init|
        ensures init[..k] == counts[..k]
      {
      }
      if NeverStopped(counts) {
        forall k | 0 < k <= |counts|
          ensures !Stops(Replay(counts[..k]))
        {
          if k < |counts| {
            assert init[..k] == counts[..k];
          }
        }
      }
    }
  }
}
