/** The network layer of the plateau crawler: `safe_get`, which retries a
    request on network errors with a capped exponential backoff, and
    `fetch_nearby`, which pages through a Nearby Search with one retry on an
    INVALID_REQUEST page token and one on UNKNOWN_ERROR. */
module PlateauFetch {
  import opened Places

  const MAX_TRIES := 6
  const MAX_BACKOFF := 30
  /** `for _ in range(3)` in `fetch_nearby`. */
  const PAGES := 3

  /** The deterministic part of the sleep after failed attempt `i` (jitter left out). */
  function Backoff(i: nat): nat { Min(Pow2(i), MAX_BACKOFF) }

  /** What `safe_get` hands back: a reply, or the RuntimeError raised once
      every attempt has failed. */
  datatype Got = Got(reply: Reply) | GaveUp

  /** A `safe_get` call: its result and the stream position after it. */
  datatype Call = Call(got: Got, next: nat)

  /** `safe_get` with `tries` attempts left, the first at stream position `from`. */
  function SafeGetSpec(stream: seq<Attempt<Reply>>, from: nat, tries: nat): Call
    decreases tries
  {
    if tries == 0 then Call(GaveUp, from)
    else match At(stream, from)
      case Answered(r) => Call(Got(r), from + 1)
      case Failed => SafeGetSpec(stream, from + 1, tries - 1)
  }

  /** `safe_get` gives up exactly when all of its `tries` attempts fail, and
      then it has made exactly `tries` attempts. */
  lemma {:induction false} SafeGetGivesUpIff(stream: seq<Attempt<Reply>>, from: nat, tries: nat)
    ensures SafeGetSpec(stream, from, tries).got.GaveUp? <==>
      forall k :: from <= k < from + tries ==> At(stream, k).Failed?
    ensures SafeGetSpec(stream, from, tries).got.GaveUp? ==> SafeGetSpec(stream, from, tries).next == from + tries
    decreases tries
  {
    if tries > 0 {
      SafeGetGivesUpIff(stream, from + 1, tries - 1);
    }
  }

  /** A reply is the first answered attempt: every attempt before it failed,
      and at most `tries` attempts are made. */
  lemma {:induction false} SafeGetFirstAnswer(stream: seq<Attempt<Reply>>, from: nat, tries: nat)
    ensures var c := SafeGetSpec(stream, from, tries);
      from <= c.next <= from + tries
      && (c.got.Got? ==> c.next > from && At(stream, c.next - 1) == Answered(c.got.reply)
                         && forall k :: from <= k < c.next - 1 ==> At(stream, k).Failed?)
    decreases tries
  {
    if tries > 0 {
      SafeGetFirstAnswer(stream, from + 1, tries - 1);
    }
  }

  /** The retry loop of `safe_get`. `waits` are the backoffs slept after each
      failed attempt, in order. */
  method SafeGet(stream: seq<Attempt<Reply>>, from: nat, maxTries: nat) returns (got: Got, next: nat, waits: seq<nat>)
    ensures Call(got, next) == SafeGetSpec(stream, from, maxTries)
    ensures |waits| == (if got.Got? then next - from - 1 else next - from)
    ensures forall i :: 0 <= i < |waits| ==> waits[i] == Min(Pow2(i), MAX_BACKOFF) <= MAX_BACKOFF
  {
    waits := [];
    var i := 0;
    while i < maxTries
      invariant 0 <= i <= maxTries
      invariant SafeGetSpec(stream, from, maxTries) == SafeGetSpec(stream, from + i, maxTries - i)
      invariant |waits| == i
      invariant forall k :: 0 <= k < i ==> waits[k] == Backoff(k)
    {
      match At(stream, from + i)
      case Answered(r) =>
        return Got(r), from + i + 1, waits;
      case Failed =>
        waits := waits + [Backoff(i)];
      i := i + 1;
    }
    return GaveUp, from + maxTries, waits;
  }

  /** What `fetch_nearby` returns: the gathered results, or the RuntimeError of
      a `safe_get` that gave up (which nothing in the crawler catches). */
  datatype Fetch = Fetched(results: seq<Place>) | NetworkGaveUp

  /** One page iteration after its retries: the reply whose status decides the
      page. An INVALID_REQUEST is retried once when a page token is in use;
      an UNKNOWN_ERROR (also one coming back from that retry) is retried once. */
  function PageSpec(stream: seq<Attempt<Reply>>, from: nat, paged: bool): Call {
    var c1 := SafeGetSpec(stream, from, MAX_TRIES);
    if c1.got.GaveUp? then c1
    else
      var c2 := if paged && IsStatus(c1.got.reply, INVALID_REQUEST) then SafeGetSpec(stream, c1.next, MAX_TRIES) else c1;
      if c2.got.GaveUp? then c2
      else if IsStatus(c2.got.reply, UNKNOWN_ERROR) then SafeGetSpec(stream, c2.next, MAX_TRIES)
      else c2
  }

  /** A page whose first reply is OK or ZERO_RESULTS is not retried. */
  lemma PageNoRetryWhenAcceptable(stream: seq<Attempt<Reply>>, from: nat, paged: bool)
    requires var c := SafeGetSpec(stream, from, MAX_TRIES); c.got.Got? && Acceptable(c.got.reply)
    ensures PageSpec(stream, from, paged) == SafeGetSpec(stream, from, MAX_TRIES)
  {
  }

  /** A page makes at most three `safe_get` calls. */
  lemma PageAttempts(stream: seq<Attempt<Reply>>, from: nat, paged: bool)
    ensures from <= PageSpec(stream, from, paged).next <= from + 3 * MAX_TRIES
  {
    var c1 := SafeGetSpec(stream, from, MAX_TRIES);
    SafeGetFirstAnswer(stream, from, MAX_TRIES);
    if c1.got.Got? {
      SafeGetFirstAnswer(stream, c1.next, MAX_TRIES);
      var c2 := if paged && IsStatus(c1.got.reply, INVALID_REQUEST) then SafeGetSpec(stream, c1.next, MAX_TRIES) else c1;
      SafeGetFirstAnswer(stream, c2.next, MAX_TRIES);
    }
  }

  /** The calls of up to `k` page iterations, as they go while paging
      continues: the first without a page token in use, each later one with
      one, starting where the previous one stopped. */
  function PageCalls(stream: seq<Attempt<Reply>>, from: nat, k: nat): (calls: seq<Call>)
    ensures |calls| == k
    decreases k
  {
    if k == 0 then []
    else
      var prev := PageCalls(stream, from, k - 1);
      prev + [PageSpec(stream, if k == 1 then from else prev[k - 2].next, k > 1)]
  }

  lemma {:induction false} PageCallsAt(stream: seq<Attempt<Reply>>, from: nat, k: nat, i: nat)
    requires i < k
    ensures var calls := PageCalls(stream, from, k);
      calls[i] == PageSpec(stream, if i == 0 then from else calls[i - 1].next, i > 0)
    decreases k
  {
    if i < k - 1 {
      PageCallsAt(stream, from, k - 1, i);
    }
  }

  /** A run of `fetch_nearby`: what it returns, where the stream stands, the
      parameters of each page iteration, and the deciding reply of each
      completed page iteration. */
  datatype NearbyRun = NearbyRun(outcome: Fetch, next: nat, requests: seq<Params>, pages: seq<Reply>)

  /** The page loop from iteration `round` on, over the calls of its page
      iterations: `cur` is the stream position, `token` the last
      next_page_token, `acc` the results gathered so far and `sent` the
      parameters of the iterations so far; `pages` lists the deciding replies
      from iteration `round` on. */
  function NearbyLoop(calls: seq<Call>, cur: nat, round: nat, token: Option<string>, first: Params, acc: seq<Place>, sent: seq<Params>): NearbyRun
    decreases |calls| - round
  {
    if round >= |calls| then NearbyRun(Fetched(acc), cur, sent, [])
    else
      var params := if Truthy(token) then PageToken(token.value) else first;
      var c := calls[round];
      if c.got.GaveUp? then NearbyRun(NetworkGaveUp, c.next, sent + [params], [])
      else
        var r := c.got.reply;
        if IsStatus(r, OK) && Truthy(r.nextPageToken) then
          var rest := NearbyLoop(calls, c.next, round + 1, r.nextPageToken, first, acc + r.results, sent + [params]);
          NearbyRun(rest.outcome, rest.next, rest.requests, [r] + rest.pages)
        else if IsStatus(r, OK) then NearbyRun(Fetched(acc + r.results), c.next, sent + [params], [r])
        else if IsStatus(r, ZERO_RESULTS) then NearbyRun(Fetched(acc), c.next, sent + [params], [r])
        else NearbyRun(Fetched([]), c.next, sent + [params], [r])
  }

  /** `fetch_nearby` from stream position `from`. */
  function Nearby(stream: seq<Attempt<Reply>>, from: nat, location: Location, radius: nat, keyword: string): NearbyRun {
    NearbyLoop(PageCalls(stream, from, PAGES), from, 0, None, NearbySearch(location, radius, keyword), [], [])
  }

  /** Every page but the last was OK and handed out a page token, and each
      request after the first carries exactly the previous page's token. */
  predicate Chained(run: NearbyRun, first: Params) {
    && |run.requests| >= 1
    && run.requests[0] == first
    && (forall i :: 0 <= i < |run.requests| - 1 ==>
          i < |run.pages| && Truthy(run.pages[i].nextPageToken)
          && run.requests[i + 1] == PageToken(run.pages[i].nextPageToken.value))
  }

  /** How many page iterations and requests a run of the page loop from
      iteration `round` of `total` makes, after `sent` requests. */
  predicate LoopCounts(run: NearbyRun, round: nat, total: nat, sent: nat) {
    var n := |run.pages|;
    && n <= total - round
    && (run.outcome.Fetched? && round < total ==> n >= 1)
    && |run.requests| == sent + (if run.outcome.NetworkGaveUp? then n + 1 else n)
    && |run.requests| <= sent + total - round
    && (forall i :: 0 <= i < n - 1 ==> IsStatus(run.pages[i], OK) && Truthy(run.pages[i].nextPageToken))
    && (run.outcome.NetworkGaveUp? && n > 0 ==> IsStatus(run.pages[n - 1], OK) && Truthy(run.pages[n - 1].nextPageToken))
  }

  /** What a run of the page loop returns, given the results `acc` gathered
      before it. */
  predicate LoopResults(run: NearbyRun, round: nat, total: nat, acc: seq<Place>) {
    var n := |run.pages|;
    && (run.outcome.Fetched? && n == 0 ==> run.outcome.results == acc)
    && (run.outcome.Fetched? && n > 0 ==>
          var last := run.pages[n - 1];
          && (IsStatus(last, OK) ==> run.outcome.results == acc + Concat(run.pages)
                                     && (n < total - round ==> !Truthy(last.nextPageToken)))
          && (IsStatus(last, ZERO_RESULTS) ==> run.outcome.results == acc + Concat(run.pages[..n - 1]))
          && (!Acceptable(last) ==> run.outcome.results == []))
  }

  lemma ConcatCons(r: Reply, rest: seq<Reply>)
    ensures Concat([r] + rest) == r.results + Concat(rest)
  {
    ConcatAppend([r], rest);
    assert Concat([r]) == Concat([]) + r.results;
  }

  lemma {:induction false} NearbyLoopCounts(calls: seq<Call>, cur: nat, round: nat, token: Option<string>, first: Params, acc: seq<Place>, sent: seq<Params>)
    requires round <= |calls|
    ensures LoopCounts(NearbyLoop(calls, cur, round, token, first, acc, sent), round, |calls|, |sent|)
    decreases |calls| - round
  {
    if round < |calls| {
      var c := calls[round];
      if c.got.Got? {
        var r := c.got.reply;
        if IsStatus(r, OK) && Truthy(r.nextPageToken) {
          var params := if Truthy(token) then PageToken(token.value) else first;
          NearbyLoopCounts(calls, c.next, round + 1, r.nextPageToken, first, acc + r.results, sent + [params]);
        }
      }
    }
  }

  /** An OK page with a token in front of the rest of the page loop. */
  lemma ResultsPrepend(r: Reply, rest: NearbyRun, round: nat, total: nat, acc: seq<Place>)
    requires round < total
    requires IsStatus(r, OK)
    requires LoopResults(rest, round + 1, total, acc + r.results)
    requires rest.outcome.Fetched? && round + 1 < total ==> |rest.pages| >= 1
    ensures LoopResults(NearbyRun(rest.outcome, rest.next, rest.requests, [r] + rest.pages), round, total, acc)
  {
    var pages := [r] + rest.pages;
    var n := |pages|;
    if rest.outcome.Fetched? {
      ConcatCons(r, rest.pages);
      if n > 1 {
        assert pages[n - 1] == rest.pages[n - 2];
        assert pages[..n - 1] == [r] + rest.pages[..n - 2];
        ConcatCons(r, rest.pages[..n - 2]);
      } else {
        assert rest.pages == [];
      }
    }
  }

  lemma {:induction false} NearbyLoopResults(calls: seq<Call>, cur: nat, round: nat, token: Option<string>, first: Params, acc: seq<Place>, sent: seq<Params>)
    requires round <= |calls|
    ensures LoopResults(NearbyLoop(calls, cur, round, token, first, acc, sent), round, |calls|, acc)
    decreases |calls| - round
  {
    if round < |calls| {
      var c := calls[round];
      if c.got.Got? {
        var r := c.got.reply;
        if IsStatus(r, OK) && Truthy(r.nextPageToken) {
          var params := if Truthy(token) then PageToken(token.value) else first;
          var rest := NearbyLoop(calls, c.next, round + 1, r.nextPageToken, first, acc + r.results, sent + [params]);
          NearbyLoopResults(calls, c.next, round + 1, r.nextPageToken, first, acc + r.results, sent + [params]);
          NearbyLoopCounts(calls, c.next, round + 1, r.nextPageToken, first, acc + r.results, sent + [params]);
          ResultsPrepend(r, rest, round, |calls|, acc);
        } else {
          assert Concat([r]) == Concat([]) + r.results;
          assert [r][..0] == [];
        }
      }
    }
  }

  /** The requests after `sent` start with this iteration's parameters and
      each later one carries the token of the page before it. */
  predicate ChainedFrom(run: NearbyRun, sent: seq<Params>, params: Params) {
    && |run.requests| >= |sent| + 1
    && run.requests[..|sent|] == sent
    && run.requests[|sent|] == params
    && (forall j :: 0 <= j < |run.requests| - |sent| - 1 ==> LinkAt(run, |sent|, j))
  }

  /** Page `j` of the run has a next-page token and the request after it,
      the `k + j + 1`-th, carries that token. */
  predicate LinkAt(run: NearbyRun, k: nat, j: nat) {
    && j < |run.pages| && Truthy(run.pages[j].nextPageToken)
    && k + j + 1 < |run.requests|
    && run.requests[k + j + 1] == PageToken(run.pages[j].nextPageToken.value)
  }

  lemma ChainPrepend(r: Reply, rest: NearbyRun, sent: seq<Params>, params: Params)
    requires Truthy(r.nextPageToken)
    requires |rest.requests| >= |sent| + 1 && rest.requests[..|sent|] == sent && rest.requests[|sent|] == params
    requires |rest.requests| == |sent| + 1 || ChainedFrom(rest, sent + [params], PageToken(r.nextPageToken.value))
    ensures ChainedFrom(NearbyRun(rest.outcome, rest.next, rest.requests, [r] + rest.pages), sent, params)
  {
    var k := |sent|;
    var run := NearbyRun(rest.outcome, rest.next, rest.requests, [r] + rest.pages);
    if |rest.requests| > k + 1 {
      var token := PageToken(r.nextPageToken.value);
      assert |sent + [params]| == k + 1;
      forall j | 0 <= j < |run.requests| - k - 1
        ensures LinkAt(run, k, j)
      {
        if j > 0 {
          assert LinkAt(rest, k + 1, j - 1);
          assert run.pages[j] == rest.pages[j - 1];
        } else {
          assert rest.requests[k + 1] == token;
        }
      }
    }
  }

  lemma {:induction false} NearbyLoopChained(calls: seq<Call>, cur: nat, round: nat, token: Option<string>, first: Params, acc: seq<Place>, sent: seq<Params>)
    requires round < |calls|
    ensures ChainedFrom(NearbyLoop(calls, cur, round, token, first, acc, sent), sent,
                        if Truthy(token) then PageToken(token.value) else first)
    decreases |calls| - round
  {
    var params := if Truthy(token) then PageToken(token.value) else first;
    var c := calls[round];
    var run := NearbyLoop(calls, cur, round, token, first, acc, sent);
    if c.got.Got? {
      var r := c.got.reply;
      if IsStatus(r, OK) && Truthy(r.nextPageToken) {
        var sent' := sent + [params];
        var rest := NearbyLoop(calls, c.next, round + 1, r.nextPageToken, first, acc + r.results, sent');
        if round + 1 < |calls| {
          NearbyLoopChained(calls, c.next, round + 1, r.nextPageToken, first, acc + r.results, sent');
          assert rest.requests[..|sent'|][..|sent|] == sent;
          assert rest.requests[..|sent|] == sent;
        } else {
          assert rest.requests == sent';
        }
        ChainPrepend(r, rest, sent, params);
      } else {
        assert run.requests == sent + [params];
      }
    } else {
      assert run.requests == sent + [params];
    }
  }

  /** What `fetch_nearby` promises of a run whose first request is `first`
      and which reads the stream from `from`: at most three page iterations;
      the first request is the Nearby Search and each later one carries only
      the previous page's token; every page but the last was OK with a token.
      The result is the concatenation of the OK pages in order; a final
      ZERO_RESULTS keeps what was gathered; a final page with any other
      status, after its retries, discards everything and yields []. A
      `safe_get` that gives up ends the fetch with its error. */
  predicate NearbyPromise(run: NearbyRun, first: Params) {
    && Chained(run, first)
    && LoopCounts(run, 0, PAGES, 0)
    && LoopResults(run, 0, PAGES, [])
    && |run.requests| <= PAGES
  }

  /** The page loop over any three page calls. */
  lemma NearbyLoopSpec(calls: seq<Call>, from: nat, first: Params)
    requires |calls| == PAGES
    ensures NearbyPromise(NearbyLoop(calls, from, 0, None, first, [], []), first)
  {
    NearbyLoopCounts(calls, from, 0, None, first, [], []);
    NearbyLoopResults(calls, from, 0, None, first, [], []);
    NearbyLoopChained(calls, from, 0, None, first, [], []);
    var run := NearbyLoop(calls, from, 0, None, first, [], []);
    forall i | 0 <= i < |run.requests| - 1
      ensures i < |run.pages| && Truthy(run.pages[i].nextPageToken)
              && run.requests[i + 1] == PageToken(run.pages[i].nextPageToken.value)
    {
      assert LinkAt(run, 0, i);
    }
  }

  lemma NearbySpec(stream: seq<Attempt<Reply>>, from: nat, location: Location, radius: nat, keyword: string)
    ensures NearbyPromise(Nearby(stream, from, location, radius, keyword), NearbySearch(location, radius, keyword))
  {
    NearbyLoopSpec(PageCalls(stream, from, PAGES), from, NearbySearch(location, radius, keyword));
  }

  /** The requests of one page iteration: `safe_get`, the INVALID_REQUEST
      retry while a page token is in use, and the UNKNOWN_ERROR retry. The
      source tests OK and ZERO_RESULTS before the UNKNOWN_ERROR retry and again
      after it, which is the same as classifying the reply after the retry. */
  method FetchPage(stream: seq<Attempt<Reply>>, from: nat, paged: bool) returns (got: Got, next: nat)
    ensures Call(got, next) == PageSpec(stream, from, paged)
  {
    var waits;
    got, next, waits := SafeGet(stream, from, MAX_TRIES);
    if got.GaveUp? {
      return;
    }
    if IsStatus(got.reply, INVALID_REQUEST) && paged {
      got, next, waits := SafeGet(stream, next, MAX_TRIES);
      if got.GaveUp? {
        return;
      }
    }
    if IsStatus(got.reply, UNKNOWN_ERROR) {
      got, next, waits := SafeGet(stream, next, MAX_TRIES);
    }
  }

  /** The paging loop of `fetch_nearby`; `requests` are the parameters of each
      page iteration (all attempts of one iteration share them). */
  method FetchNearby(stream: seq<Attempt<Reply>>, from: nat, location: Location, radius: nat, keyword: string)
    returns (outcome: Fetch, next: nat, requests: seq<Params>)
    ensures var run := Nearby(stream, from, location, radius, keyword);
      outcome == run.outcome && next == run.next && requests == run.requests
  {
    var first := NearbySearch(location, radius, keyword);
    var params := first;
    var allResults: seq<Place> := [];
    var nextToken: Option<string> := None;
    var cur := from;
    requests := [];
    ghost var calls := PageCalls(stream, from, PAGES);
    ghost var whole := Nearby(stream, from, location, radius, keyword);
    var page := 0;
    while page < PAGES
      invariant page <= PAGES
      invariant Truthy(nextToken) <==> page > 0
      invariant page > 0 ==> cur == calls[page - 1].next
      invariant page == 0 ==> cur == from && params == first
      invariant var rest := NearbyLoop(calls, cur, page, nextToken, first, allResults, requests);
        whole.outcome == rest.outcome && whole.next == rest.next && whole.requests == rest.requests
    {
      if Truthy(nextToken) {
        params := PageToken(nextToken.value);
      }
      var got, n := FetchPage(stream, cur, Truthy(nextToken));
      PageCallsAt(stream, from, PAGES, page);
      assert Call(got, n) == calls[page];
      requests := requests + [params];
      if got.GaveUp? {
        return NetworkGaveUp, n, requests;
      }
      var data := got.reply;
      if IsStatus(data, OK) {
        allResults := allResults + data.results;
        nextToken := data.nextPageToken;
        if !Truthy(nextToken) {
          return Fetched(allResults), n, requests;
        }
        cur, page := n, page + 1;
      } else if IsStatus(data, ZERO_RESULTS) {
        return Fetched(allResults), n, requests;
      } else {
        return Fetched([]), n, requests;
      }
    }
    return Fetched(allResults), cur, requests;
  }
}
