/** The page loop shared by the target-capped crawler's `fetch_nearby` and the
    text-search exporter's `fetch_text_search`: one plain request per page
    (no retry loop), at most `max_pages` pages, paging by next_page_token, and
    an exception on any status other than OK or ZERO_RESULTS. Only the
    crawler repeats a page once on INVALID_REQUEST while a page token is in
    use; `repeatInvalid` says which of the two loops is meant. */
module Paging {
  import opened Places

  /** How a fetch ends: the gathered results, the RuntimeError raised for an
      unacceptable status, or a `requests` or decoding exception. */
  datatype PagedEnd = Results(places: seq<Place>) | StatusError(status: Option<string>) | NetworkError

  /** The deciding attempt of one page iteration and the stream position
      after it: the request, and, when `repeat` holds, its one repeat on
      INVALID_REQUEST. */
  datatype Step = Step(got: Attempt<Reply>, next: nat)

  function PageStep(stream: seq<Attempt<Reply>>, cur: nat, repeat: bool): Step {
    match At(stream, cur)
    case Failed => Step(Failed, cur + 1)
    case Answered(r) =>
      if IsStatus(r, INVALID_REQUEST) && repeat then Step(At(stream, cur + 1), cur + 2)
      else Step(Answered(r), cur + 1)
  }

  /** A run of the fetch: how it ended, the stream position after it, the
      parameters of each page iteration, and the deciding reply of each page
      iteration that got one. */
  datatype PagedRun = PagedRun(outcome: PagedEnd, next: nat, requests: seq<Params>, pages: seq<Reply>)

  /** The page loop from iteration `round` of `maxPages` on; `acc`, `sent` and
      `pages` are what the iterations so far gathered, sent and received. */
  function PagedLoop(stream: seq<Attempt<Reply>>, repeatInvalid: bool, cur: nat, round: nat, maxPages: nat,
                     token: Option<string>, first: Params, acc: seq<Place>, sent: seq<Params>, pages: seq<Reply>): PagedRun
    decreases maxPages - round
  {
    if round >= maxPages then PagedRun(Results(acc), cur, sent, pages)
    else
      var params := if Truthy(token) then PageToken(token.value) else first;
      var s := PageStep(stream, cur, repeatInvalid && Truthy(token));
      match s.got
      case Failed => PagedRun(NetworkError, s.next, sent + [params], pages)
      case Answered(r) =>
        if !Acceptable(r) then PagedRun(StatusError(r.status), s.next, sent + [params], pages + [r])
        else if Truthy(r.nextPageToken) then
          PagedLoop(stream, repeatInvalid, s.next, round + 1, maxPages, r.nextPageToken, first, acc + r.results, sent + [params], pages + [r])
        else PagedRun(Results(acc + r.results), s.next, sent + [params], pages + [r])
  }

  /** The page loop from its start, with `first` as the first request. */
  function Paged(stream: seq<Attempt<Reply>>, repeatInvalid: bool, from: nat, maxPages: nat, first: Params): PagedRun {
    PagedLoop(stream, repeatInvalid, from, 0, maxPages, None, first, [], [], [])
  }

  /** The first request is the Nearby Search; each later one carries exactly
      the previous page's token, which was OK or ZERO_RESULTS. */
  predicate Chained(requests: seq<Params>, pages: seq<Reply>, first: Params) {
    && (|requests| > 0 ==> requests[0] == first)
    && (forall i :: 0 <= i < |requests| - 1 ==> ChainLink(requests, pages, i))
  }

  /** Request `i + 1` carries the token of page `i`, which was acceptable. */
  predicate ChainLink(requests: seq<Params>, pages: seq<Reply>, i: nat)
    requires i + 1 < |requests|
  {
    i < |pages| && Acceptable(pages[i]) && Truthy(pages[i].nextPageToken)
    && requests[i + 1] == PageToken(pages[i].nextPageToken.value)
  }

  /** What the loop has gathered after `round` iterations that all went on. */
  predicate SoFar(round: nat, token: Option<string>, acc: seq<Place>, sent: seq<Params>, pages: seq<Reply>, first: Params) {
    && |sent| == |pages| == round
    && acc == Concat(pages)
    && Chained(sent, pages, first)
    && (forall i :: 0 <= i < |pages| ==> Acceptable(pages[i]) && Truthy(pages[i].nextPageToken))
    && token == (if round == 0 then None else pages[round - 1].nextPageToken)
  }

  /** The promise of a fetch that made at most `maxPages` page iterations.
      Requests chain through page tokens; every completed page but the last
      was acceptable with a token. Results are the concatenated results of
      the pages, all acceptable, and fewer than `maxPages` pages means the
      last had no token. A status error reports the status of a last page
      that was neither OK nor ZERO_RESULTS, its repeat included. A network
      error happens on the last request and gets no page. */
  predicate PagedPromise(run: PagedRun, first: Params, maxPages: nat) {
    && |run.requests| <= maxPages
    && Chained(run.requests, run.pages, first)
    && |run.requests| == |run.pages| + (if run.outcome.NetworkError? then 1 else 0)
    && (forall i :: 0 <= i < |run.pages| - 1 ==> Acceptable(run.pages[i]) && Truthy(run.pages[i].nextPageToken))
    && (run.outcome.Results? ==>
          && run.outcome.places == Concat(run.pages)
          && (forall i :: 0 <= i < |run.pages| ==> Acceptable(run.pages[i]))
          && (0 < |run.pages| < maxPages ==> !Truthy(run.pages[|run.pages| - 1].nextPageToken)))
    && (run.outcome.StatusError? ==>
          |run.pages| > 0 && !Acceptable(run.pages[|run.pages| - 1])
          && run.outcome.status == run.pages[|run.pages| - 1].status)
  }

  /** The next iteration's request carries the token of the last page. */
  lemma ChainedRequest(round: nat, token: Option<string>, acc: seq<Place>, sent: seq<Params>, pages: seq<Reply>, first: Params)
    requires SoFar(round, token, acc, sent, pages, first)
    ensures Chained(sent + [if Truthy(token) then PageToken(token.value) else first], pages, first)
  {
    var sent' := sent + [if Truthy(token) then PageToken(token.value) else first];
    forall i | 0 <= i < |sent'| - 1
      ensures ChainLink(sent', pages, i)
    {
      if i + 1 < |sent| {
        assert ChainLink(sent, pages, i);
        assert sent'[i + 1] == sent[i + 1];
      } else {
        assert i == round - 1 && Acceptable(pages[i]) && Truthy(pages[i].nextPageToken);
      }
    }
  }

  /** A reply received keeps the chain of the requests before it. */
  lemma ChainedReply(sent: seq<Params>, pages: seq<Reply>, first: Params, r: Reply)
    requires Chained(sent, pages, first)
    ensures Chained(sent, pages + [r], first)
  {
    var pages' := pages + [r];
    forall i | 0 <= i < |sent| - 1
      ensures ChainLink(sent, pages', i)
    {
      assert ChainLink(sent, pages, i);
      assert pages'[i] == pages[i];
    }
  }

  lemma ConcatSnoc(pages: seq<Reply>, r: Reply)
    ensures Concat(pages + [r]) == Concat(pages) + r.results
  {
    var all := pages + [r];
    assert all[..|all| - 1] == pages;
    assert all[|all| - 1] == r;
  }

  /** One more iteration's request and reply extend what was gathered. */
  lemma Extend(round: nat, token: Option<string>, acc: seq<Place>, sent: seq<Params>, pages: seq<Reply>, first: Params, r: Reply)
    requires SoFar(round, token, acc, sent, pages, first)
    ensures var params := if Truthy(token) then PageToken(token.value) else first;
      && Chained(sent + [params], pages, first)
      && Chained(sent + [params], pages + [r], first)
      && Concat(pages + [r]) == acc + r.results
      && (forall i :: 0 <= i < |pages| ==> (pages + [r])[i] == pages[i])
  {
    ChainedRequest(round, token, acc, sent, pages, first);
    ChainedReply(sent + [if Truthy(token) then PageToken(token.value) else first], pages, first, r);
    ConcatSnoc(pages, r);
  }

  /** An acceptable page with a token lets the loop go on. */
  lemma SoFarNext(round: nat, token: Option<string>, acc: seq<Place>, sent: seq<Params>, pages: seq<Reply>, first: Params, r: Reply)
    requires SoFar(round, token, acc, sent, pages, first) && Acceptable(r) && Truthy(r.nextPageToken)
    ensures SoFar(round + 1, r.nextPageToken, acc + r.results, sent + [if Truthy(token) then PageToken(token.value) else first], pages + [r], first)
  {
    Extend(round, token, acc, sent, pages, first, r);
  }

  /** A network error on the next request keeps the promise. */
  lemma NetworkEnd(round: nat, maxPages: nat, token: Option<string>, acc: seq<Place>, sent: seq<Params>, pages: seq<Reply>,
                   first: Params, next: nat)
    requires round < maxPages && SoFar(round, token, acc, sent, pages, first)
    ensures PagedPromise(PagedRun(NetworkError, next, sent + [if Truthy(token) then PageToken(token.value) else first], pages), first, maxPages)
  {
    ChainedRequest(round, token, acc, sent, pages, first);
  }

  /** An unacceptable reply to the next request keeps the promise. */
  lemma StatusEnd(round: nat, maxPages: nat, token: Option<string>, acc: seq<Place>, sent: seq<Params>, pages: seq<Reply>,
                  first: Params, r: Reply, next: nat)
    requires round < maxPages && SoFar(round, token, acc, sent, pages, first) && !Acceptable(r)
    ensures PagedPromise(PagedRun(StatusError(r.status), next, sent + [if Truthy(token) then PageToken(token.value) else first], pages + [r]),
                         first, maxPages)
  {
    Extend(round, token, acc, sent, pages, first, r);
  }

  /** An acceptable last page keeps the promise. */
  lemma LastPageEnd(round: nat, maxPages: nat, token: Option<string>, acc: seq<Place>, sent: seq<Params>, pages: seq<Reply>,
                    first: Params, r: Reply, next: nat)
    requires round < maxPages && SoFar(round, token, acc, sent, pages, first) && Acceptable(r) && !Truthy(r.nextPageToken)
    ensures PagedPromise(PagedRun(Results(acc + r.results), next, sent + [if Truthy(token) then PageToken(token.value) else first], pages + [r]),
                         first, maxPages)
  {
    Extend(round, token, acc, sent, pages, first, r);
  }

  lemma {:induction false} PagedLoopSpec(stream: seq<Attempt<Reply>>, repeatInvalid: bool, cur: nat, round: nat, maxPages: nat,
                                         token: Option<string>, first: Params, acc: seq<Place>, sent: seq<Params>, pages: seq<Reply>)
    requires round <= maxPages
    requires SoFar(round, token, acc, sent, pages, first)
    ensures PagedPromise(PagedLoop(stream, repeatInvalid, cur, round, maxPages, token, first, acc, sent, pages), first, maxPages)
    decreases maxPages - round
  {
    if round < maxPages {
      var params := if Truthy(token) then PageToken(token.value) else first;
      var s := PageStep(stream, cur, repeatInvalid && Truthy(token));
      var run := PagedLoop(stream, repeatInvalid, cur, round, maxPages, token, first, acc, sent, pages);
      match s.got
      case Failed =>
        assert run == PagedRun(NetworkError, s.next, sent + [params], pages);
        NetworkEnd(round, maxPages, token, acc, sent, pages, first, s.next);
      case Answered(r) =>
        if !Acceptable(r) {
          assert run == PagedRun(StatusError(r.status), s.next, sent + [params], pages + [r]);
          StatusEnd(round, maxPages, token, acc, sent, pages, first, r, s.next);
        } else if Truthy(r.nextPageToken) {
          assert run == PagedLoop(stream, repeatInvalid, s.next, round + 1, maxPages, r.nextPageToken, first, acc + r.results, sent + [params], pages + [r]);
          SoFarNext(round, token, acc, sent, pages, first, r);
          PagedLoopSpec(stream, repeatInvalid, s.next, round + 1, maxPages, r.nextPageToken, first, acc + r.results, sent + [params], pages + [r]);
        } else {
          assert run == PagedRun(Results(acc + r.results), s.next, sent + [params], pages + [r]);
          LastPageEnd(round, maxPages, token, acc, sent, pages, first, r, s.next);
        }
    }
  }

  /** Each page iteration makes one request, and at most one repeat when
      `repeatInvalid` holds: without it the stream advances by exactly the
      number of requests. */
  lemma {:induction false} PagedLoopAttempts(stream: seq<Attempt<Reply>>, repeatInvalid: bool, cur: nat, round: nat, maxPages: nat,
                                             token: Option<string>, first: Params, acc: seq<Place>, sent: seq<Params>, pages: seq<Reply>)
    ensures var run := PagedLoop(stream, repeatInvalid, cur, round, maxPages, token, first, acc, sent, pages);
      var k := |run.requests| - |sent|;
      && |sent| <= |run.requests|
      && cur + k <= run.next <= cur + (if repeatInvalid then 2 * k else k)
    decreases maxPages - round
  {
    if round < maxPages {
      var params := if Truthy(token) then PageToken(token.value) else first;
      var s := PageStep(stream, cur, repeatInvalid && Truthy(token));
      if s.got.Answered? {
        var r := s.got.reply;
        if Acceptable(r) && Truthy(r.nextPageToken) {
          PagedLoopAttempts(stream, repeatInvalid, s.next, round + 1, maxPages, r.nextPageToken, first, acc + r.results, sent + [params], pages + [r]);
        }
      }
    }
  }

  /** The page loop from its start keeps its promise and its attempt bound. */
  lemma PagedSpec(stream: seq<Attempt<Reply>>, repeatInvalid: bool, from: nat, maxPages: nat, first: Params)
    ensures var run := Paged(stream, repeatInvalid, from, maxPages, first);
      && PagedPromise(run, first, maxPages)
      && from + |run.requests| <= run.next <= from + (if repeatInvalid then 2 else 1) * |run.requests|
  {
    PagedLoopSpec(stream, repeatInvalid, from, 0, maxPages, None, first, [], [], []);
    PagedLoopAttempts(stream, repeatInvalid, from, 0, maxPages, None, first, [], [], []);
  }
}
