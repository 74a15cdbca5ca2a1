/** The postal-code filler: for each stored (city, place_id) still lacking a
    postal code, a Place Details request with a retry loop on rate limiting
    and network errors, an UPDATE of that one row, and batched commits. */
module FillZip {
  import opened Places
  import opened Table

  const MAX_RETRIES := 6
  const BATCH_COMMIT := 200
  const MAX_RATE_WAIT := 60
  const MAX_NET_WAIT := 30
  const POSTAL_CODE := "postal_code"
  const UNKNOWN := "UNKNOWN"

  /** One entry of `address_components`; a missing `types` reads as []. */
  datatype Component = Component(types: seq<string>, longName: Option<string>)

  /** The `result` object of a Details reply; a missing `result` reads as one
      with no fields. */
  datatype DetailsResult = DetailsResult(formattedAddress: Option<string>, components: Option<seq<Component>>)

  /** A decoded Details reply with an HTTP success status. */
  datatype DetailsReply = DetailsReply(status: Option<string>, result: DetailsResult)

  /** What `fetch_details` returns: (postal_code, formatted_address, status). */
  datatype Details = Details(postalCode: Option<string>, formattedAddress: Option<string>, status: string)

  /** Component `i` is the first one typed as a postal code. */
  predicate FirstPostalAt(cs: seq<Component>, i: int) {
    0 <= i < |cs| && POSTAL_CODE in cs[i].types && forall j :: 0 <= j < i ==> POSTAL_CODE !in cs[j].types
  }

  /** The long name of the first component typed as a postal code. */
  function FirstPostalCode(cs: seq<Component>): (r: Option<string>)
    ensures (forall i :: 0 <= i < |cs| ==> POSTAL_CODE !in cs[i].types) ==> r == None
    ensures forall i :: FirstPostalAt(cs, i) ==> r == cs[i].longName
    decreases |cs|
  {
    if cs == [] then None
    else if POSTAL_CODE in cs[0].types then cs[0].longName
    else FirstPostalShift(cs); FirstPostalCode(cs[1..])
  }

  /** Past a first component that is not a postal code, the first postal
      code is the tail's first one. */
  lemma FirstPostalShift(cs: seq<Component>)
    requires cs != [] && POSTAL_CODE !in cs[0].types
    ensures forall i :: FirstPostalAt(cs, i) ==> FirstPostalAt(cs[1..], i - 1)
    ensures (forall i :: 0 <= i < |cs| ==> POSTAL_CODE !in cs[i].types) ==>
      forall i :: 0 <= i < |cs[1..]| ==> POSTAL_CODE !in cs[1..][i].types
  {
    forall i | FirstPostalAt(cs, i)
      ensures FirstPostalAt(cs[1..], i - 1)
    {
      assert forall j :: 0 <= j < i - 1 ==> cs[1..][j] == cs[j + 1];
    }
  }

  /** `extract_postal_code`: None for a missing or empty component list,
      otherwise the long name of the first postal-code component (which may
      itself be missing), and None when no component is one. */
  function ExtractPostalCode(components: Option<seq<Component>>): (r: Option<string>)
    ensures components.None? || components.value == [] ==> r == None
    ensures components.Some? && (forall i :: 0 <= i < |components.value| ==> POSTAL_CODE !in components.value[i].types) ==> r == None
    ensures components.Some? ==> forall i :: FirstPostalAt(components.value, i) ==> r == components.value[i].longName
  {
    if components.None? || components.value == [] then None else FirstPostalCode(components.value)
  }

  /** The status mapping of `fetch_details`. */
  function FetchDetails(reply: DetailsReply): (d: Details)
    ensures reply.status.None? ==> d.status == UNKNOWN
    ensures reply.status.Some? ==> d.status == reply.status.value
    ensures d.status != OK ==> d.postalCode == None && d.formattedAddress == None
    ensures d.status == OK ==>
      d.formattedAddress == reply.result.formattedAddress && d.postalCode == ExtractPostalCode(reply.result.components)
  {
    var status := if reply.status.Some? then reply.status.value else UNKNOWN;
    if status != OK then Details(None, None, status)
    else Details(ExtractPostalCode(reply.result.components), reply.result.formattedAddress, status)
  }

  /** How the retry loop for one row ended: the row's details, a status that
      is skipped, a network failure given up on (skipped as well), or the
      rate-limit exit of the whole run (`SystemExit(2)`). */
  datatype RowEnd = Updated(postalCode: Option<string>, formattedAddress: Option<string>) | Skipped(status: string) | NetGaveUp | RateExit

  /** A run of the retry loop: its end, the stream position after it, and the
      waits it slept (jitter-free, in seconds). */
  datatype RowRun = RowRun(end: RowEnd, next: nat, waits: seq<nat>)

  /** `fetch_details` on one attempt: a network error stays one. */
  function DetailsOf(a: Attempt<DetailsReply>): Attempt<Details> {
    match a
    case Failed => Failed
    case Answered(reply) => Answered(FetchDetails(reply))
  }

  /** Attempt `i` as the retry loop sees it, after `fetch_details`. */
  function DetailsAt(stream: seq<Attempt<DetailsReply>>, i: nat): Attempt<Details> {
    DetailsOf(At(stream, i))
  }

  function StatusOf(a: Attempt<Details>): Option<string> {
    if a.Answered? then Some(a.reply.status) else None
  }

  /** The retry loop from the attempt at `cur` on, with the shared counter
      `retry` and the rate-limit `backoff`, over the decoded attempts. */
  function RowLoop(stream: seq<Attempt<DetailsReply>>, cur: nat, retry: nat, backoff: nat, waits: seq<nat>): RowRun
    decreases MAX_RETRIES - retry
  {
    match DetailsAt(stream, cur)
    case Failed =>
      if retry + 1 > MAX_RETRIES then RowRun(NetGaveUp, cur + 1, waits)
      else RowLoop(stream, cur + 1, retry + 1, backoff, waits + [Min(MAX_NET_WAIT, Pow2(retry + 1))])
    case Answered(d) =>
      if d.status == OK then RowRun(Updated(d.postalCode, d.formattedAddress), cur + 1, waits)
      else if d.status == OVER_QUERY_LIMIT then
        if retry + 1 > MAX_RETRIES then RowRun(RateExit, cur + 1, waits + [Min(MAX_RATE_WAIT, backoff)])
        else RowLoop(stream, cur + 1, retry + 1, 2 * backoff, waits + [Min(MAX_RATE_WAIT, backoff)])
      else RowRun(Skipped(d.status), cur + 1, waits)
  }

  /** The retry loop of `main` for one row, from `retry = 0`, `backoff = 1`. */
  function Row(stream: seq<Attempt<DetailsReply>>, from: nat): RowRun {
    RowLoop(stream, from, 0, 1, [])
  }

  /** An attempt the loop retries: a network error or OVER_QUERY_LIMIT. */
  predicate Retried(a: Attempt<Details>) {
    a.Failed? || StatusOf(a) == Some(OVER_QUERY_LIMIT)
  }

  /** How many of the first `n` attempts from `from` were rate-limited. */
  function RateHits(stream: seq<Attempt<DetailsReply>>, from: nat, n: nat): nat
    decreases n
  {
    if n == 0 then 0
    else RateHits(stream, from, n - 1) + (if StatusOf(DetailsAt(stream, from + n - 1)) == Some(OVER_QUERY_LIMIT) then 1 else 0)
  }

  /** The wait after attempt `i` of a row that retried it: min(30, 2^retry)
      after a network error, with the counter already incremented, and
      min(60, backoff) after a rate limit, where the backoff has doubled once
      per earlier rate limit. */
  function WaitAfter(stream: seq<Attempt<DetailsReply>>, from: nat, i: nat): nat {
    if DetailsAt(stream, from + i).Failed? then Min(MAX_NET_WAIT, Pow2(i + 1))
    else Min(MAX_RATE_WAIT, Pow2(RateHits(stream, from, i)))
  }

  /** The attempt that ended the loop agrees with how it ended. */
  predicate Decides(a: Attempt<Details>, end: RowEnd) {
    match end
    case Updated(pc, formattedAddress) => a == Answered(Details(pc, formattedAddress, OK))
    case Skipped(s) => StatusOf(a) == Some(s) && s != OK && s != OVER_QUERY_LIMIT
    case NetGaveUp => a.Failed?
    case RateExit => StatusOf(a) == Some(OVER_QUERY_LIMIT)
  }

  /** What the retry loop promises for a row starting at `from`: between 1 and
      MAX_RETRIES + 1 attempts, all but the last of them retried; giving up
      (on the network or with the exit) takes all MAX_RETRIES + 1 attempts;
      the last attempt decides the end; one wait per retried attempt, each
      as `WaitAfter` says and at most 60 seconds. */
  predicate RowPromise(stream: seq<Attempt<DetailsReply>>, from: nat, run: RowRun) {
    && from < run.next <= from + MAX_RETRIES + 1
    && (run.end.RateExit? || run.end.NetGaveUp? ==> run.next == from + MAX_RETRIES + 1)
    && (forall j :: from <= j < run.next - 1 ==> Retried(DetailsAt(stream, j)))
    && Decides(DetailsAt(stream, run.next - 1), run.end)
    && |run.waits| == run.next - from - (if run.end.RateExit? then 0 else 1)
    && (forall i :: 0 <= i < |run.waits| ==> run.waits[i] == WaitAfter(stream, from, i) && 1 <= run.waits[i] <= MAX_RATE_WAIT)
  }

  /** What the retry loop knows after `j` retried attempts of a row: the
      backoff has doubled once per rate limit, and each wait so far is as
      `WaitAfter` says. */
  predicate Retrying(stream: seq<Attempt<DetailsReply>>, from: nat, j: nat, backoff: nat, waits: seq<nat>) {
    && j <= MAX_RETRIES
    && backoff == Pow2(RateHits(stream, from, j))
    && |waits| == j
    && (forall i :: 0 <= i < j ==> waits[i] == WaitAfter(stream, from, i) && 1 <= waits[i] <= MAX_RATE_WAIT)
    && (forall i :: from <= i < from + j ==> Retried(DetailsAt(stream, i)))
  }

  /** An attempt the loop ends on keeps the promise. */
  lemma RowEndSpec(stream: seq<Attempt<DetailsReply>>, from: nat, j: nat, backoff: nat, waits: seq<nat>)
    requires Retrying(stream, from, j, backoff, waits)
    requires !Retried(DetailsAt(stream, from + j)) || j == MAX_RETRIES
    ensures RowPromise(stream, from, RowLoop(stream, from + j, j, backoff, waits))
  {
  }

  /** A retried attempt keeps the loop retrying. */
  lemma RetryStep(stream: seq<Attempt<DetailsReply>>, from: nat, j: nat, backoff: nat, waits: seq<nat>)
    returns (backoff': nat, waits': seq<nat>)
    requires Retrying(stream, from, j, backoff, waits)
    requires Retried(DetailsAt(stream, from + j)) && j < MAX_RETRIES
    ensures Retrying(stream, from, j + 1, backoff', waits')
    ensures RowLoop(stream, from + j, j, backoff, waits) == RowLoop(stream, from + j + 1, j + 1, backoff', waits')
  {
    backoff' := if DetailsAt(stream, from + j).Failed? then backoff else 2 * backoff;
    assert backoff' == Pow2(RateHits(stream, from, j + 1));
    waits' := waits + [WaitAfter(stream, from, j)];
    assert forall i :: 0 <= i < j ==> waits'[i] == waits[i];
  }

  lemma {:induction false} RowLoopSpec(stream: seq<Attempt<DetailsReply>>, from: nat, j: nat, backoff: nat, waits: seq<nat>)
    requires Retrying(stream, from, j, backoff, waits)
    ensures RowPromise(stream, from, RowLoop(stream, from + j, j, backoff, waits))
    decreases MAX_RETRIES - j
  {
    if Retried(DetailsAt(stream, from + j)) && j < MAX_RETRIES {
      var backoff', waits' := RetryStep(stream, from, j, backoff, waits);
      RowLoopSpec(stream, from, j + 1, backoff', waits');
    } else {
      RowEndSpec(stream, from, j, backoff, waits);
    }
  }

  /** The retry loop of a row keeps its promise about the decoded attempts. */
  lemma RowSpec(stream: seq<Attempt<DetailsReply>>, from: nat)
    ensures RowPromise(stream, from, Row(stream, from))
  {
    assert Retrying(stream, from, 0, 1, []);
    RowLoopSpec(stream, from, 0, 1, []);
    assert from + 0 == from;
  }

  /** The `while True` retry loop of `main` for one row, as the source writes
      it. */
  method FillRow(stream: seq<Attempt<DetailsReply>>, from: nat) returns (end: RowEnd, next: nat, waits: seq<nat>)
    ensures RowRun(end, next, waits) == Row(stream, from)
  {
    var retry: nat := 0;
    var backoff: nat := 1;
    ghost var whole := Row(stream, from);
    next, waits := from, [];
    while true
      invariant retry <= MAX_RETRIES
      invariant RowLoop(stream, next, retry, backoff, waits) == whole
      decreases MAX_RETRIES - retry
    {
      var attempt := At(stream, next);
      next := next + 1;
      if attempt.Answered? {
        var d := FetchDetails(attempt.reply);
        if d.status == OK {
          return Updated(d.postalCode, d.formattedAddress), next, waits;
        } else if d.status == OVER_QUERY_LIMIT {
          waits := waits + [Min(MAX_RATE_WAIT, backoff)];
          backoff := backoff * 2;
          retry := retry + 1;
          if retry > MAX_RETRIES {
            return RateExit, next, waits;
          }
        } else {
          return Skipped(d.status), next, waits;
        }
      } else {
        retry := retry + 1;
        if retry > MAX_RETRIES {
          return NetGaveUp, next, waits;
        }
        waits := waits + [Min(MAX_NET_WAIT, Pow2(retry))];
      }
    }
  }

  /** The uncommitted table after the first `n` rows of `todo` ended as
      `ends` says; row i is stamped with logical time `clock + i`. */
  function Applied(rows: map<Key, Row>, todo: seq<Key>, ends: seq<RowEnd>, clock: nat, n: nat): map<Key, Row>
    requires n <= |ends| <= |todo|
    decreases n
  {
    if n == 0 then rows
    else
      var before := Applied(rows, todo, ends, clock, n - 1);
      match ends[n - 1]
      case Updated(pc, formattedAddress) => SetDetails(before, todo[n - 1], pc, formattedAddress, clock + n - 1)
      case _ => before
  }

  /** How many of the ends are updates. */
  function Updates(ends: seq<RowEnd>): nat
    ensures Updates(ends) <= |ends|
    decreases |ends|
  {
    if ends == [] then 0 else Updates(ends[..|ends| - 1]) + (if ends[|ends| - 1].Updated? then 1 else 0)
  }

  /** The rows the filler works through are exactly the stored ones. */
  lemma {:induction false} AppliedKeys(rows: map<Key, Row>, todo: seq<Key>, ends: seq<RowEnd>, clock: nat, n: nat)
    requires n <= |ends| <= |todo|
    ensures Applied(rows, todo, ends, clock, n).Keys == rows.Keys
    ensures forall k :: k in rows && k !in todo[..n] ==> Applied(rows, todo, ends, clock, n)[k] == rows[k]
    decreases n
  {
    if n > 0 {
      AppliedKeys(rows, todo, ends, clock, n - 1);
      assert forall k :: k in todo[..n - 1] ==> k in todo[..n];
    }
  }

  /** Updates of later rows never undo the postal code of an earlier row:
      after the updates of the first `n` rows, each updated key not updated
      again later carries the postal code its own reply gave. */
  lemma {:induction false} AppliedPostalCode(rows: map<Key, Row>, todo: seq<Key>, ends: seq<RowEnd>, clock: nat, n: nat, i: nat)
    requires n <= |ends| <= |todo|
    requires i < n && ends[i].Updated? && todo[i] in rows
    requires forall j :: i < j < n ==> todo[j] != todo[i]
    ensures var after := Applied(rows, todo, ends, clock, n);
      todo[i] in after && after[todo[i]].postalCode == ends[i].postalCode
      && after[todo[i]].detailsAddress == ends[i].formattedAddress && after[todo[i]].detailsFetchedAt == Some(clock + i)
    decreases n
  {
    AppliedKeys(rows, todo, ends, clock, n - 1);
    AppliedLast(rows, todo, ends, clock, n);
    if i < n - 1 {
      AppliedPostalCode(rows, todo, ends, clock, n - 1, i);
    }
  }

  /** For a todo list of distinct stored keys, as the SELECT yields, every
      row whose loop ended with its details carries that postal code,
      address and stamp, and the key set is untouched. */
  lemma FilledRows(rows: map<Key, Row>, todo: seq<Key>, ends: seq<RowEnd>, clock: nat, n: nat)
    requires n <= |ends| <= |todo|
    requires forall i, j :: 0 <= i < j < |todo| ==> todo[i] != todo[j]
    requires forall i :: 0 <= i < |todo| ==> todo[i] in rows
    ensures var after := Applied(rows, todo, ends, clock, n);
      && after.Keys == rows.Keys
      && forall i :: 0 <= i < n && ends[i].Updated? ==>
           after[todo[i]].postalCode == ends[i].postalCode && after[todo[i]].detailsAddress == ends[i].formattedAddress
           && after[todo[i]].detailsFetchedAt == Some(clock + i)
  {
    AppliedKeys(rows, todo, ends, clock, n);
    forall i | 0 <= i < n && ends[i].Updated?
      ensures Applied(rows, todo, ends, clock, n)[todo[i]].postalCode == ends[i].postalCode
      ensures Applied(rows, todo, ends, clock, n)[todo[i]].detailsAddress == ends[i].formattedAddress
      ensures Applied(rows, todo, ends, clock, n)[todo[i]].detailsFetchedAt == Some(clock + i)
    {
      AppliedPostalCode(rows, todo, ends, clock, n, i);
    }
  }

  /** What the last of `n` rows does to the state after the first `n - 1`. */
  lemma AppliedLast(rows: map<Key, Row>, todo: seq<Key>, ends: seq<RowEnd>, clock: nat, n: nat)
    requires 0 < n <= |ends| <= |todo|
    ensures var before := Applied(rows, todo, ends, clock, n - 1);
      var after := Applied(rows, todo, ends, clock, n);
      && after.Keys == before.Keys
      && (forall k :: k in before && k != todo[n - 1] ==> after[k] == before[k])
      && (ends[n - 1].Updated? && todo[n - 1] in before ==>
           after[todo[n - 1]].postalCode == ends[n - 1].postalCode
           && after[todo[n - 1]].detailsAddress == ends[n - 1].formattedAddress
           && after[todo[n - 1]].detailsFetchedAt == Some(clock + n - 1))
  {
  }

  /** Row `i` of the loop ran its retry loop from stream position `froms[i]`,
      ended as that run decided, and left the stream at `froms[i + 1]`. */
  predicate RowAtFrom(stream: seq<Attempt<DetailsReply>>, froms: seq<nat>, ends: seq<RowEnd>, i: nat) {
    i < |ends| && i + 1 < |froms| && ends[i] == Row(stream, froms[i]).end && froms[i + 1] == Row(stream, froms[i]).next
  }

  /** The processed rows, in order, from stream position `from`: each row's
      retry loop starts where the previous row's stopped. */
  predicate RowsFrom(stream: seq<Attempt<DetailsReply>>, from: nat, froms: seq<nat>, ends: seq<RowEnd>) {
    |froms| == |ends| + 1 && froms[0] == from && forall i :: 0 <= i < |ends| ==> RowAtFrom(stream, froms, ends, i)
  }

  /** The retry loop from `cur` hits the rate-limit exit and stops at `next`. */
  predicate ExitAt(stream: seq<Attempt<DetailsReply>>, cur: nat, next: nat) {
    Row(stream, cur).end.RateExit? && next == Row(stream, cur).next
  }

  /** One more row, run from where the last one stopped, extends the record. */
  lemma RowsFromStep(stream: seq<Attempt<DetailsReply>>, from: nat, froms: seq<nat>, ends: seq<RowEnd>, end: RowEnd, next: nat)
    requires RowsFrom(stream, from, froms, ends)
    requires end == Row(stream, froms[|ends|]).end && next == Row(stream, froms[|ends|]).next
    ensures RowsFrom(stream, from, froms + [next], ends + [end])
  {
    forall i | 0 <= i < |ends| + 1
      ensures RowAtFrom(stream, froms + [next], ends + [end], i)
    {
      if i < |ends| {
        assert RowAtFrom(stream, froms, ends, i);
      }
    }
  }

  /** The loop of `main` over the rows to fill, with its counters and its
      commits every BATCH_COMMIT rows and at the end. `ends` lists how each
      processed row ended, as the retry loop run from `froms[i]` decided;
      `exited` is the rate-limit exit, which closes the
      connection without committing, so the table keeps only the updates up
      to the last multiple of BATCH_COMMIT. */
  method FillAll(table: RestaurantTable, stream: seq<Attempt<DetailsReply>>, from: nat, todo: seq<Key>, clock: nat)
    returns (updated: nat, skipped: nat, exited: bool, ends: seq<RowEnd>, committed: nat, next: nat, ghost froms: seq<nat>)
    modifies table
    ensures RowsFrom(stream, from, froms, ends)
    ensures exited ==> ExitAt(stream, froms[|ends|], next)
    ensures !exited ==> next == froms[|ends|]
    ensures |ends| <= |todo|
    ensures !exited ==> |ends| == |todo|
    ensures exited ==> |ends| < |todo|
    ensures forall i :: 0 <= i < |ends| ==> !ends[i].RateExit?
    ensures updated == Updates(ends) && updated + skipped == |ends|
    ensures !exited ==> committed == |ends|
    ensures exited ==> committed <= |ends| < committed + BATCH_COMMIT && committed % BATCH_COMMIT == 0
    ensures table.rows == Applied(old(table.rows), todo, ends, clock, committed)
    ensures table.unkeyed == old(table.unkeyed)
  {
    updated, skipped, exited, ends, committed, next := 0, 0, false, [], 0, from;
    froms := [from];
    var start := table.rows;
    var view := start;  // the connection's uncommitted state
    for i := 0 to |todo|
      invariant |ends| == i
      invariant RowsFrom(stream, from, froms, ends) && next == froms[i]
      invariant forall j :: 0 <= j < i ==> !ends[j].RateExit?
      invariant updated == Updates(ends) && updated + skipped == i
      invariant start == old(table.rows)
      invariant view == Applied(old(table.rows), todo, ends, clock, i)
      invariant committed <= i < committed + BATCH_COMMIT && committed % BATCH_COMMIT == 0
      invariant table.rows == Applied(old(table.rows), todo, ends, clock, committed)
      invariant table.unkeyed == old(table.unkeyed)
    {
      var exit;
      exit, next, ends, view, updated, skipped, froms := FillStep(stream, next, start, todo, ends, clock, view, updated, skipped, committed, from, froms);
      if exit {
        exited := true;
        return;
      }
      if (i + 1) % BATCH_COMMIT == 0 {
        table.rows, committed := view, i + 1;
      } else {
        CommitBound(i, committed);
      }
    }
    table.rows, committed := view, |todo|;
  }

  /** Between two commits fewer than BATCH_COMMIT rows are left uncommitted. */
  lemma CommitBound(i: nat, committed: nat)
    requires committed <= i < committed + BATCH_COMMIT && committed % BATCH_COMMIT == 0
    requires (i + 1) % BATCH_COMMIT != 0
    ensures i + 1 < committed + BATCH_COMMIT
  {
  }

  /** One row of the loop: its retry loop, then (unless that ended with the
      exit) its end recorded, its update applied to the uncommitted state
      and its counter incremented. */
  method FillStep(stream: seq<Attempt<DetailsReply>>, from: nat, rows: map<Key, Row>, todo: seq<Key>, ends: seq<RowEnd>,
                  clock: nat, view: map<Key, Row>, updated: nat, skipped: nat, ghost committed: nat,
                  ghost start: nat, ghost froms: seq<nat>)
    returns (exit: bool, next: nat, ends': seq<RowEnd>, view': map<Key, Row>, updated': nat, skipped': nat, ghost froms': seq<nat>)
    requires |ends| < |todo| && committed <= |ends|
    requires RowsFrom(stream, start, froms, ends) && from == froms[|ends|]
    requires view == Applied(rows, todo, ends, clock, |ends|)
    requires updated == Updates(ends) && updated + skipped == |ends|
    ensures next == Row(stream, from).next
    ensures exit <==> Row(stream, from).end.RateExit?
    ensures exit ==> ends' == ends && view' == view && updated' == updated && skipped' == skipped
    ensures exit ==> froms' == froms && ExitAt(stream, from, next)
    ensures !exit ==> RowsFrom(stream, start, froms', ends') && next == froms'[|ends'|]
    ensures !exit ==>
      && ends' == ends + [Row(stream, from).end]
      && view' == Applied(rows, todo, ends', clock, |ends'|)
      && Applied(rows, todo, ends', clock, committed) == Applied(rows, todo, ends, clock, committed)
      && updated' == Updates(ends') && updated' + skipped' == |ends'|
  {
    var end, waits;
    end, next, waits := FillRow(stream, from);
    exit := end.RateExit?;
    ends', view', updated', skipped', froms' := ends, view, updated, skipped, froms;
    if !exit {
      RowsFromStep(stream, start, froms, ends, end, next);
      froms' := froms + [next];
      view' := ApplyEnd(rows, todo, ends, end, clock, view);
      AppliedKept(rows, todo, ends, end, clock, committed);
      ends' := ends + [end];
      assert ends'[..|ends|] == ends;
      if end.Updated? {
        updated' := updated + 1;
      } else {
        skipped' := skipped + 1;
      }
    }
  }

  /** One more row leaves the table after the rows already applied as it
      was. */
  lemma AppliedKept(rows: map<Key, Row>, todo: seq<Key>, ends: seq<RowEnd>, end: RowEnd, clock: nat, n: nat)
    requires n <= |ends| < |todo|
    ensures Applied(rows, todo, ends + [end], clock, n) == Applied(rows, todo, ends, clock, n)
  {
    assert (ends + [end])[..|ends|] == ends;
    AppliedPrefix(rows, todo, ends, ends + [end], clock, n);
  }

  /** The body of the row loop on the uncommitted state: a row that ended
      with its details gets them (and the stamp of its position), any other
      row leaves the state as it was. */
  method ApplyEnd(rows: map<Key, Row>, todo: seq<Key>, ends: seq<RowEnd>, end: RowEnd, clock: nat, view: map<Key, Row>)
    returns (view': map<Key, Row>)
    requires |ends| < |todo|
    requires view == Applied(rows, todo, ends, clock, |ends|)
    ensures view' == Applied(rows, todo, ends + [end], clock, |ends| + 1)
    ensures view'.Keys == view.Keys
    ensures forall k :: k in view && k != todo[|ends|] ==> view'[k] == view[k]
    ensures end.Updated? && todo[|ends|] in view ==>
      view'[todo[|ends|]].postalCode == end.postalCode && view'[todo[|ends|]].detailsAddress == end.formattedAddress
  {
    AppliedKept(rows, todo, ends, end, clock, |ends|);
    view' := view;
    match end {
      case Updated(pc, formattedAddress) =>
        view' := SetDetails(view, todo[|ends|], pc, formattedAddress, clock + |ends|);
      case _ =>
    }
  }

  /** Extending the ends does not change the table after the rows already
      applied. */
  lemma {:induction false} AppliedPrefix(rows: map<Key, Row>, todo: seq<Key>, ends: seq<RowEnd>, ends': seq<RowEnd>, clock: nat, n: nat)
    requires n <= |ends| <= |ends'| <= |todo|
    requires ends'[..|ends|] == ends
    ensures Applied(rows, todo, ends', clock, n) == Applied(rows, todo, ends, clock, n)
    decreases n
  {
    if n > 0 {
      assert ends'[n - 1] == ends[n - 1];
      AppliedPrefix(rows, todo, ends, ends', clock, n - 1);
    }
  }
}
