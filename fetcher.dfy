/**
 * `TushareFetcher.fetch_data` (src/tushare_duckdb/fetcher.py): request pages at
 * increasing offsets until a short page, retry failed requests with exponential
 * backoff or a fixed cooldown when rate-limited, then concatenate the pages and
 * keep the last row per unique key.
 */
module Fetcher {
  import opened Common
  import opened Db
  import opened Remote

  /** The message Tushare raises when the per-minute quota is exhausted. */
  const ThrottleMarker: string := "每_minute最多访问"
  /** Seconds waited after a rate-limit error. */
  const ThrottleWait: nat := 65

  predicate Throttled(msg: string) {
    Contains(msg, ThrottleMarker)
  }

  /** How the attempts at one page ended. */
  datatype Attempt =
    | Got(rows: Frame)  // a query succeeded
    | GaveUp            // the attempts ran out without a failure that returns (rate limit on the last one)
    | Failed            // a non-rate-limit error on the last attempt: the whole call returns empty

  datatype Tries = Tries(outcome: Attempt, sleeps: seq<nat>)

  /** The retry loop for one page, from attempt `attempt` on; `sleeps` are the waits in seconds. */
  function TryPage(api: Api, offset: nat, limit: nat, retries: nat, attempt: nat): (t: Tries)
    ensures t.outcome.Got? ==> t.outcome.rows == Slice(api, offset, limit)
    decreases retries - attempt
  {
    if attempt >= retries then Tries(GaveUp, [])
    else match api.fault(offset, attempt)
      case None => Tries(Got(Slice(api, offset, limit)), [])
      case Some(msg) =>
        if Throttled(msg) then
          var t := TryPage(api, offset, limit, retries, attempt + 1);
          Tries(t.outcome, [ThrottleWait] + t.sleeps)
        else if attempt < retries - 1 then
          var t := TryPage(api, offset, limit, retries, attempt + 1);
          Tries(t.outcome, [Pow2(attempt)] + t.sleeps)
        else Tries(Failed, [])
  }

  /**
   * The trace of the paging loop: the offset of every page requested, the raw
   * row count each returned (0 when no query succeeded), the non-empty pages
   * after dropping all-null rows, every wait, and whether the call gave up.
   */
  datatype Run = Run(requests: seq<nat>, raw: seq<nat>, pages: seq<Frame>, sleeps: seq<nat>, aborted: bool)

  /** The trace before the first page. */
  const Start: Run := Run([], [], [], [], false)

  predicate NotAllNull(r: Row) {
    !AllNull(r)
  }

  /** `dropna(how='all')`, and the page is kept only when rows remain. */
  function Kept(p: Frame): seq<Frame> {
    var kept := Filter(p, NotAllNull);
    if kept == [] then [] else [kept]
  }

  /** Raw row count of the page the attempts produced. */
  function RawOf(t: Tries): nat {
    if t.outcome.Got? then |t.outcome.rows| else 0
  }

  function PageOf(t: Tries): seq<Frame> {
    if t.outcome.Got? then Kept(t.outcome.rows) else []
  }

  /** The trace after one more page request at `offset`. */
  function Step(acc: Run, offset: nat, t: Tries): Run {
    Run(acc.requests + [offset], acc.raw + [RawOf(t)], acc.pages + PageOf(t), acc.sleeps + t.sleeps, t.outcome.Failed?)
  }

  /**
   * The `while True` paging loop from `offset` on, extending the trace `acc`:
   * it stops after a failure or a page with fewer than `limit` raw rows.
   */
  function Paging(api: Api, offset: nat, limit: nat, retries: nat, acc: Run): Run
    requires limit > 0
    decreases |api.data| - offset
  {
    var t := TryPage(api, offset, limit, retries, 0);
    var next := Step(acc, offset, t);
    if t.outcome.Failed? || RawOf(t) < limit then next
    else Paging(api, offset + RawOf(t), limit, retries, next)
  }

  /** What the call returns; pandas raises when the de-duplication subset is empty or names a missing column. */
  datatype Fetched = Rows(rows: Frame) | Raised

  function Combine(pages: seq<Frame>, keys: seq<string>): Fetched {
    if pages == [] then Rows([])
    else
      var all := Concat(pages);
      if keys == [] || exists k :: k in keys && k !in ColumnsOf(all) then Raised
      else Rows(DedupLast(all, keys))
  }

  function Result(run: Run, keys: seq<string>): Fetched {
    if run.aborted then Rows([]) else Combine(run.pages, keys)
  }

  // ---------------------------------------------------------------------------
  // The loops
  // ---------------------------------------------------------------------------

  /** The `for attempt in range(retries)` loop for one page. */
  method QueryWithRetries(api: Api, offset: nat, limit: nat, retries: nat) returns (t: Tries)
    ensures t == TryPage(api, offset, limit, retries, 0)
  {
    var sleeps: seq<nat> := [];
    var attempt: nat := 0;
    while attempt < retries
      invariant attempt <= retries
      invariant var rest := TryPage(api, offset, limit, retries, attempt);
        TryPage(api, offset, limit, retries, 0) == Tries(rest.outcome, sleeps + rest.sleeps)
      decreases retries - attempt
    {
      var err := api.fault(offset, attempt);
      if err.None? {
        return Tries(Got(Slice(api, offset, limit)), sleeps);
      }
      var rest := TryPage(api, offset, limit, retries, attempt + 1);
      if Throttled(err.value) {
        assert sleeps + ([ThrottleWait] + rest.sleeps) == (sleeps + [ThrottleWait]) + rest.sleeps;
        sleeps := sleeps + [ThrottleWait];
      } else if attempt < retries - 1 {
        assert sleeps + ([Pow2(attempt)] + rest.sleeps) == (sleeps + [Pow2(attempt)]) + rest.sleeps;
        sleeps := sleeps + [Pow2(attempt)];
      } else {
        return Tries(Failed, sleeps);
      }
      attempt := attempt + 1;
    }
    assert sleeps + [] == sleeps;
    return Tries(GaveUp, sleeps);
  }

  /** `fetch_data`: the result and the waits are exactly those of the paging loop. */
  method FetchData(api: Api, limit: nat, retries: nat, initialOffset: nat, keys: seq<string>)
    returns (result: Fetched, sleeps: seq<nat>)
    requires limit > 0
    ensures var run := Paging(api, initialOffset, limit, retries, Start);
      result == Result(run, keys) && sleeps == run.sleeps
  {
    var pages: seq<Frame> := [];
    var offset := initialOffset;
    ghost var acc := Start;
    sleeps := [];
    while true
      invariant Paging(api, initialOffset, limit, retries, Start) == Paging(api, offset, limit, retries, acc)
      invariant pages == acc.pages && sleeps == acc.sleeps
      decreases |api.data| - offset
    {
      var t := QueryWithRetries(api, offset, limit, retries);
      var pageRows := RawOf(t);
      var page := PageOf(t);
      acc := Step(acc, offset, t);
      pages, sleeps := pages + page, sleeps + t.sleeps;
      if t.outcome.Failed? {
        return Rows([]), sleeps;
      }
      if pageRows < limit {
        break;
      }
      offset := offset + pageRows;
    }
    result := Combine(pages, keys);
  }

  // ---------------------------------------------------------------------------
  // Properties
  // ---------------------------------------------------------------------------

  /**
   * The first request is at `start`, each later one `limit` rows after the
   * previous, and every page before the last had exactly `limit` raw rows.
   */
  predicate Chained(requests: seq<nat>, raw: seq<nat>, start: nat, limit: nat) {
    |requests| == |raw|
    && (|requests| > 0 ==> requests[0] == start)
    && (forall i :: 0 < i < |requests| ==> requests[i] == requests[i - 1] + limit)
    && (forall i :: 0 <= i < |raw| - 1 ==> raw[i] == limit)
  }

  /** Where the request after `requests` is due. */
  function NextOffset(requests: seq<nat>, start: nat, limit: nat): nat {
    if requests == [] then start else requests[|requests| - 1] + limit
  }

  /** The trace so far consists of full pages and the next request is due at `offset`. */
  predicate FullSoFar(acc: Run, offset: nat, start: nat, limit: nat) {
    Chained(acc.requests, acc.raw, start, limit)
    && (forall i :: 0 <= i < |acc.raw| ==> acc.raw[i] == limit)
    && offset == NextOffset(acc.requests, start, limit)
  }

  /** The trace ends chained, with a short last page. */
  predicate EndsShort(run: Run, start: nat, limit: nat) {
    Chained(run.requests, run.raw, start, limit) && |run.raw| > 0 && run.raw[|run.raw| - 1] < limit
  }

  /** Chained requests are at `start + i * limit`. */
  lemma {:induction false} ChainedAt(requests: seq<nat>, raw: seq<nat>, start: nat, limit: nat, i: nat)
    requires Chained(requests, raw, start, limit) && i < |requests|
    ensures requests[i] == start + i * limit
  {
    if i > 0 {
      ChainedAt(requests, raw, start, limit, i - 1);
    }
  }

  lemma {:induction false} PagingChained(api: Api, offset: nat, limit: nat, retries: nat, acc: Run, start: nat)
    requires limit > 0
    requires FullSoFar(acc, offset, start, limit)
    ensures EndsShort(Paging(api, offset, limit, retries, acc), start, limit)
    decreases |api.data| - offset
  {
    var t := TryPage(api, offset, limit, retries, 0);
    if t.outcome.Failed? || RawOf(t) < limit {
      ChainedLast(api, offset, limit, retries, acc, start, t);
    } else {
      var offset2, next := ChainedNext(api, offset, limit, retries, acc, start, t);
      PagingChained(api, offset2, limit, retries, next, start);
    }
  }

  lemma ChainedLast(api: Api, offset: nat, limit: nat, retries: nat, acc: Run, start: nat, t: Tries)
    requires limit > 0 && t == TryPage(api, offset, limit, retries, 0)
    requires FullSoFar(acc, offset, start, limit)
    requires t.outcome.Failed? || RawOf(t) < limit
    ensures EndsShort(Paging(api, offset, limit, retries, acc), start, limit)
  {
    PagingStops(api, offset, limit, retries, acc, t);
    LastStep(acc, offset, t, start, limit);
  }

  lemma ChainedNext(api: Api, offset: nat, limit: nat, retries: nat, acc: Run, start: nat, t: Tries)
    returns (offset2: nat, next: Run)
    requires limit > 0 && t == TryPage(api, offset, limit, retries, 0)
    requires FullSoFar(acc, offset, start, limit)
    requires !t.outcome.Failed? && RawOf(t) >= limit
    ensures offset < offset2 <= |api.data|
    ensures FullSoFar(next, offset2, start, limit)
    ensures Paging(api, offset, limit, retries, acc) == Paging(api, offset2, limit, retries, next)
  {
    offset2, next := offset + RawOf(t), Step(acc, offset, t);
    PagingGoesOn(api, offset, limit, retries, acc, t);
    FullStep(acc, offset, t, start, limit);
  }

  /** A failed or short page ends the loop with its own step. */
  lemma PagingStops(api: Api, offset: nat, limit: nat, retries: nat, acc: Run, t: Tries)
    requires limit > 0 && t == TryPage(api, offset, limit, retries, 0)
    requires t.outcome.Failed? || RawOf(t) < limit
    ensures Paging(api, offset, limit, retries, acc) == Step(acc, offset, t)
  {
  }

  /** A full page is followed by the loop from the next offset. */
  lemma PagingGoesOn(api: Api, offset: nat, limit: nat, retries: nat, acc: Run, t: Tries)
    requires limit > 0 && t == TryPage(api, offset, limit, retries, 0)
    requires !t.outcome.Failed? && RawOf(t) >= limit
    ensures Paging(api, offset, limit, retries, acc) == Paging(api, offset + RawOf(t), limit, retries, Step(acc, offset, t))
  {
  }

  lemma LastStep(acc: Run, offset: nat, t: Tries, start: nat, limit: nat)
    requires FullSoFar(acc, offset, start, limit) && RawOf(t) < limit
    ensures EndsShort(Step(acc, offset, t), start, limit)
  {
    var next := Step(acc, offset, t);
    assert next.requests[|acc.requests|] == offset;
  }

  lemma FullStep(acc: Run, offset: nat, t: Tries, start: nat, limit: nat)
    requires FullSoFar(acc, offset, start, limit) && RawOf(t) == limit
    ensures FullSoFar(Step(acc, offset, t), offset + limit, start, limit)
  {
    var next := Step(acc, offset, t);
    assert next.requests[|acc.requests|] == offset;
  }

  /**
   * Offsets: request `i` is at the initial offset plus `i` pages of `limit`
   * rows (all-null rows dropped later still count); every page but the last
   * was full and the last was short.
   */
  lemma OffsetsAdvanceByRawCount(api: Api, offset: nat, limit: nat, retries: nat)
    requires limit > 0
    ensures var run := Paging(api, offset, limit, retries, Start);
      && |run.requests| == |run.raw| > 0
      && (forall i :: 0 <= i < |run.requests| ==> run.requests[i] == offset + i * limit)
      && (forall i :: 0 <= i < |run.raw| - 1 ==> run.raw[i] == limit)
      && run.raw[|run.raw| - 1] < limit
  {
    var run := Paging(api, offset, limit, retries, Start);
    PagingChained(api, offset, limit, retries, Start, offset);
    ChainedClosedForm(run.requests, run.raw, offset, limit);
  }

  /** Chained requests in closed form. */
  lemma ChainedClosedForm(requests: seq<nat>, raw: seq<nat>, start: nat, limit: nat)
    requires Chained(requests, raw, start, limit)
    ensures forall i :: 0 <= i < |requests| ==> requests[i] == start + i * limit
  {
    forall i | 0 <= i < |requests|
      ensures requests[i] == start + i * limit
    {
      ChainedAt(requests, raw, start, limit, i);
    }
  }

  /** With an API that never fails, every query succeeds at the first attempt. */
  lemma TryReliable(api: Api, offset: nat, limit: nat, retries: nat)
    requires Reliable(api) && retries > 0
    ensures TryPage(api, offset, limit, retries, 0) == Tries(Got(Slice(api, offset, limit)), [])
  {
    assert api.fault(offset, 0).None?;
  }

  lemma {:induction false} ConcatSplit(a: seq<Frame>, b: seq<Frame>)
    ensures Concat(a + b) == Concat(a) + Concat(b)
  {
    if a == [] {
      assert a + b == b;
    } else {
      assert (a + b)[1..] == a[1..] + b;
      ConcatSplit(a[1..], b);
    }
  }

  lemma KeptConcat(p: Frame)
    ensures Concat(Kept(p)) == Filter(p, NotAllNull)
  {
    if Kept(p) != [] {
      assert Concat(Kept(p)) == Kept(p)[0] + Concat([]);
    }
  }

  /** The result set from `offset` on. */
  function Rest(api: Api, offset: nat): Frame {
    if offset >= |api.data| then [] else api.data[offset..]
  }

  /** The run, extending `acc`, neither failed nor waited and collected the rest of the result set from `offset` without its all-null rows. */
  predicate Collects(run: Run, api: Api, offset: nat, acc: Run) {
    !run.aborted && run.sleeps == acc.sleeps
    && Concat(run.pages) == Concat(acc.pages) + Filter(Rest(api, offset), NotAllNull)
  }

  /** The paging loop from `offset` on collects the rest of the result set. */
  lemma {:induction false} ReliablePaging(api: Api, offset: nat, limit: nat, retries: nat, acc: Run)
    requires limit > 0 && retries > 0 && Reliable(api)
    ensures Collects(Paging(api, offset, limit, retries, acc), api, offset, acc)
    decreases |api.data| - offset
  {
    var p := Slice(api, offset, limit);
    if |p| < limit {
      ReliableLastPage(api, offset, limit, retries, acc);
    } else {
      var next := Step(acc, offset, Tries(Got(p), []));
      ReliablePaging(api, offset + |p|, limit, retries, next);
      ReliableNextPage(api, offset, limit, retries, acc, p, Paging(api, offset + |p|, limit, retries, next));
    }
  }

  /** One full page, then the rest collected from the next offset: the rest is collected from this one. */
  lemma ReliableNextPage(api: Api, offset: nat, limit: nat, retries: nat, acc: Run, p: Frame, rest: Run)
    requires limit > 0 && retries > 0 && Reliable(api)
    requires p == Slice(api, offset, limit) && |p| >= limit
    requires rest == Paging(api, offset + |p|, limit, retries, Step(acc, offset, Tries(Got(p), [])))
    requires Collects(rest, api, offset + |p|, Step(acc, offset, Tries(Got(p), [])))
    ensures Collects(Paging(api, offset, limit, retries, acc), api, offset, acc)
  {
    TryReliable(api, offset, limit, retries);
    PagingAfterFullPage(api, offset, limit, retries, acc, p);
    assert Paging(api, offset, limit, retries, acc) == rest;
    ReliableFullPage(api, offset, limit, acc, p, rest);
  }

  lemma ReliableLastPage(api: Api, offset: nat, limit: nat, retries: nat, acc: Run)
    requires limit > 0 && retries > 0 && Reliable(api)
    requires |Slice(api, offset, limit)| < limit
    ensures Collects(Paging(api, offset, limit, retries, acc), api, offset, acc)
  {
    var p := Slice(api, offset, limit);
    TryReliable(api, offset, limit, retries);
    StepPages(acc, offset, p);
    assert p == Rest(api, offset);
  }

  /** A full page followed by a run that collects the rest from the next offset collects the rest from this one. */
  lemma ReliableFullPage(api: Api, offset: nat, limit: nat, acc: Run, p: Frame, run: Run)
    requires p == Slice(api, offset, limit) && |p| >= limit > 0
    requires Collects(run, api, offset + |p|, Step(acc, offset, Tries(Got(p), [])))
    ensures Collects(run, api, offset, acc)
  {
    var next := Step(acc, offset, Tries(Got(p), []));
    StepPages(acc, offset, p);
    RestSplit(api, offset, limit);
    TraceJoin(acc, next, run, Filter(p, NotAllNull), Filter(Rest(api, offset + |p|), NotAllNull), Filter(Rest(api, offset), NotAllNull));
  }

  lemma TraceJoin(acc: Run, next: Run, run: Run, head: Frame, tail: Frame, whole: Frame)
    requires !next.aborted && next.sleeps == acc.sleeps && Concat(next.pages) == Concat(acc.pages) + head
    requires !run.aborted && run.sleeps == next.sleeps && Concat(run.pages) == Concat(next.pages) + tail
    requires head + tail == whole
    ensures !run.aborted && run.sleeps == acc.sleeps && Concat(run.pages) == Concat(acc.pages) + whole
  {
    AppendAssoc(Concat(acc.pages), head, tail);
  }

  /** A full page that arrived continues the loop at the next offset. */
  lemma PagingAfterFullPage(api: Api, offset: nat, limit: nat, retries: nat, acc: Run, p: Frame)
    requires limit > 0 && |p| >= limit
    requires TryPage(api, offset, limit, retries, 0) == Tries(Got(p), [])
    ensures Paging(api, offset, limit, retries, acc) == Paging(api, offset + |p|, limit, retries, Step(acc, offset, Tries(Got(p), [])))
  {
  }

  lemma StepPages(acc: Run, offset: nat, p: Frame)
    ensures var next := Step(acc, offset, Tries(Got(p), []));
      !next.aborted && next.sleeps == acc.sleeps
      && Concat(next.pages) == Concat(acc.pages) + Filter(p, NotAllNull)
  {
    assert acc.sleeps + [] == acc.sleeps;
    ConcatSplit(acc.pages, Kept(p));
    KeptConcat(p);
  }

  lemma RestSplit(api: Api, offset: nat, limit: nat)
    requires |Slice(api, offset, limit)| >= limit > 0
    ensures var p := Slice(api, offset, limit);
      Filter(p, NotAllNull) + Filter(Rest(api, offset + |p|), NotAllNull) == Filter(Rest(api, offset), NotAllNull)
  {
    var p := Slice(api, offset, limit);
    SliceNext(api, offset, limit);
    assert Rest(api, offset) == p + Rest(api, offset + |p|);
    FilterConcat(p, Rest(api, offset + |p|), NotAllNull);
  }

  lemma AppendAssoc(a: Frame, f: Frame, g: Frame)
    ensures (a + f) + g == a + (f + g)
  {
  }

  /**
   * Without errors the call returns the whole result set from offset 0,
   * all-null rows dropped and de-duplicated, and never waits.
   */
  lemma ReliableFetch(api: Api, limit: nat, retries: nat, keys: seq<string>)
    requires limit > 0 && retries > 0 && Reliable(api)
    requires keys != [] && forall k :: k in keys ==> k in ColumnsOf(Filter(api.data, NotAllNull))
    ensures var run := Paging(api, 0, limit, retries, Start);
      Result(run, keys) == Rows(DedupLast(Filter(api.data, NotAllNull), keys)) && run.sleeps == []
  {
    var run := Paging(api, 0, limit, retries, Start);
    ReliablePaging(api, 0, limit, retries, Start);
    assert Rest(api, 0) == api.data;
    assert Concat(run.pages) == Filter(api.data, NotAllNull);
    assert keys[0] in ColumnsOf(Concat(run.pages));
  }

  /** The waits of `n` failures with other errors: 1, 2, 4, ... seconds. */
  function Backoff(from: nat, n: nat): (s: seq<nat>)
    ensures |s| == n
    ensures forall i :: 0 <= i < n ==> s[i] == Pow2(from + i)
    decreases n
  {
    if n == 0 then [] else [Pow2(from)] + Backoff(from + 1, n - 1)
  }

  /** Other errors at attempts `attempt`..`ok`-1, then success at `ok` < retries: the page arrives after exponential waits. */
  lemma {:induction false} BackoffThenSuccess(api: Api, offset: nat, limit: nat, retries: nat, attempt: nat, ok: nat)
    requires attempt <= ok < retries
    requires forall a :: attempt <= a < ok ==> api.fault(offset, a).Some? && !Throttled(api.fault(offset, a).value)
    requires api.fault(offset, ok).None?
    ensures TryPage(api, offset, limit, retries, attempt) == Tries(Got(Slice(api, offset, limit)), Backoff(attempt, ok - attempt))
    decreases ok - attempt
  {
    if attempt < ok {
      BackoffThenSuccess(api, offset, limit, retries, attempt + 1, ok);
    }
  }

  /** An error other than rate limiting on the last attempt ends the retry loop with a failure. */
  lemma {:induction false} LastAttemptFailure(api: Api, offset: nat, limit: nat, retries: nat, attempt: nat)
    requires attempt < retries
    requires forall a :: attempt <= a < retries ==> api.fault(offset, a).Some?
    requires !Throttled(api.fault(offset, retries - 1).value)
    ensures TryPage(api, offset, limit, retries, attempt).outcome == Failed
    decreases retries - attempt
  {
    if attempt < retries - 1 {
      LastAttemptFailure(api, offset, limit, retries, attempt + 1);
    }
  }

  /** ... and the whole call then returns an empty frame, discarding the pages already collected. */
  lemma FailureDiscards(api: Api, offset: nat, limit: nat, retries: nat, acc: Run, keys: seq<string>)
    requires limit > 0 && 0 < retries
    requires forall a :: 0 <= a < retries ==> api.fault(offset, a).Some?
    requires !Throttled(api.fault(offset, retries - 1).value)
    ensures Result(Paging(api, offset, limit, retries, acc), keys) == Rows([])
  {
    LastAttemptFailure(api, offset, limit, retries, 0);
  }

  /** Seconds of `n` rate-limit cooldowns. */
  function Cooldowns(n: nat): (s: seq<nat>)
    ensures |s| == n && forall i :: 0 <= i < n ==> s[i] == ThrottleWait
  {
    if n == 0 then [] else [ThrottleWait] + Cooldowns(n - 1)
  }

  /** Rate-limit errors on every remaining attempt use them up without a failure: 65 s each. */
  lemma {:induction false} ThrottledThrough(api: Api, offset: nat, limit: nat, retries: nat, attempt: nat)
    requires attempt <= retries
    requires forall a :: attempt <= a < retries ==> api.fault(offset, a).Some? && Throttled(api.fault(offset, a).value)
    ensures TryPage(api, offset, limit, retries, attempt) == Tries(GaveUp, Cooldowns(retries - attempt))
    decreases retries - attempt
  {
    if attempt < retries {
      ThrottledThrough(api, offset, limit, retries, attempt + 1);
    }
  }

  /**
   * A page that is rate-limited on every attempt ends the paging loop without
   * discarding anything: the call returns the pages collected before it.
   */
  lemma ThrottledPageKeepsCollected(api: Api, offset: nat, limit: nat, retries: nat, acc: Run, keys: seq<string>)
    requires limit > 0
    requires forall a :: 0 <= a < retries ==> api.fault(offset, a).Some? && Throttled(api.fault(offset, a).value)
    ensures var run := Paging(api, offset, limit, retries, acc);
      run.pages == acc.pages && run.sleeps == acc.sleeps + Cooldowns(retries)
      && Result(run, keys) == Combine(acc.pages, keys)
  {
    ThrottledThrough(api, offset, limit, retries, 0);
    assert acc.pages + [] == acc.pages;
  }

  /** The returned frame never holds two rows with the same unique-key values; of several, the one fetched last is kept. */
  lemma ResultKeysUnique(run: Run, keys: seq<string>, i: nat)
    requires Result(run, keys).Rows?
    ensures KeysUnique(Result(run, keys).rows, keys)
    ensures !run.aborted && i < |Concat(run.pages)|
      && (forall j :: i < j < |Concat(run.pages)| ==> Key(Concat(run.pages)[j], keys) != Key(Concat(run.pages)[i], keys))
      ==> Concat(run.pages)[i] in Result(run, keys).rows
  {
    if !run.aborted && run.pages != [] {
      var all := Concat(run.pages);
      DedupLastUnique(all, keys);
      if i < |all| && forall j :: i < j < |all| ==> Key(all[j], keys) != Key(all[i], keys) {
        DedupLastIsLast(all, keys, i);
      }
    }
  }

  /** An aborted run, or one that collected nothing, returns an empty frame; a non-aborted empty result means nothing was collected. */
  lemma EmptyResult(run: Run, keys: seq<string>)
    ensures run.aborted || run.pages == [] ==> Result(run, keys) == Rows([])
    ensures Result(run, keys) == Rows([]) && !run.aborted ==> Concat(run.pages) == []
  {
    if !run.aborted && run.pages != [] && Combine(run.pages, keys).Rows? {
      var all := Concat(run.pages);
      if all != [] {
        DedupLastKeepsKeys(all, keys, Key(all[0], keys));
      }
    }
  }
}
