/**
 * scripts/backfill_pledge_stat.py: the backfill of the weekly share-pledge
 * statistics table `pledge_stat`, one reporting Friday at a time.
 *
 * The reporting dates are the open SSE Fridays of the trading calendar from
 * the configured earliest date to today. The Fridays with no stored row are
 * fetched newest first; each date's pages are filtered to rows of that date
 * and de-duplicated on (ts_code, end_date). Non-empty answers are buffered
 * and flushed to `store_data` with `insert_new` every 20 dates and at the
 * last date; a date whose answer is empty is recorded as failed.
 *
 * The calendar is the `trade_cal` table of the events database, an input that
 * is None when that table cannot be queried; the API of each date is an `Api`.
 */
module BackfillPledgeStat {
  import opened Common
  import opened Calendar
  import opened Db
  import opened Remote
  import opened Storage
  import opened Utils

  const TableName: string := "pledge_stat"
  /** The keys both de-duplications use, whatever the configured unique keys. */
  const StatKeys: seq<string> := ["ts_code", "end_date"]
  /** Paging stops once the next offset reaches this. */
  const MaxOffset: nat := 100000
  /** Buffered dates that trigger a write. */
  const FlushAt: nat := 20
  /** `config.get('earliest_date', '20180101')`. */
  const DefaultEarliest: string := "20180101"

  // ---------------------------------------------------------------------------
  // get_all_fridays_from_calendar (lines 19-37)
  // ---------------------------------------------------------------------------

  /** `dayofweek(strptime(cal_date, '%Y%m%d')) = 5`; text that is not a date is no Friday. */
  predicate IsFriday(s: string) {
    Parse(s).Some? && Weekday(Parse(s).value) == 5
  }

  /** The open SSE Fridays of the calendar rows in [start, end], ordered by date. */
  function Fridays(cal: Frame, start: string, end: string): (fs: seq<string>)
    ensures SortedStrs(fs)
    ensures forall v :: v in fs <==>
      IsFriday(v) && exists r :: r in cal && OpenDay(r, start, end, "SSE") && Get(r, "cal_date") == Some(v)
  {
    var open := Filter(CalDates(cal, start, end, "SSE"), IsFriday);
    var fs := Sort(open);
    assert forall v :: v in fs <==> v in multiset(fs);
    assert forall v :: v in open <==> v in multiset(open);
    fs
  }

  /** Of two dates a day apart, at most one is a Friday: the day after a Friday is a Saturday. */
  lemma NoConsecutiveFridays(s: string, t: string)
    requires Parse(s).Some? && Parse(t).Some? && Parse(t).value == Next(Parse(s).value)
    ensures IsFriday(s) ==> !IsFriday(t)
  {
    NextWeekday(Parse(s).value);
  }

  // ---------------------------------------------------------------------------
  // fetch_for_date (lines 40-70)
  // ---------------------------------------------------------------------------

  /** `df['end_date'] == end_date`: a row of the requested date. */
  predicate OnDate(r: Row, d: string) {
    Get(r, "end_date") == Some(d)
  }

  function OnDateTest(d: string): Row -> bool {
    r => OnDate(r, d)
  }

  /**
   * The kept part of every page from `offset` on, in offset order: a fault
   * stops paging but keeps what came before; an empty page stops; a page is
   * kept only when some row has the requested date.
   */
  function DatePages(api: Api, d: string, limit: nat, offset: nat): (ps: seq<Frame>)
    decreases MaxOffset - offset
  {
    if api.fault(offset, 0).Some? then []
    else
      var page := Slice(api, offset, limit);
      if page == [] then []
      else if |page| < limit || offset + limit >= MaxOffset then Kept(api, d, limit, offset)
      else Kept(api, d, limit, offset) + DatePages(api, d, limit, offset + limit)
  }

  /** The rows of the date on the page at `offset`, as a list of at most one non-empty frame. */
  function Kept(api: Api, d: string, limit: nat, offset: nat): seq<Frame> {
    var kept := Filter(Slice(api, offset, limit), OnDateTest(d));
    if kept == [] then [] else [kept]
  }

  /** Lines 67-70: an empty frame for no pages, else the pages joined and de-duplicated. */
  function Joined(ps: seq<Frame>): Frame {
    if ps == [] then [] else DedupFirst(Concat(ps), StatKeys)
  }

  function FetchForDate(api: Api, d: string, limit: nat): Frame {
    Joined(DatePages(api, d, limit, 0))
  }

  /** Every kept page is non-empty and holds rows of the API's answer for the requested date only. */
  predicate OnDatePages(ps: seq<Frame>, d: string, api: Api) {
    forall f :: f in ps ==> f != [] && forall r :: r in f ==> OnDate(r, d) && r in api.data
  }

  lemma KeptOnDate(api: Api, d: string, limit: nat, offset: nat)
    ensures OnDatePages(Kept(api, d, limit, offset), d, api)
  {
    var page := Slice(api, offset, limit);
    if offset < |api.data| {
      assert forall r :: r in page ==> r in api.data;
    }
  }

  lemma {:induction false} DatePagesOnDate(api: Api, d: string, limit: nat, offset: nat)
    ensures OnDatePages(DatePages(api, d, limit, offset), d, api)
    decreases MaxOffset - offset
  {
    KeptOnDate(api, d, limit, offset);
    if api.fault(offset, 0).None? {
      var page := Slice(api, offset, limit);
      if page != [] && |page| == limit && offset + limit < MaxOffset {
        DatePagesOnDate(api, d, limit, offset + limit);
        var mine, rest := Kept(api, d, limit, offset), DatePages(api, d, limit, offset + limit);
        assert DatePages(api, d, limit, offset) == mine + rest;
        OnDateJoin(mine, rest, d, api);
      }
    }
  }

  lemma OnDateJoin(a: seq<Frame>, b: seq<Frame>, d: string, api: Api)
    requires OnDatePages(a, d, api) && OnDatePages(b, d, api)
    ensures OnDatePages(a + b, d, api)
  {
  }

  /**
   * A date's answer holds only rows of that date, each from the API's answer,
   * unique on (ts_code, end_date).
   */
  lemma FetchForDateClean(api: Api, d: string, limit: nat)
    ensures var df := FetchForDate(api, d, limit);
      && KeysUnique(df, StatKeys)
      && forall r :: r in df ==> OnDate(r, d) && r in api.data
  {
    var ps := DatePages(api, d, limit, 0);
    DatePagesOnDate(api, d, limit, 0);
    if ps != [] {
      DedupFirstUnique(Concat(ps), StatKeys);
      forall r | r in FetchForDate(api, d, limit) ensures OnDate(r, d) && r in api.data {
        var i :| 0 <= i < |ps| && r in ps[i];
        assert ps[i] in ps;
      }
    }
  }

  /**
   * From an API that never raises, the kept rows from `offset` are the rows of
   * the date in the answer from `offset` up to the end or the 100000-row cap.
   */
  lemma {:induction false} DatePagesReliable(api: Api, d: string, limit: nat, offset: nat)
    requires Reliable(api) && limit > 0 && offset <= |api.data| && offset < MaxOffset
    ensures Concat(DatePages(api, d, limit, offset))
         == Filter(api.data[offset..Min(|api.data|, Reach(MaxOffset, limit, offset))], OnDateTest(d))
    decreases MaxOffset - offset
  {
    var page := Slice(api, offset, limit);
    if page == [] || |page| < limit || offset + limit >= MaxOffset {
      LastDatePage(api, d, limit, offset);
    } else {
      SliceFull(api, offset, limit);
      DatePagesReliable(api, d, limit, offset + limit);
      NextDatePage(api, d, limit, offset);
    }
  }

  /** The kept part of one page is the page's rows of the date. */
  lemma ConcatKept(api: Api, d: string, limit: nat, offset: nat)
    ensures Concat(Kept(api, d, limit, offset)) == Filter(Slice(api, offset, limit), OnDateTest(d))
  {
    var kept := Filter(Slice(api, offset, limit), OnDateTest(d));
    if kept != [] {
      assert Concat([kept]) == kept + Concat<Row>([]);
    }
  }

  /** The case where paging stops at `offset`. */
  lemma LastDatePage(api: Api, d: string, limit: nat, offset: nat)
    requires Reliable(api) && limit > 0 && offset <= |api.data| && offset < MaxOffset
    requires var page := Slice(api, offset, limit); page == [] || |page| < limit || offset + limit >= MaxOffset
    ensures Concat(DatePages(api, d, limit, offset))
         == Filter(api.data[offset..Min(|api.data|, Reach(MaxOffset, limit, offset))], OnDateTest(d))
  {
    assert api.fault(offset, 0).None?;
    var page := Slice(api, offset, limit);
    if page == [] {
      assert api.data[offset..Min(|api.data|, Reach(MaxOffset, limit, offset))] == [];
    } else {
      ConcatKept(api, d, limit, offset);
      assert page == api.data[offset..Min(|api.data|, Reach(MaxOffset, limit, offset))];
    }
  }

  /** The case where paging goes on past `offset`: this page's rows in front of the rest. */
  lemma NextDatePage(api: Api, d: string, limit: nat, offset: nat)
    requires Reliable(api) && limit > 0 && offset + limit < MaxOffset && offset + limit <= |api.data|
    requires var page := Slice(api, offset, limit); page != [] && |page| == limit
    requires Concat(DatePages(api, d, limit, offset + limit))
          == Filter(api.data[offset + limit..Min(|api.data|, Reach(MaxOffset, limit, offset + limit))], OnDateTest(d))
    ensures Concat(DatePages(api, d, limit, offset))
         == Filter(api.data[offset..Min(|api.data|, Reach(MaxOffset, limit, offset))], OnDateTest(d))
  {
    assert api.fault(offset, 0).None?;
    var mine, rest := Kept(api, d, limit, offset), DatePages(api, d, limit, offset + limit);
    assert DatePages(api, d, limit, offset) == mine + rest;
    ConcatKept(api, d, limit, offset);
    ConcatSplit(mine, rest);
    var m := Min(|api.data|, Reach(MaxOffset, limit, offset + limit));
    ReachStep(MaxOffset, limit, offset);
    SliceFull(api, offset, limit);
    SliceJoin(api.data, offset, offset + limit, m);
    FilterConcat(api.data[offset..offset + limit], api.data[offset + limit..m], OnDateTest(d));
  }

  lemma {:induction false} ConcatSplit(a: seq<Frame>, b: seq<Frame>)
    ensures Concat(a + b) == Concat(a) + Concat(b)
    decreases |a|
  {
    if a == [] {
      assert a + b == b;
    } else {
      assert (a + b)[1..] == a[1..] + b;
      ConcatSplit(a[1..], b);
    }
  }

  /**
   * Without faults, a date's answer is the de-duplicated rows of that date in
   * the whole result set when it holds at most 100000 rows, and otherwise in
   * its first rows up to the first page boundary at or past 100000.
   */
  lemma FetchForDateReliable(api: Api, d: string, limit: nat)
    requires Reliable(api) && limit > 0
    ensures var m := Min(|api.data|, Reach(MaxOffset, limit, 0));
      && FetchForDate(api, d, limit) == DedupFirst(Filter(api.data[..m], OnDateTest(d)), StatKeys)
      && (|api.data| <= MaxOffset ==> m == |api.data|)
  {
    DatePagesReliable(api, d, limit, 0);
    var ps := DatePages(api, d, limit, 0);
    if ps == [] {
      assert Concat(ps) == [];
    }
  }

  /**
   * A fault on the second page keeps the first page: the answer is the
   * de-duplicated rows of the date among the first `limit` rows.
   */
  lemma FaultKeepsPages(api: Api, d: string, limit: nat)
    requires 0 < limit < MaxOffset && limit <= |api.data|
    requires api.fault(0, 0).None? && api.fault(limit, 0).Some?
    ensures FetchForDate(api, d, limit) == DedupFirst(Filter(api.data[..limit], OnDateTest(d)), StatKeys)
  {
    var page := Slice(api, 0, limit);
    assert page == api.data[..limit];
    var kept := Filter(page, OnDateTest(d));
    var ps := DatePages(api, d, limit, 0);
    assert ps == (if kept == [] then [] else [kept]) + [];
    if kept == [] {
      assert DedupFirst(kept, StatKeys) == [];
    } else {
      assert Concat<Row>([]) == [];
      assert Concat(ps) == kept + [] == kept;
      assert FetchForDate(api, d, limit) == DedupFirst(Concat(ps), StatKeys);
    }
  }

  /** Whether paging goes on past the page at `offset`: it came back full. */
  predicate More(api: Api, limit: nat, offset: nat) {
    api.fault(offset, 0).None? && Slice(api, offset, limit) != [] && |Slice(api, offset, limit)| == limit
  }

  /** What the page at `offset` adds to the pages kept. */
  function Adds(api: Api, d: string, limit: nat, offset: nat): seq<Frame> {
    if api.fault(offset, 0).Some? || Slice(api, offset, limit) == [] then [] else Kept(api, d, limit, offset)
  }

  /** The kept pages from `offset`: this page's part, then the rest when paging goes on. */
  lemma DatePagesAt(api: Api, d: string, limit: nat, offset: nat)
    ensures DatePages(api, d, limit, offset)
         == Adds(api, d, limit, offset)
          + if More(api, limit, offset) && offset + limit < MaxOffset then DatePages(api, d, limit, offset + limit) else []
  {
    if !(More(api, limit, offset) && offset + limit < MaxOffset) {
      assert DatePages(api, d, limit, offset) + [] == DatePages(api, d, limit, offset);
    }
  }

  /** One request of lines 46-61: the rows of the date it adds, and whether paging goes on. */
  method FetchPage(api: Api, d: string, limit: nat, offset: nat) returns (more: bool, adds: seq<Frame>)
    ensures more == More(api, limit, offset) && adds == Adds(api, d, limit, offset)
    ensures more ==> limit > 0
  {
    if api.fault(offset, 0).Some? {
      return false, [];
    }
    var page := Slice(api, offset, limit);
    if page == [] {
      return false, [];
    }
    var kept := Filter(page, OnDateTest(d));
    adds := if kept == [] then [] else [kept];
    more := |page| >= limit;
  }

  /** The paging loop of lines 42-70, proved against `FetchForDate`. */
  method FetchDate(api: Api, d: string, limit: nat) returns (df: Frame)
    ensures df == FetchForDate(api, d, limit)
  {
    var all: seq<Frame> := [];
    var offset: nat := 0;
    ghost var goal := DatePages(api, d, limit, 0);
    while true
      invariant offset < MaxOffset
      invariant goal == all + DatePages(api, d, limit, offset)
      decreases MaxOffset - offset
    {
      var more, adds := FetchPage(api, d, limit, offset);
      PagingStep(api, d, limit, offset, all, goal);
      all := all + adds;
      if !more || offset + limit >= MaxOffset {
        break;
      }
      offset := offset + limit;
    }
    df := Joined(all);
  }

  /** The loop's invariant carried over one request. */
  lemma PagingStep(api: Api, d: string, limit: nat, offset: nat, all: seq<Frame>, goal: seq<Frame>)
    requires goal == all + DatePages(api, d, limit, offset)
    ensures More(api, limit, offset) && offset + limit < MaxOffset ==>
      goal == (all + Adds(api, d, limit, offset)) + DatePages(api, d, limit, offset + limit)
    ensures !(More(api, limit, offset) && offset + limit < MaxOffset) ==> goal == all + Adds(api, d, limit, offset)
  {
    DatePagesAt(api, d, limit, offset);
    var adds := Adds(api, d, limit, offset);
    if More(api, limit, offset) && offset + limit < MaxOffset {
      Regroup(all, adds, DatePages(api, d, limit, offset + limit), goal);
    } else {
      Regroup(all, adds, [], goal);
    }
  }

  lemma Regroup(all: seq<Frame>, adds: seq<Frame>, rest: seq<Frame>, goal: seq<Frame>)
    requires goal == all + (adds + rest)
    ensures goal == (all + adds) + rest
    ensures rest == [] ==> goal == all + adds
  {
    if rest == [] {
      assert adds + rest == adds;
    }
  }

  // ---------------------------------------------------------------------------
  // The missing Fridays (lines 99-113)
  // ---------------------------------------------------------------------------

  /** `SELECT DISTINCT end_date`: the reporting dates with a stored row. */
  function EndDates(rows: Frame): (ds: set<string>)
    ensures forall v :: v in ds <==> exists r :: r in rows && OnDate(r, v)
  {
    set r | r in rows && Get(r, "end_date").Some? :: Get(r, "end_date").value
  }

  function NotIn(local: set<string>): string -> bool {
    d => d !in local
  }

  /** The calendar Fridays with no stored row, in calendar order. */
  function Missing(fridays: seq<string>, local: set<string>): (ms: seq<string>)
    ensures forall v :: v in ms <==> v in fridays && v !in local
    ensures SortedStrs(fridays) ==> SortedStrs(ms)
  {
    FilterSorted(fridays, NotIn(local));
    Filter(fridays, NotIn(local))
  }

  /** The dates a run works on: the missing Fridays, newest first. */
  function Newest(ms: seq<string>): seq<string> {
    Reverse(ms)
  }

  // ---------------------------------------------------------------------------
  // The date loop (lines 115-147)
  // ---------------------------------------------------------------------------

  /** The API of each reporting date, the page size, the writer and the configuration entry. */
  datatype Env = Env(apiFor: string -> Api, limit: nat, w: Writer, keys: seq<string>, entry: Config)

  /**
   * What the loop carries besides the database: the buffered frames, the
   * stored total, the dates with an empty answer, and the frames that have
   * left the buffer.
   */
  datatype Tally = Tally(buffer: seq<Frame>, stored: int, failed: seq<string>, sent: seq<Frame>)

  datatype Acc = Acc(state: State, tally: Tally)

  const Start: Tally := Tally([], 0, [], [])

  /** A date's answer. */
  function Fetch(d: string, env: Env): Frame {
    FetchForDate(env.apiFor(d), d, env.limit)
  }

  /** Lines 134-135: the buffer concatenated and de-duplicated on (ts_code, end_date). */
  function Combined(buf: seq<Frame>): Frame {
    DedupFirst(Concat(buf), StatKeys)
  }

  /** The flushed rows are unique on (ts_code, end_date), and each comes from a buffered frame. */
  lemma CombinedUnique(buf: seq<Frame>)
    ensures var out := Combined(buf);
      && KeysUnique(out, StatKeys)
      && forall r :: r in out ==> exists f :: f in buf && r in f
  {
    DedupFirstUnique(Concat(buf), StatKeys);
  }

  /** A flush (lines 133-147): None when `store_data` raises. */
  function Flush(a: Acc, env: Env): Option<Acc> {
    var t := a.tally;
    var o := env.w(a.state, TableName, Combined(t.buffer), env.keys, Some("end_date"), "insert_new", None, None, None,
                   Some(env.entry));
    match o.result
    case Raised => None
    case Returned(code) => Some(Acc(o.state, t.(buffer := [], sent := t.sent + t.buffer, stored := t.stored + Added(code))))
  }

  /** Whether a flush follows the fetch of a date. */
  predicate FlushDue(buf: seq<Frame>, last: bool) {
    |buf| >= FlushAt || (last && buf != [])
  }

  /** One date: fetch, record an empty answer as failed or buffer it, flush when due. */
  function Step(a: Acc, d: string, last: bool, env: Env): Option<Acc> {
    var df := Fetch(d, env);
    var t := if df == [] then a.tally.(failed := a.tally.failed + [d]) else a.tally.(buffer := a.tally.buffer + [df]);
    if FlushDue(t.buffer, last) then Flush(Acc(a.state, t), env) else Some(Acc(a.state, t))
  }

  /** A date's answer when non-empty, as the list of frames it adds to the buffer. */
  function Fetched(d: string, env: Env): seq<Frame> {
    if Fetch(d, env) == [] then [] else [Fetch(d, env)]
  }

  /** A date whose answer is empty. */
  function EmptyTest(env: Env): string -> bool {
    d => Fetch(d, env) == []
  }

  /**
   * One date appends itself to the failed dates exactly when its answer is
   * empty, adds a non-empty answer to what has been buffered or sent, keeps
   * the buffer under 20 frames, empties it at the last date and never lowers
   * the stored total.
   */
  lemma StepAccounts(a: Acc, d: string, last: bool, env: Env)
    ensures var r := Step(a, d, last, env);
      r.Some? ==>
        && r.value.tally.failed == a.tally.failed + (if Fetch(d, env) == [] then [d] else [])
        && r.value.tally.sent + r.value.tally.buffer == a.tally.sent + a.tally.buffer + Fetched(d, env)
        && (|a.tally.buffer| < FlushAt ==> |r.value.tally.buffer| < FlushAt)
        && (last ==> r.value.tally.buffer == [])
        && r.value.tally.stored >= a.tally.stored
  {
    var df := Fetch(d, env);
    if df == [] {
      assert a.tally.failed + [] == a.tally.failed;
      assert a.tally.buffer + [] == a.tally.buffer;
    } else {
      assert a.tally.failed + [] == a.tally.failed;
    }
  }

  /** Where the loop leaves the run, and whether a store raised on the way. */
  datatype Fed = Fed(acc: Acc, raised: bool)

  /** The dates from index `i` on. */
  function Loop(ds: seq<string>, i: nat, a: Acc, env: Env): (r: Fed)
    requires i <= |ds|
    decreases |ds| - i
  {
    if i == |ds| then Fed(a, false)
    else match Step(a, ds[i], i == |ds| - 1, env)
      case None => Fed(a, true)
      case Some(b) => Loop(ds, i + 1, b, env)
  }

  /** The non-empty answers of the dates, in date order. */
  function AllFetched(ds: seq<string>, env: Env): (fs: seq<Frame>)
    ensures |fs| <= |ds| && forall f :: f in fs ==> f != []
  {
    if ds == [] then [] else Fetched(ds[0], env) + AllFetched(ds[1..], env)
  }

  /**
   * The failed dates are exactly the dates with an empty answer, in order, and
   * the stored total never decreases.
   */
  lemma {:induction false} LoopFails(ds: seq<string>, i: nat, a: Acc, env: Env)
    requires i <= |ds|
    ensures var f := Loop(ds, i, a, env);
      !f.raised ==>
        && f.acc.tally.failed == a.tally.failed + Filter(ds[i..], EmptyTest(env))
        && f.acc.tally.stored >= a.tally.stored
    decreases |ds| - i
  {
    if i == |ds| {
      assert a.tally.failed + [] == a.tally.failed;
    } else {
      match Step(a, ds[i], i == |ds| - 1, env)
      case None =>
      case Some(b) =>
        LoopFails(ds, i + 1, b, env);
        StepAccounts(a, ds[i], i == |ds| - 1, env);
        var f := Loop(ds, i + 1, b, env);
        if !f.raised {
          FailStep(ds, i, env);
          Chain2(a.tally.failed, b.tally.failed, f.acc.tally.failed, if Fetch(ds[i], env) == [] then [ds[i]] else [],
                 Filter(ds[i + 1..], EmptyTest(env)));
        }
    }
  }

  /** The dates from `i` on with an empty answer: date `i` when its answer is empty, then the rest. */
  lemma FailStep(ds: seq<string>, i: nat, env: Env)
    requires i < |ds|
    ensures Filter(ds[i..], EmptyTest(env))
         == (if Fetch(ds[i], env) == [] then [ds[i]] else []) + Filter(ds[i + 1..], EmptyTest(env))
  {
    assert ds[i..] == [ds[i]] + ds[i + 1..];
    FilterConcat([ds[i]], ds[i + 1..], EmptyTest(env));
    assert [ds[i]][1..] == [];
  }

  /**
   * Every non-empty answer leaves the buffer, in date order, and nothing is
   * left in the buffer after the last date.
   */
  predicate Delivered(ds: seq<string>, i: nat, a: Acc, f: Fed, env: Env)
    requires i <= |ds|
  {
    !f.raised ==>
      && f.acc.tally.sent + f.acc.tally.buffer == a.tally.sent + a.tally.buffer + AllFetched(ds[i..], env)
      && (i < |ds| ==> f.acc.tally.buffer == [])
  }

  lemma {:induction false} LoopDelivers(ds: seq<string>, i: nat, a: Acc, env: Env)
    requires i <= |ds|
    ensures Delivered(ds, i, a, Loop(ds, i, a, env), env)
    decreases |ds| - i
  {
    if i == |ds| {
      assert a.tally.sent + a.tally.buffer + [] == a.tally.sent + a.tally.buffer;
    } else {
      match Step(a, ds[i], i == |ds| - 1, env)
      case None =>
      case Some(b) =>
        LoopDelivers(ds, i + 1, b, env);
        StepAccounts(a, ds[i], i == |ds| - 1, env);
        assert ds[i..][1..] == ds[i + 1..];
        var x, rest := Fetched(ds[i], env), AllFetched(ds[i + 1..], env);
        assert AllFetched(ds[i..], env) == x + rest;
        var f := Loop(ds, i + 1, b, env);
        if !f.raised {
          Chain(a.tally, b.tally, f.acc.tally, x, rest);
        }
    }
  }

  lemma Chain(a: Tally, b: Tally, f: Tally, x: seq<Frame>, rest: seq<Frame>)
    requires b.sent + b.buffer == a.sent + a.buffer + x
    requires f.sent + f.buffer == b.sent + b.buffer + rest
    ensures f.sent + f.buffer == a.sent + a.buffer + (x + rest)
  {
  }

  lemma Chain2(a: seq<string>, b: seq<string>, f: seq<string>, x: seq<string>, rest: seq<string>)
    requires b == a + x && f == b + rest
    ensures f == a + (x + rest)
  {
  }

  /** `insert_new` only appends: every table's stored rows survive the loop as a prefix. */
  lemma {:induction false} LoopKeeps(ds: seq<string>, i: nat, a: Acc, env: Env, n: string)
    requires i <= |ds| && Writes(env.w) && n in a.state.tables
    ensures var s := Loop(ds, i, a, env).acc.state;
      n in s.tables && a.state.tables[n].rows <= s.tables[n].rows
    decreases |ds| - i
  {
    if i < |ds| {
      match Step(a, ds[i], i == |ds| - 1, env)
      case None =>
      case Some(b) =>
        StepKeeps(a, ds[i], i == |ds| - 1, env, n);
        LoopKeeps(ds, i + 1, b, env, n);
    }
  }

  lemma StepKeeps(a: Acc, d: string, last: bool, env: Env, n: string)
    requires Writes(env.w) && n in a.state.tables
    requires Step(a, d, last, env).Some?
    ensures var s := Step(a, d, last, env).value.state;
      n in s.tables && a.state.tables[n].rows <= s.tables[n].rows
  {
    var df := Fetch(d, env);
    var t := if df == [] then a.tally.(failed := a.tally.failed + [d]) else a.tally.(buffer := a.tally.buffer + [df]);
    if FlushDue(t.buffer, last) {
      WriterKeeps(env.w, a.state, TableName, Combined(t.buffer), env.keys, Some("end_date"), Some(env.entry), n);
    }
  }

  // ---------------------------------------------------------------------------
  // The run (lines 73-163)
  // ---------------------------------------------------------------------------

  datatype Outcome =
    | CalendarFails        // the calendar query raises
    | InitTableTypeError   // `init_table` is called with one argument too many
    | NothingMissing
    | Processed(dates: nat, stored: int, failed: seq<string>, crashed: bool)  // crashed: a store raised

  datatype Run = Run(outcome: Outcome, state: State)

  /** The dates a run works on. */
  function Dates(s: State, cal: Frame, earliest: string, today: string): seq<string>
    requires TableName in s.tables
  {
    Newest(Missing(Fridays(cal, earliest, today), EndDates(s.tables[TableName].rows)))
  }

  /**
   * `backfill_pledge_stat` on the state `s`, given the calendar rows (None
   * when the calendar query raises), the earliest date and today's date.
   */
  function Backfill(s: State, cal: Option<Frame>, earliest: string, today: string, env: Env): (r: Run)
    ensures cal.None? ==> r == Run(CalendarFails, s)
    ensures cal.Some? && TableName !in s.tables ==> r == Run(InitTableTypeError, s)
    ensures r.outcome.Processed? || r.state == s
  {
    if cal.None? then Run(CalendarFails, s)
    else if TableName !in s.tables then Run(InitTableTypeError, s)
    else
      var ds := Dates(s, cal.value, earliest, today);
      if ds == [] then Run(NothingMissing, s)
      else
        var f := Loop(ds, 0, Acc(s, Start), env);
        Run(Processed(|ds|, f.acc.tally.stored, f.acc.tally.failed, f.raised), f.acc.state)
  }

  /**
   * The dates of a run are exactly the open SSE Fridays from the earliest date
   * to today that have no stored row.
   */
  lemma DatesExact(s: State, cal: Frame, earliest: string, today: string, v: string)
    requires TableName in s.tables
    ensures v in Dates(s, cal, earliest, today) <==>
      && IsFriday(v)
      && (exists r :: r in cal && OpenDay(r, earliest, today, "SSE") && Get(r, "cal_date") == Some(v))
      && !exists r :: r in s.tables[TableName].rows && OnDate(r, v)
  {
    var ms := Missing(Fridays(cal, earliest, today), EndDates(s.tables[TableName].rows));
    ReverseMembers(ms, v);
  }

  /** The dates are newest first, and a run with none to fetch reports that nothing is missing. */
  lemma DatesReverseDescending(s: State, cal: Frame, earliest: string, today: string, env: Env)
    requires TableName in s.tables
    ensures var ds := Dates(s, cal, earliest, today);
      && SortedDesc(ds)
      && (Backfill(s, Some(cal), earliest, today, env).outcome == NothingMissing <==> ds == [])
  {
    var ms := Missing(Fridays(cal, earliest, today), EndDates(s.tables[TableName].rows));
    ReverseDescending(ms);
  }

  /**
   * A run that did not crash reports every date, reports as failed exactly the
   * dates whose answer was empty (newest first), hands every non-empty answer
   * to a flush in order, leaves nothing buffered and reports a non-negative total.
   */
  lemma BackfillAccounts(s: State, cal: Frame, earliest: string, today: string, env: Env)
    requires TableName in s.tables
    ensures var r := Backfill(s, Some(cal), earliest, today, env); var ds := Dates(s, cal, earliest, today);
      r.outcome.Processed? && !r.outcome.crashed ==>
        && r.outcome.dates == |ds|
        && r.outcome.failed == Filter(ds, EmptyTest(env))
        && r.outcome.stored >= 0
        && Loop(ds, 0, Acc(s, Start), env).acc.tally.sent == AllFetched(ds, env)
        && Loop(ds, 0, Acc(s, Start), env).acc.tally.buffer == []
  {
    var ds := Dates(s, cal, earliest, today);
    if ds != [] {
      LoopFails(ds, 0, Acc(s, Start), env);
      LoopDelivers(ds, 0, Acc(s, Start), env);
      assert ds[0..] == ds;
      var t := Loop(ds, 0, Acc(s, Start), env).acc.tally;
      assert Start.sent + Start.buffer + AllFetched(ds, env) == AllFetched(ds, env);
      assert Start.failed + Filter(ds, EmptyTest(env)) == Filter(ds, EmptyTest(env));
      assert t.sent + [] == t.sent;
    }
  }

  /** Every stored row survives the run. */
  lemma BackfillKeeps(s: State, cal: Option<Frame>, earliest: string, today: string, env: Env, n: string)
    requires Writes(env.w) && n in s.tables
    ensures var t := Backfill(s, cal, earliest, today, env).state.tables; n in t && s.tables[n].rows <= t[n].rows
  {
    if cal.Some? && TableName in s.tables {
      var ds := Dates(s, cal.value, earliest, today);
      if ds != [] {
        LoopKeeps(ds, 0, Acc(s, Start), env, n);
      }
    }
  }

  // ---------------------------------------------------------------------------
  // The run on the database
  // ---------------------------------------------------------------------------

  /** The write of a flush: `store_data` with `insert_new` on the combined frame. */
  method StoreCombined(db: Database, combined: Frame, env: Env) returns (r: StoreResult)
    requires Writes(env.w)
    modifies db
    ensures Stored(State(db.tables, db.meta), r)
         == env.w(State(old(db.tables), old(db.meta)), TableName, combined, env.keys, Some("end_date"), "insert_new",
                  None, None, None, Some(env.entry))
    ensures r.Raised? ==> db.tables == old(db.tables) && db.meta == old(db.meta)
  {
    r := StoreData(db, TableName, combined, env.keys, Some("end_date"), "insert_new", None, None, None, Some(env.entry));
  }

  /** A flush on the database: the state and tally `Flush` gives, nothing changed when the store raises. */
  method FlushBuffer(db: Database, t: Tally, env: Env) returns (ok: bool, t': Tally)
    requires Writes(env.w)
    modifies db
    ensures var r := Flush(Acc(State(old(db.tables), old(db.meta)), t), env);
      && (ok <==> r.Some?)
      && (ok ==> r.value == Acc(State(db.tables, db.meta), t'))
      && (!ok ==> t' == t && db.tables == old(db.tables) && db.meta == old(db.meta))
  {
    var r := StoreCombined(db, Combined(t.buffer), env);
    if r.Raised? {
      return false, t;
    }
    ok, t' := true, t.(buffer := [], sent := t.sent + t.buffer, stored := t.stored + Added(r.code));
  }

  /** One date on the database, proved against `Step`. */
  method StepDate(db: Database, d: string, last: bool, env: Env, t: Tally) returns (ok: bool, t': Tally)
    requires Writes(env.w)
    modifies db
    ensures var r := Step(Acc(State(old(db.tables), old(db.meta)), t), d, last, env);
      && (ok <==> r.Some?)
      && (ok ==> r.value == Acc(State(db.tables, db.meta), t'))
      && (!ok ==> t' == t && db.tables == old(db.tables) && db.meta == old(db.meta))
  {
    var df := FetchDate(env.apiFor(d), d, env.limit);
    var u := t;
    if df == [] {
      u := u.(failed := u.failed + [d]);
    } else {
      u := u.(buffer := u.buffer + [df]);
    }
    if FlushDue(u.buffer, last) {
      ok, t' := FlushBuffer(db, u, env);
      if !ok {
        t' := t;
      }
    } else {
      ok, t' := true, u;
    }
  }

  /** The loop over the missing Fridays (lines 120-147), proved against `Loop`. */
  method ProcessDates(db: Database, ds: seq<string>, env: Env) returns (t: Tally, crashed: bool)
    requires Writes(env.w)
    modifies db
    ensures var f := Loop(ds, 0, Acc(State(old(db.tables), old(db.meta)), Start), env);
      Acc(State(db.tables, db.meta), t) == f.acc && crashed == f.raised
  {
    ghost var goal := Loop(ds, 0, Acc(State(db.tables, db.meta), Start), env);
    t := Start;
    var i := 0;
    while i < |ds|
      invariant 0 <= i <= |ds|
      invariant goal == Loop(ds, i, Acc(State(db.tables, db.meta), t), env)
      decreases |ds| - i
    {
      var ok;
      ok, t := StepDate(db, ds[i], i == |ds| - 1, env, t);
      if !ok {
        return t, true;
      }
      i := i + 1;
    }
    crashed := false;
  }

  /** `backfill_pledge_stat` on the database, as written. */
  method BackfillPledgeStat(db: Database, cal: Option<Frame>, earliest: string, today: string, env: Env)
    returns (o: Outcome)
    requires Writes(env.w)
    modifies db
    ensures Run(o, State(db.tables, db.meta)) == Backfill(State(old(db.tables), old(db.meta)), cal, earliest, today, env)
  {
    if cal.None? {
      return CalendarFails;
    }
    if TableName !in db.tables {
      return InitTableTypeError;
    }
    var local := EndDates(db.tables[TableName].rows);
    var missing := FilterInOrder(Fridays(cal.value, earliest, today), NotIn(local));
    if missing == [] {
      return NothingMissing;
    }
    var ds := Newest(missing);
    var t, crashed := ProcessDates(db, ds, env);
    o := Processed(|ds|, t.stored, t.failed, crashed);
  }
}
